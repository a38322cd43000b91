/**
  The three domain records (`Carro`, `Cliente`, `Reserva`) and their `to_dict` encodings.

  Request payloads arrive as JSON; the scalar values the services receive and store
  unchanged are modelled by `Value`. Dictionaries produced by `to_dict` and sent to the
  persistence and messaging stubs are `map<string, Json>`.
 */
module Records {
  import opened Wrappers
  import opened Dates

  /** Identifiers produced by `str(uuid.uuid4())`. */
  type Id = string

  /** A scalar taken from a request body. */
  datatype Value = Str(text: string) | Int(number: int)

  /** `d.get(key)` on a dictionary keyed by ids: a request value that is not a string is never a key. */
  function Lookup<V>(m: map<Id, V>, key: Value): Option<V> {
    if key.Str? && key.text in m then Some(m[key.text]) else None
  }

  datatype Json =
    | JStr(str: string)
    | JInt(num: int)
    | JBool(flag: bool)
    | JObj(fields: map<string, Json>)
    | JArr(items: seq<Json>)

  /** `Carro`: `marca`, `modelo`, `ano` and `placa` are stored as received; `disponivel` defaults to true. */
  datatype Car = Car(id: Id, make: Value, model: Value, year: Value, plate: Value, available: bool)

  /** `Cliente`. */
  datatype Customer = Customer(id: Id, name: Value, email: Value, phone: Value)

  /** `Reserva`: the customer id is stored unchecked; `ativa` starts true. */
  datatype Reservation = Reservation(
    id: Id, customerId: Value, carId: Id, start: CalendarDate, end: CalendarDate, active: bool)

  function ValueToJson(v: Value): Json {
    match v
    case Str(t) => JStr(t)
    case Int(n) => JInt(n)
  }

  function JsonToValue(j: Json): Option<Value> {
    match j
    case JStr(t) => Some(Str(t))
    case JInt(n) => Some(Int(n))
    case _ => None
  }

  /** `Carro.to_dict`. */
  function CarToDict(c: Car): map<string, Json> {
    map[
      "carro_id" := JStr(c.id),
      "marca" := ValueToJson(c.make),
      "modelo" := ValueToJson(c.model),
      "ano" := ValueToJson(c.year),
      "placa" := ValueToJson(c.plate),
      "disponivel" := JBool(c.available)
    ]
  }

  /** `Carro(**d)` on a dictionary with the keys `Carro.to_dict` writes. */
  function CarFromDict(d: map<string, Json>): Option<Car> {
    if && "carro_id" in d && d["carro_id"].JStr?
       && "marca" in d && JsonToValue(d["marca"]).Some?
       && "modelo" in d && JsonToValue(d["modelo"]).Some?
       && "ano" in d && JsonToValue(d["ano"]).Some?
       && "placa" in d && JsonToValue(d["placa"]).Some?
       && "disponivel" in d && d["disponivel"].JBool?
    then
      Some(Car(d["carro_id"].str, JsonToValue(d["marca"]).value, JsonToValue(d["modelo"]).value,
               JsonToValue(d["ano"]).value, JsonToValue(d["placa"]).value, d["disponivel"].flag))
    else None
  }

  /** `Cliente.to_dict`. */
  function CustomerToDict(c: Customer): map<string, Json> {
    map[
      "cliente_id" := JStr(c.id),
      "nome" := ValueToJson(c.name),
      "email" := ValueToJson(c.email),
      "telefone" := ValueToJson(c.phone)
    ]
  }

  function CustomerFromDict(d: map<string, Json>): Option<Customer> {
    if && "cliente_id" in d && d["cliente_id"].JStr?
       && "nome" in d && JsonToValue(d["nome"]).Some?
       && "email" in d && JsonToValue(d["email"]).Some?
       && "telefone" in d && JsonToValue(d["telefone"]).Some?
    then
      Some(Customer(d["cliente_id"].str, JsonToValue(d["nome"]).value,
                    JsonToValue(d["email"]).value, JsonToValue(d["telefone"]).value))
    else None
  }

  /** `Reserva.to_dict`: dates are written with `isoformat()`. */
  function ReservationToDict(r: Reservation): map<string, Json> {
    map[
      "reserva_id" := JStr(r.id),
      "cliente_id" := ValueToJson(r.customerId),
      "carro_id" := JStr(r.carId),
      "data_inicio" := JStr(IsoFormat(r.start)),
      "data_fim" := JStr(IsoFormat(r.end)),
      "ativa" := JBool(r.active)
    ]
  }

  function ReservationFromDict(d: map<string, Json>): Option<Reservation> {
    if && "reserva_id" in d && d["reserva_id"].JStr?
       && "cliente_id" in d && JsonToValue(d["cliente_id"]).Some?
       && "carro_id" in d && d["carro_id"].JStr?
       && "data_inicio" in d && d["data_inicio"].JStr? && ParseIsoDate(d["data_inicio"].str).Some?
       && "data_fim" in d && d["data_fim"].JStr? && ParseIsoDate(d["data_fim"].str).Some?
       && "ativa" in d && d["ativa"].JBool?
    then
      Some(Reservation(d["reserva_id"].str, JsonToValue(d["cliente_id"]).value, d["carro_id"].str,
                       ParseIsoDate(d["data_inicio"].str).value, ParseIsoDate(d["data_fim"].str).value,
                       d["ativa"].flag))
    else None
  }

  /** A car's dictionary holds every field: `Carro(**car.to_dict())` rebuilds the same car. */
  lemma CarDictRoundTrip(c: Car)
    ensures CarFromDict(CarToDict(c)) == Some(c)
  {
  }

  lemma CustomerDictRoundTrip(c: Customer)
    ensures CustomerFromDict(CustomerToDict(c)) == Some(c)
  {
  }

  /** A reservation's dictionary holds every field, the dates included, so decoding it rebuilds the record. */
  lemma ReservationDictRoundTrip(r: Reservation)
    ensures ReservationFromDict(ReservationToDict(r)) == Some(r)
  {
    ParseIsoFormat(r.start);
    ParseIsoFormat(r.end);
  }
}
