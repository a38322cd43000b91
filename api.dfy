/**
  The `api_*` functions: each calls one service operation and maps its result, or a missing
  request key (`KeyError`), to a response body and an HTTP status code.
 */
module Api {
  import opened Wrappers
  import opened Records
  import opened Gateway
  import opened Rental
  import opened CarRegistry
  import opened CustomerRegistry
  import opened ReservationRegistry

  /** A request body: `data[key]` raises `KeyError` for a missing key. */
  type Request = map<string, Value>

  datatype Response = Response(body: map<string, Json>, status: int)

  /** What an endpoint yields: a response, or the `TypeError` that `fromisoformat` raises on a
      non-text date and that no handler catches. */
  datatype ApiResult = Reply(response: Response) | UncaughtTypeError

  const CarFields := ["marca", "modelo", "ano", "placa"]
  const CustomerFields := ["nome", "email", "telefone"]
  const ReservationFields := ["cliente_id", "carro_id", "data_inicio", "data_fim"]

  const IncompleteCarMessage := "Dados incompletos para adicionar o carro."
  const IncompleteCustomerMessage := "Dados incompletos para adicionar o cliente."
  const IncompleteReservationMessage := "Dados incompletos para criar a reserva."

  predicate HasFields(data: Request, fields: seq<string>) {
    forall f :: f in fields ==> f in data
  }

  function SuccessResponse(key: string, payload: Json, status: int): Response {
    Response(map["status" := JStr("success"), key := payload], status)
  }

  function ErrorResponse(message: string, status: int): Response {
    Response(map["status" := JStr("error"), "message" := JStr(message)], status)
  }

  // ------------------------------------------------------- pure mappings

  /** `api_adicionar_carro` as a function of the car dictionary: the reply and the cars afterwards. */
  function AddCarEndpoint(cars: map<Id, Car>, data: Request, freshId: Id): (Response, map<Id, Car>) {
    if HasFields(data, CarFields) then
      var car := NewCar(freshId, data["marca"], data["modelo"], data["ano"], data["placa"]);
      (SuccessResponse("carro", JObj(CarToDict(car)), 201), WithCar(cars, car))
    else (ErrorResponse(IncompleteCarMessage, 400), cars)
  }

  /** `api_adicionar_cliente` as a function of the customer dictionary. */
  function AddCustomerEndpoint(customers: map<Id, Customer>, data: Request, freshId: Id): (Response, map<Id, Customer>) {
    if HasFields(data, CustomerFields) then
      var customer := Customer(freshId, data["nome"], data["email"], data["telefone"]);
      (SuccessResponse("cliente", JObj(CustomerToDict(customer)), 201), customers[freshId := customer])
    else (ErrorResponse(IncompleteCustomerMessage, 400), customers)
  }

  /** `api_criar_reserva`'s mapping of `criar_reserva`'s result. */
  function CreateReply(outcome: CreateOutcome): ApiResult {
    match outcome
    case Created(r) => Reply(SuccessResponse("reserva", JObj(ReservationToDict(r)), 201))
    case Refused(message) => Reply(ErrorResponse(message, 400))
    case DateTypeError => UncaughtTypeError
  }

  /** `api_criar_reserva` as a function of the registries. */
  function CreateEndpoint(st: Registries, data: Request, freshId: Id): (ApiResult, Registries) {
    if HasFields(data, ReservationFields) then
      var (outcome, st') := Create(st, freshId, data["cliente_id"], data["carro_id"], data["data_inicio"], data["data_fim"]);
      (CreateReply(outcome), st')
    else (Reply(ErrorResponse(IncompleteReservationMessage, 400)), st)
  }

  /** `api_cancelar_reserva`'s mapping of `cancelar_reserva`'s result. */
  function CancelReply(reservationId: Id, outcome: CancelOutcome): Response {
    match outcome
    case Cancelled => SuccessResponse("message", JStr("Reserva " + reservationId + " cancelada."), 200)
    case NotCancelled(message) => ErrorResponse(message, 404)
  }

  /** `api_listar_carros_disponiveis`'s body for a list of cars. */
  function CarListResponse(cars: seq<Car>): (r: Response)
    ensures r.status == 200 && "carros" in r.body && r.body["carros"].JArr?
    ensures "status" in r.body && r.body["status"] == JStr("success")
    ensures forall j :: j in r.body["carros"].items <==> exists c :: c in cars && j == JObj(CarToDict(c))
    ensures |r.body["carros"].items| == |cars|
    ensures forall i :: 0 <= i < |cars| ==> r.body["carros"].items[i] == JObj(CarToDict(cars[i]))
  {
    var items := seq(|cars|, i requires 0 <= i < |cars| => JObj(CarToDict(cars[i])));
    assert forall c :: c in cars ==> JObj(CarToDict(c)) in items by {
      forall c | c in cars ensures JObj(CarToDict(c)) in items {
        var i :| 0 <= i < |cars| && cars[i] == c;
        assert items[i] == JObj(CarToDict(c));
      }
    }
    SuccessResponse("carros", JArr(items), 200)
  }

  /** `api_listar_reservas_cliente`'s body for a list of reservations. */
  function ReservationListResponse(reservations: seq<Reservation>): (r: Response)
    ensures r.status == 200 && "reservas" in r.body && r.body["reservas"].JArr?
    ensures "status" in r.body && r.body["status"] == JStr("success")
    ensures forall j :: j in r.body["reservas"].items <==> exists x :: x in reservations && j == JObj(ReservationToDict(x))
    ensures |r.body["reservas"].items| == |reservations|
    ensures forall i :: 0 <= i < |reservations| ==> r.body["reservas"].items[i] == JObj(ReservationToDict(reservations[i]))
  {
    var items := seq(|reservations|, i requires 0 <= i < |reservations| => JObj(ReservationToDict(reservations[i])));
    assert forall x :: x in reservations ==> JObj(ReservationToDict(x)) in items by {
      forall x | x in reservations ensures JObj(ReservationToDict(x)) in items {
        var i :| 0 <= i < |reservations| && reservations[i] == x;
        assert items[i] == JObj(ReservationToDict(x));
      }
    }
    SuccessResponse("reservas", JArr(items), 200)
  }

  // ------------------------------------------------------- status codes

  /** Adding a car answers 201 with the stored car exactly when every field is present, and 400
      with the incomplete-data message and nothing stored otherwise. */
  lemma AddCarStatus(cars: map<Id, Car>, data: Request, freshId: Id)
    requires freshId !in cars
    ensures var (response, cars') := AddCarEndpoint(cars, data, freshId);
      && (response.status == 201 <==> HasFields(data, CarFields))
      && (response.status == 400 <==> !HasFields(data, CarFields))
      && (response.status == 201 ==>
            && Lookup(cars', Str(freshId)) == Some(NewCar(freshId, data["marca"], data["modelo"], data["ano"], data["placa"]))
            && response.body["status"] == JStr("success")
            && response.body["carro"] == JObj(CarToDict(cars'[freshId]))
            && cars'.Keys == cars.Keys + {freshId})
      && (response.status == 400 ==>
            && response.body == map["status" := JStr("error"), "message" := JStr(IncompleteCarMessage)]
            && cars' == cars)
  {
  }

  lemma AddCustomerStatus(customers: map<Id, Customer>, data: Request, freshId: Id)
    requires freshId !in customers
    ensures var (response, customers') := AddCustomerEndpoint(customers, data, freshId);
      && (response.status == 201 <==> HasFields(data, CustomerFields))
      && (response.status == 400 <==> !HasFields(data, CustomerFields))
      && (response.status == 201 ==>
            && customers'[freshId] == Customer(freshId, data["nome"], data["email"], data["telefone"])
            && response.body["status"] == JStr("success")
            && response.body["cliente"] == JObj(CustomerToDict(customers'[freshId]))
            && customers'.Keys == customers.Keys + {freshId})
      && (response.status == 400 ==>
            && response.body == map["status" := JStr("error"), "message" := JStr(IncompleteCustomerMessage)]
            && customers' == customers)
  {
  }

  /** Creating a reservation answers 400 with nothing changed when a key is missing; otherwise
      201 with the new reservation's dictionary exactly when the service creates it, 400 with the
      service's message when it refuses (and then nothing changes), and a numeric date escapes as
      an uncaught `TypeError`, also with nothing changed. */
  lemma CreateStatus(st: Registries, data: Request, freshId: Id)
    ensures !HasFields(data, ReservationFields) ==>
      CreateEndpoint(st, data, freshId) == (Reply(ErrorResponse(IncompleteReservationMessage, 400)), st)
    ensures HasFields(data, ReservationFields) ==>
      var (result, st') := CreateEndpoint(st, data, freshId);
      var outcome := Create(st, freshId, data["cliente_id"], data["carro_id"], data["data_inicio"], data["data_fim"]).0;
      && (result.Reply? && result.response.status == 201 <==> outcome.Created?)
      && (result.Reply? && result.response.status == 400 <==> outcome.Refused?)
      && (result.UncaughtTypeError? <==> outcome.DateTypeError?)
      && (outcome.Created? ==>
            && result.response.body["status"] == JStr("success")
            && result.response.body["reserva"] == JObj(ReservationToDict(outcome.reservation)))
      && (outcome.Refused? ==>
            && result.response.body["status"] == JStr("error")
            && result.response.body["message"] == JStr(outcome.message))
      && (!outcome.Created? ==> st' == st)
  {
    if HasFields(data, ReservationFields) {
      var outcome := Create(st, freshId, data["cliente_id"], data["carro_id"], data["data_inicio"], data["data_fim"]).0;
      if !outcome.Created? {
        CreateFailureChangesNothing(st, freshId, data["cliente_id"], data["carro_id"], data["data_inicio"], data["data_fim"]);
      }
    }
  }

  /** Cancelling answers 200 with the confirmation exactly when the reservation exists and is
      active; otherwise 404 with "already cancelled" for a stored reservation and "not found" for
      an unknown id. */
  lemma CancelStatus(st: Registries, reservationId: Id)
    ensures var response := CancelReply(reservationId, Cancel(st, reservationId).0);
      && (response.status == 200 <==> reservationId in st.reservations && st.reservations[reservationId].active)
      && (response.status == 404 <==> !(reservationId in st.reservations && st.reservations[reservationId].active))
      && (response.status == 200 ==>
            && response.body["status"] == JStr("success")
            && response.body["message"] == JStr("Reserva " + reservationId + " cancelada."))
      && (response.status == 404 ==>
            && response.body["status"] == JStr("error")
            && response.body["message"] == JStr(if reservationId in st.reservations then AlreadyCancelledMessage else ReservationNotFoundMessage))
  {
  }

  // ------------------------------------------------------- endpoints

  /** `api_adicionar_carro`; `freshId` is the car's `uuid4()`. */
  method AddCarApi(service: CarService, data: Request, freshId: Id) returns (response: Response)
    requires service.Valid() && freshId !in service.cars
    modifies service, service.log
    ensures service.Valid()
    ensures (response, service.cars) == AddCarEndpoint(old(service.cars), data, freshId)
    ensures service.order == (if response.status == 201 then old(service.order) + [freshId] else old(service.order))
    ensures service.log.events == old(service.log.events) +
      (if response.status == 201 then [Saved(Carros, CarRecord(service.cars[freshId]))] else [])
  {
    if !HasFields(data, CarFields) {
      return ErrorResponse(IncompleteCarMessage, 400);
    }
    var car := service.AddCar(freshId, data["marca"], data["modelo"], data["ano"], data["placa"]);
    response := SuccessResponse("carro", JObj(CarToDict(car)), 201);
  }

  /** `api_listar_carros_disponiveis`. */
  function ListAvailableCarsApi(service: CarService): (r: Response)
    reads service
    requires service.Valid()
    ensures r.status == 200 && "carros" in r.body && r.body["carros"].JArr?
    ensures "status" in r.body && r.body["status"] == JStr("success")
    ensures forall c :: JObj(CarToDict(c)) in r.body["carros"].items <==> c in service.cars.Values && c.available
    ensures forall j :: j in r.body["carros"].items ==>
      exists c :: c in service.cars.Values && c.available && j == JObj(CarToDict(c))
    ensures forall i, j :: 0 <= i < j < |r.body["carros"].items| ==> r.body["carros"].items[i] != r.body["carros"].items[j]
  {
    CarDictInjective();
    CarListResponse(service.AvailableCars())
  }

  /** `api_adicionar_cliente`; `freshId` is the customer's `uuid4()`. */
  method AddCustomerApi(service: CustomerService, data: Request, freshId: Id) returns (response: Response)
    requires service.Valid() && freshId !in service.customers
    modifies service, service.log
    ensures service.Valid()
    ensures (response, service.customers) == AddCustomerEndpoint(old(service.customers), data, freshId)
    ensures service.log.events == old(service.log.events) +
      (if response.status == 201 then [Saved(Clientes, CustomerRecord(service.customers[freshId]))] else [])
  {
    if !HasFields(data, CustomerFields) {
      return ErrorResponse(IncompleteCustomerMessage, 400);
    }
    var customer := service.AddCustomer(freshId, data["nome"], data["email"], data["telefone"]);
    response := SuccessResponse("cliente", JObj(CustomerToDict(customer)), 201);
  }

  /** `api_criar_reserva`; `freshId` is the reservation's `uuid4()`. */
  method CreateReservationApi(service: ReservationService, data: Request, freshId: Id) returns (result: ApiResult)
    requires service.Valid() && freshId !in service.reservations
    modifies service, service.carService, service.log
    ensures service.Valid()
    ensures (result, service.State()) == CreateEndpoint(old(service.State()), data, freshId)
    ensures service.order ==
      (if result.Reply? && result.response.status == 201 then old(service.order) + [freshId] else old(service.order))
    ensures service.carService.order == old(service.carService.order)
  {
    if !HasFields(data, ReservationFields) {
      return Reply(ErrorResponse(IncompleteReservationMessage, 400));
    }
    var outcome := service.CreateReservation(freshId, data["cliente_id"], data["carro_id"], data["data_inicio"], data["data_fim"]);
    result := CreateReply(outcome);
  }

  /** `api_cancelar_reserva`. */
  method CancelReservationApi(service: ReservationService, reservationId: Id) returns (response: Response)
    requires service.Valid()
    modifies service, service.carService, service.log
    ensures service.Valid()
    ensures var (outcome, st') := Cancel(old(service.State()), reservationId);
      response == CancelReply(reservationId, outcome) && service.State() == st'
    ensures service.order == old(service.order) && service.carService.order == old(service.carService.order)
  {
    var outcome := service.CancelReservation(reservationId);
    response := CancelReply(reservationId, outcome);
  }

  /** `api_listar_reservas_cliente`. */
  function ListReservationsApi(service: ReservationService, customerId: Value): (r: Response)
    reads service, service.carService
    requires service.Valid()
    ensures r.status == 200 && "reservas" in r.body && r.body["reservas"].JArr?
    ensures "status" in r.body && r.body["status"] == JStr("success")
    ensures forall x :: JObj(ReservationToDict(x)) in r.body["reservas"].items <==>
      x in service.reservations.Values && x.customerId == customerId && x.active
    ensures forall j :: j in r.body["reservas"].items ==>
      exists x :: x in service.reservations.Values && x.customerId == customerId && x.active && j == JObj(ReservationToDict(x))
    ensures forall i, j :: 0 <= i < j < |r.body["reservas"].items| ==> r.body["reservas"].items[i] != r.body["reservas"].items[j]
  {
    ReservationDictInjective();
    ReservationListResponse(service.ActiveReservationsOf(customerId))
  }

  lemma CarDictInjective()
    ensures forall c1, c2 :: CarToDict(c1) == CarToDict(c2) ==> c1 == c2
  {
    forall c1, c2 | CarToDict(c1) == CarToDict(c2) ensures c1 == c2 {
      CarDictRoundTrip(c1);
      CarDictRoundTrip(c2);
    }
  }

  lemma ReservationDictInjective()
    ensures forall x1, x2 :: ReservationToDict(x1) == ReservationToDict(x2) ==> x1 == x2
  {
    forall x1, x2 | ReservationToDict(x1) == ReservationToDict(x2) ensures x1 == x2 {
      ReservationDictRoundTrip(x1);
      ReservationDictRoundTrip(x2);
    }
  }
}
