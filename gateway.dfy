/**
  The Azure stand-ins `salvar_no_cosmos_db` and `enviar_mensagem_service_bus` only print.
  Their calls are recorded here, in order, on a ghost log that every service shares, so the
  service contracts can say which records were saved and which messages were sent. An event
  holds the record itself; the dictionary the code passes is `Dict()` of it, and the round-trip
  lemmas in records.dfy show that, for the three domain records, this dictionary determines
  the record.
 */
module Gateway {
  import opened Records

  datatype Payload =
    | CarRecord(car: Car)
    | CustomerRecord(customer: Customer)
    | ReservationRecord(reservation: Reservation)
    | CancellationNotice(reservationId: Id, customerId: Value)
  {
    /** The dictionary handed to the stub: `to_dict()`, or the cancellation message body. */
    function Dict(): map<string, Json> {
      match this
      case CarRecord(c) => CarToDict(c)
      case CustomerRecord(c) => CustomerToDict(c)
      case ReservationRecord(r) => ReservationToDict(r)
      case CancellationNotice(rid, cid) => map["reserva_id" := JStr(rid), "cliente_id" := ValueToJson(cid)]
    }
  }

  /** The Cosmos DB containers the services write to: `"carros"`, `"clientes"`, `"reservas"`. */
  datatype Container = Carros | Clientes | Reservas

  /** The Service Bus queues: `"reservas-criadas"`, `"reservas-canceladas"`. */
  datatype Queue = ReservasCriadas | ReservasCanceladas

  datatype Event =
    | Saved(container: Container, record: Payload)
    | Sent(queue: Queue, message: Payload)

  class EventLog {
    ghost var events: seq<Event>

    constructor ()
      ensures events == []
    {
      events := [];
    }

    /** `salvar_no_cosmos_db(container, record)`. */
    method Save(container: Container, record: Payload)
      modifies this
      ensures events == old(events) + [Saved(container, record)]
    {
      events := events + [Saved(container, record)];
    }

    /** `enviar_mensagem_service_bus(queue, message)`. */
    method Send(queue: Queue, message: Payload)
      modifies this
      ensures events == old(events) + [Sent(queue, message)]
    {
      events := events + [Sent(queue, message)];
    }
  }
}
