/** `ServicoReservas`: owns the reservations and drives the car service's availability flags. */
module ReservationRegistry {
  import opened Wrappers
  import opened Dates
  import opened Records
  import opened Gateway
  import opened Rental
  import opened CarRegistry

  class ReservationService {
    /** `self.reservas`. */
    var reservations: map<Id, Reservation>
    /** The insertion order of `self.reservas`. */
    var order: seq<Id>
    /** `self.servico_carros`, shared with whoever else holds it. */
    const carService: CarService
    const log: EventLog

    ghost predicate Valid()
      reads this, carService
    {
      && carService.Valid()
      && carService.log == log
      && KeysInOrder(order, reservations)
      && (forall id :: id in reservations ==> reservations[id].id == id)
    }

    /** Both dictionaries as one value. */
    ghost function State(): Registries
      reads this, carService
    {
      Registries(carService.cars, reservations)
    }

    constructor (carService: CarService)
      requires carService.Valid()
      ensures Valid()
      ensures reservations == map[] && order == [] && this.carService == carService
    {
      reservations := map[];
      order := [];
      this.carService := carService;
      log := carService.log;
    }

    /** `criar_reserva`; `freshId` is the value `str(uuid.uuid4())` would give on success. */
    method CreateReservation(freshId: Id, customerId: Value, carId: Value, start: Value, end: Value)
      returns (outcome: CreateOutcome)
      requires Valid() && freshId !in reservations
      modifies this, carService, log
      ensures Valid()
      ensures (outcome, State()) == Create(old(State()), freshId, customerId, carId, start, end)
      ensures order == (if outcome.Created? then old(order) + [freshId] else old(order))
      ensures carService.order == old(carService.order)
      ensures log.events == old(log.events) + CreateEvents(outcome, carService.cars)
    {
      ghost var before := State();
      CreateSuccess(before, freshId, customerId, carId, start, end);
      var car := carService.GetCar(carId);
      if car.None? || !car.value.available {
        return Refused(CarUnavailableMessage);
      }
      var s := ParseDateArgument(start);
      if s.Failure? {
        return if s.error.TypeError? then DateTypeError else Refused(DateFormatMessage);
      }
      var f := ParseDateArgument(end);
      if f.Failure? {
        return if f.error.TypeError? then DateTypeError else Refused(DateFormatMessage);
      }
      if !Before(s.value, f.value) {
        return Refused(DateRangeMessage);
      }
      var r := Reservation(freshId, customerId, carId.text, s.value, f.value, true);
      Store(r);
      outcome := Created(r);
    }

    /** The effects of a successful `criar_reserva`: store the reservation, clear the car's flag,
        save both and announce the reservation. */
    method Store(r: Reservation)
      requires Valid() && r.id !in reservations && r.carId in carService.cars
      modifies this, carService, log
      ensures Valid()
      ensures reservations == old(reservations)[r.id := r] && order == old(order) + [r.id]
      ensures carService.cars == SetAvailability(old(carService.cars), r.carId, false).1
      ensures carService.order == old(carService.order)
      ensures log.events == old(log.events) + CreateEvents(Created(r), carService.cars)
    {
      KeysInOrderInsert(order, reservations, r.id, r);
      reservations := reservations[r.id := r];
      order := order + [r.id];
      var _ := carService.MarkUnavailable(r.carId);
      log.Save(Reservas, ReservationRecord(r));
      log.Send(ReservasCriadas, ReservationRecord(r));
    }

    /** `cancelar_reserva`. */
    method CancelReservation(reservationId: Id) returns (outcome: CancelOutcome)
      requires Valid()
      modifies this, carService, log
      ensures Valid()
      ensures (outcome, State()) == Cancel(old(State()), reservationId)
      ensures order == old(order) && carService.order == old(carService.order)
      ensures log.events == old(log.events) + CancelEvents(reservationId, outcome, State())
    {
      if reservationId in reservations && reservations[reservationId].active {
        var r := reservations[reservationId].(active := false);
        KeysInOrderUpdate(order, reservations, reservationId, r);
        reservations := reservations[reservationId := r];
        var _ := carService.MarkAvailable(r.carId);
        log.Save(Reservas, ReservationRecord(r));
        log.Send(ReservasCanceladas, CancellationNotice(reservationId, r.customerId));
        outcome := Cancelled;
      } else if reservationId !in reservations {
        outcome := NotCancelled(ReservationNotFoundMessage);
      } else {
        outcome := NotCancelled(AlreadyCancelledMessage);
      }
    }

    /** `listar_reservas_ativas_por_cliente`: every stored active reservation of the customer,
        once each, in insertion order. */
    function ActiveReservationsOf(customerId: Value): (r: seq<Reservation>)
      reads this, carService
      requires Valid()
      ensures forall x :: x in r <==> x in reservations.Values && x.customerId == customerId && x.active
      ensures forall i, j :: 0 <= i < j < |r| ==> r[i].id != r[j].id
    {
      ActiveAmongDistinct(order, reservations, customerId);
      ActiveAmong(order, reservations, customerId)
    }
  }

  /** What a creation saves and announces: the car with its flag cleared, the new reservation,
      and the `reservas-criadas` message; nothing when it fails. */
  function CreateEvents(outcome: CreateOutcome, carsAfter: map<Id, Car>): seq<Event> {
    if outcome.Created? && outcome.reservation.carId in carsAfter then
      var r := outcome.reservation;
      [ Saved(Carros, CarRecord(carsAfter[r.carId])),
        Saved(Reservas, ReservationRecord(r)),
        Sent(ReservasCriadas, ReservationRecord(r)) ]
    else []
  }

  /** What a cancellation saves and announces: the freed car (when it is stored), the cancelled
      reservation, and the `reservas-canceladas` message; nothing when it fails. */
  function CancelEvents(reservationId: Id, outcome: CancelOutcome, after: Registries): seq<Event> {
    if outcome.Cancelled? && reservationId in after.reservations then
      var r := after.reservations[reservationId];
      (if r.carId in after.cars then [Saved(Carros, CarRecord(after.cars[r.carId]))] else [])
      + [ Saved(Reservas, ReservationRecord(r)),
          Sent(ReservasCanceladas, CancellationNotice(reservationId, r.customerId)) ]
    else []
  }

  /** Distinct keys give reservations with distinct ids in the filtered list. */
  lemma {:induction false} ActiveAmongDistinct(ids: seq<Id>, reservations: map<Id, Reservation>, customerId: Value)
    requires forall id :: id in ids ==> id in reservations && reservations[id].id == id
    requires forall i, j :: 0 <= i < j < |ids| ==> ids[i] != ids[j]
    ensures forall x :: x in ActiveAmong(ids, reservations, customerId) ==> x.id in ids
    ensures forall i, j :: 0 <= i < j < |ActiveAmong(ids, reservations, customerId)| ==>
      ActiveAmong(ids, reservations, customerId)[i].id != ActiveAmong(ids, reservations, customerId)[j].id
  {
    if ids != [] {
      var rest := ActiveAmong(ids[1..], reservations, customerId);
      ActiveAmongDistinct(ids[1..], reservations, customerId);
      assert ids[0] !in ids[1..];
      var head := reservations[ids[0]];
      if head.customerId == customerId && head.active {
        var r := [head] + rest;
        assert ids[0] in ids;
        forall i, j | 0 <= i < j < |r| ensures r[i].id != r[j].id {
          assert r[j] == rest[j - 1] && rest[j - 1] in rest;
          if i > 0 {
            assert r[i] == rest[i - 1];
          }
        }
      }
    }
  }
}
