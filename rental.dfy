/**
  The reservation state machine on values: what `ServicoCarros`, `ServicoReservas` and
  their dictionaries look like after each operation, and the consistency between car
  availability and active reservations that every run of add, create and cancel keeps.
  The classes in car_service.dfy and reservation_service.dfy are proved to change their
  fields exactly as these functions say.
 */
module Rental {
  import opened Wrappers
  import opened Dates
  import opened Records

  const CarUnavailableMessage := "Carro não disponível para reserva."
  const DateRangeMessage := "Data de início deve ser anterior à data de fim."
  const DateFormatMessage := "Formato de data inválido (ISO 8601: YYYY-MM-DD)."
  const ReservationNotFoundMessage := "Reserva não encontrada."
  const AlreadyCancelledMessage := "Reserva já está cancelada."

  /** The dictionaries `servico_carros.carros` and `servico_reservas.reservas`. */
  datatype Registries = Registries(cars: map<Id, Car>, reservations: map<Id, Reservation>)

  const Empty := Registries(map[], map[])

  /** `order` lists the keys of `m` once each, in insertion order (Python dictionaries keep it). */
  ghost predicate KeysInOrder<V>(order: seq<Id>, m: map<Id, V>) {
    && (forall i, j :: 0 <= i < j < |order| ==> order[i] != order[j])
    && (forall id :: id in m <==> id in order)
  }

  /** Inserting a new key appends it to the insertion order. */
  lemma KeysInOrderInsert<V>(order: seq<Id>, m: map<Id, V>, id: Id, v: V)
    requires KeysInOrder(order, m) && id !in m
    ensures KeysInOrder(order + [id], m[id := v])
  {
  }

  /** Overwriting an existing key keeps the insertion order. */
  lemma KeysInOrderUpdate<V>(order: seq<Id>, m: map<Id, V>, id: Id, v: V)
    requires KeysInOrder(order, m) && id in m
    ensures KeysInOrder(order, m[id := v])
  {
  }

  // ---------------------------------------------------------------- cars

  /** The car `adicionar_carro` stores: the given fields, `disponivel = True`. */
  function NewCar(id: Id, make: Value, model: Value, year: Value, plate: Value): Car {
    Car(id, make, model, year, plate, true)
  }

  /** `self.carros[carro_id] = carro`. */
  function WithCar(cars: map<Id, Car>, car: Car): map<Id, Car> {
    cars[car.id := car]
  }

  /** A car added under a fresh id is found under that id, and no other lookup changes. */
  lemma LookupAfterAddCar(cars: map<Id, Car>, id: Id, make: Value, model: Value, year: Value, plate: Value, key: Value)
    requires id !in cars
    ensures var car := NewCar(id, make, model, year, plate);
      && Lookup(WithCar(cars, car), Str(id)) == Some(car)
      && car.available
      && (key != Str(id) ==> Lookup(WithCar(cars, car), key) == Lookup(cars, key))
      && |WithCar(cars, car)| == |cars| + 1
  {
  }

  /** `marcar_carro_como_disponivel` (`available`) and `marcar_carro_como_indisponivel` (`!available`). */
  function SetAvailability(cars: map<Id, Car>, id: Id, available: bool): (bool, map<Id, Car>) {
    if id in cars then (true, cars[id := cars[id].(available := available)]) else (false, cars)
  }

  /** A known id gets the flag and reports success; an unknown id reports failure; nothing else changes. */
  lemma SetAvailabilityEffect(cars: map<Id, Car>, id: Id, available: bool)
    ensures var (found, cars') := SetAvailability(cars, id, available);
      && found == (id in cars)
      && cars'.Keys == cars.Keys
      && (found ==> cars'[id] == cars[id].(available := available))
      && (forall k :: k in cars && k != id ==> cars'[k] == cars[k])
  {
  }

  /** Setting the same flag twice is the same as setting it once. */
  lemma SetAvailabilityIdempotent(cars: map<Id, Car>, id: Id, available: bool)
    ensures var once := SetAvailability(cars, id, available);
      SetAvailability(once.1, id, available) == once
  {
    if id in cars {
      var once := SetAvailability(cars, id, available).1;
      assert once[id := once[id].(available := available)] == once;
    }
  }

  /** The comprehension of `listar_carros_disponiveis`, over the keys in insertion order. */
  function AvailableAmong(ids: seq<Id>, cars: map<Id, Car>): (r: seq<Car>)
    requires forall id :: id in ids ==> id in cars
    ensures forall c :: c in r ==> c.available && exists id :: id in ids && cars[id] == c
    ensures forall id :: id in ids && cars[id].available ==> cars[id] in r
    ensures |r| <= |ids|
  {
    if ids == [] then []
    else
      var rest := AvailableAmong(ids[1..], cars);
      if cars[ids[0]].available then [cars[ids[0]]] + rest else rest
  }

  // -------------------------------------------------------- reservations

  datatype DateError = ValueError | TypeError

  /** `datetime.fromisoformat(v).date()` on a request value: text that does not parse raises
      `ValueError`, a number raises `TypeError`. */
  function ParseDateArgument(v: Value): Result<CalendarDate, DateError> {
    match v
    case Int(_) => Failure(TypeError)
    case Str(s) =>
      match ParseIsoDate(s)
      case Some(d) => Success(d)
      case None => Failure(ValueError)
  }

  /** What `criar_reserva` returns: the reservation, an error message, or the `TypeError` its
      `except ValueError` lets through. */
  datatype CreateOutcome = Created(reservation: Reservation) | Refused(message: string) | DateTypeError

  /** `criar_reserva`'s checks, in order: the car, then the start date, the end date and their order. */
  function CreateDecision(cars: map<Id, Car>, freshId: Id, customerId: Value, carId: Value, start: Value, end: Value): CreateOutcome
  {
    var car := Lookup(cars, carId);
    if car.None? || !car.value.available then Refused(CarUnavailableMessage)
    else
      match ParseDateArgument(start)
      case Failure(e) => if e.TypeError? then DateTypeError else Refused(DateFormatMessage)
      case Success(s) =>
        match ParseDateArgument(end)
        case Failure(e) => if e.TypeError? then DateTypeError else Refused(DateFormatMessage)
        case Success(f) =>
          if !Before(s, f) then Refused(DateRangeMessage)
          else Created(Reservation(freshId, customerId, carId.text, s, f, true))
  }

  /** `criar_reserva`: the outcome and the dictionaries afterwards. */
  function Create(st: Registries, freshId: Id, customerId: Value, carId: Value, start: Value, end: Value): (CreateOutcome, Registries)
  {
    var outcome := CreateDecision(st.cars, freshId, customerId, carId, start, end);
    if outcome.Created? then
      var r := outcome.reservation;
      (outcome, Registries(SetAvailability(st.cars, r.carId, false).1, st.reservations[freshId := r]))
    else (outcome, st)
  }

  datatype CancelOutcome = Cancelled | NotCancelled(message: string)

  /** `cancelar_reserva`: the outcome and the dictionaries afterwards. */
  function Cancel(st: Registries, reservationId: Id): (CancelOutcome, Registries)
  {
    if reservationId in st.reservations && st.reservations[reservationId].active then
      var r := st.reservations[reservationId].(active := false);
      (Cancelled, Registries(SetAvailability(st.cars, r.carId, true).1, st.reservations[reservationId := r]))
    else if reservationId !in st.reservations then (NotCancelled(ReservationNotFoundMessage), st)
    else (NotCancelled(AlreadyCancelledMessage), st)
  }

  /** The comprehension of `listar_reservas_ativas_por_cliente`, over the keys in insertion order. */
  function ActiveAmong(ids: seq<Id>, reservations: map<Id, Reservation>, customerId: Value): (r: seq<Reservation>)
    requires forall id :: id in ids ==> id in reservations
    ensures forall x :: x in r ==> x.active && x.customerId == customerId && exists id :: id in ids && reservations[id] == x
    ensures forall id :: id in ids && reservations[id].active && reservations[id].customerId == customerId ==> reservations[id] in r
    ensures |r| <= |ids|
  {
    if ids == [] then []
    else
      var x := reservations[ids[0]];
      var rest := ActiveAmong(ids[1..], reservations, customerId);
      if x.customerId == customerId && x.active then [x] + rest else rest
  }

  // ------------------------------------------------- properties of create

  /** An unknown or unavailable car is refused before any date is looked at, and nothing changes. */
  lemma CreateChecksCarFirst(st: Registries, freshId: Id, customerId: Value, carId: Value, start: Value, end: Value)
    requires Lookup(st.cars, carId).None? || !Lookup(st.cars, carId).value.available
    ensures Create(st, freshId, customerId, carId, start, end) == (Refused(CarUnavailableMessage), st)
  {
  }

  /** With an available car, the dates decide: format errors first (start before end date), then the order. */
  lemma CreateDateChecks(st: Registries, freshId: Id, customerId: Value, carId: Value, start: Value, end: Value)
    requires Lookup(st.cars, carId).Some? && Lookup(st.cars, carId).value.available
    ensures var outcome := Create(st, freshId, customerId, carId, start, end).0;
      && (start.Int? ==> outcome == DateTypeError)
      && (start.Str? && ParseIsoDate(start.text).None? ==> outcome == Refused(DateFormatMessage))
      && (ParseDateArgument(start).Success? && end.Int? ==> outcome == DateTypeError)
      && (ParseDateArgument(start).Success? && end.Str? && ParseIsoDate(end.text).None? ==> outcome == Refused(DateFormatMessage))
      && (ParseDateArgument(start).Success? && ParseDateArgument(end).Success?
          ==> (outcome == Refused(DateRangeMessage) <==> !Before(ParseDateArgument(start).value, ParseDateArgument(end).value)))
  {
  }

  /** No failed creation changes either dictionary. */
  lemma CreateFailureChangesNothing(st: Registries, freshId: Id, customerId: Value, carId: Value, start: Value, end: Value)
    requires !Create(st, freshId, customerId, carId, start, end).0.Created?
    ensures Create(st, freshId, customerId, carId, start, end).1 == st
  {
  }

  /** Creation succeeds exactly for an available car and two parsable dates in order; it then
      stores one active reservation under the fresh id and turns exactly that car unavailable.
      The customer id is stored without being looked up. */
  lemma CreateSuccess(st: Registries, freshId: Id, customerId: Value, carId: Value, start: Value, end: Value)
    ensures var (outcome, st') := Create(st, freshId, customerId, carId, start, end);
      && (outcome.Created? <==>
            && Lookup(st.cars, carId).Some? && Lookup(st.cars, carId).value.available
            && ParseDateArgument(start).Success? && ParseDateArgument(end).Success?
            && Before(ParseDateArgument(start).value, ParseDateArgument(end).value))
      && (outcome.Created? ==>
            var r := outcome.reservation;
            && r == Reservation(freshId, customerId, carId.text, ParseDateArgument(start).value, ParseDateArgument(end).value, true)
            && st'.reservations == st.reservations[freshId := r]
            && st'.cars == st.cars[r.carId := st.cars[r.carId].(available := false)])
  {
  }

  // ------------------------------------------------- properties of cancel

  /** The three outcomes of cancelling. */
  lemma CancelOutcomes(st: Registries, reservationId: Id)
    ensures var (outcome, st') := Cancel(st, reservationId);
      && (reservationId !in st.reservations ==> outcome == NotCancelled(ReservationNotFoundMessage) && st' == st)
      && (reservationId in st.reservations && !st.reservations[reservationId].active
          ==> outcome == NotCancelled(AlreadyCancelledMessage) && st' == st)
      && (reservationId in st.reservations && st.reservations[reservationId].active ==>
            var r := st.reservations[reservationId];
            && outcome == Cancelled
            && st'.reservations == st.reservations[reservationId := r.(active := false)]
            && st'.cars == SetAvailability(st.cars, r.carId, true).1)
  {
  }

  /** A second cancellation of the same id always fails as already cancelled and changes nothing. */
  lemma CancelTwiceFails(st: Registries, reservationId: Id)
    requires Cancel(st, reservationId).0 == Cancelled
    ensures var st' := Cancel(st, reservationId).1;
      Cancel(st', reservationId) == (NotCancelled(AlreadyCancelledMessage), st')
  {
  }

  // ---------------------------------------------- the availability invariant

  ghost predicate HasActiveReservation(reservations: map<Id, Reservation>, carId: Id) {
    exists rid :: rid in reservations && reservations[rid].active && reservations[rid].carId == carId
  }

  /** Each active reservation names a stored car. */
  ghost predicate ActiveReservationsNameCars(st: Registries) {
    forall rid :: rid in st.reservations && st.reservations[rid].active ==> st.reservations[rid].carId in st.cars
  }

  /** No car has two active reservations. */
  ghost predicate AtMostOneActivePerCar(reservations: map<Id, Reservation>) {
    forall r1, r2 ::
      (&& r1 in reservations && r2 in reservations
       && reservations[r1].active && reservations[r2].active
       && reservations[r1].carId == reservations[r2].carId) ==> r1 == r2
  }

  /** `disponivel` holds exactly when the car has no active reservation. */
  ghost predicate AvailabilityMatches(st: Registries) {
    forall id :: id in st.cars ==> (st.cars[id].available <==> !HasActiveReservation(st.reservations, id))
  }

  /** Records sit under their own ids, every reservation's start precedes its end, every active
      reservation names a stored car, no car has two active reservations, and a car is available
      exactly when it has none. */
  ghost predicate Consistent(st: Registries) {
    && (forall id :: id in st.cars ==> st.cars[id].id == id)
    && (forall rid :: rid in st.reservations ==>
          st.reservations[rid].id == rid && Before(st.reservations[rid].start, st.reservations[rid].end))
    && ActiveReservationsNameCars(st)
    && AtMostOneActivePerCar(st.reservations)
    && AvailabilityMatches(st)
  }

  lemma EmptyIsConsistent()
    ensures Consistent(Empty)
  {
  }

  lemma AddCarPreservesConsistency(st: Registries, id: Id, make: Value, model: Value, year: Value, plate: Value)
    requires Consistent(st) && id !in st.cars
    ensures Consistent(Registries(WithCar(st.cars, NewCar(id, make, model, year, plate)), st.reservations))
  {
  }

  /** Storing a new active reservation for an available car and clearing that car's flag keeps
      the registries consistent. */
  lemma BookPreservesConsistency(st: Registries, r: Reservation)
    requires Consistent(st)
    requires r.id !in st.reservations && r.active && Before(r.start, r.end)
    requires r.carId in st.cars && st.cars[r.carId].available
    ensures Consistent(Registries(st.cars[r.carId := st.cars[r.carId].(available := false)], st.reservations[r.id := r]))
  {
    var c := r.carId;
    var st' := Registries(st.cars[c := st.cars[c].(available := false)], st.reservations[r.id := r]);
    assert !HasActiveReservation(st.reservations, c);
    assert st'.reservations[r.id] == r;
    assert AtMostOneActivePerCar(st'.reservations) by {
      forall r1, r2 | && r1 in st'.reservations && r2 in st'.reservations
                      && st'.reservations[r1].active && st'.reservations[r2].active
                      && st'.reservations[r1].carId == st'.reservations[r2].carId
        ensures r1 == r2
      {
        if r1 != r.id && r2 != r.id {
          assert st.reservations[r1] == st'.reservations[r1] && st.reservations[r2] == st'.reservations[r2];
        }
      }
    }
    assert AvailabilityMatches(st') by {
      forall k | k in st'.cars && k != c
        ensures HasActiveReservation(st'.reservations, k) <==> HasActiveReservation(st.reservations, k)
      {
        if HasActiveReservation(st'.reservations, k) {
          var rid :| rid in st'.reservations && st'.reservations[rid].active && st'.reservations[rid].carId == k;
          assert rid != r.id && rid in st.reservations;
        }
        if HasActiveReservation(st.reservations, k) {
          var rid :| rid in st.reservations && st.reservations[rid].active && st.reservations[rid].carId == k;
          assert st'.reservations[rid] == st.reservations[rid];
        }
      }
    }
  }

  lemma CreatePreservesConsistency(st: Registries, freshId: Id, customerId: Value, carId: Value, start: Value, end: Value)
    requires Consistent(st) && freshId !in st.reservations
    ensures Consistent(Create(st, freshId, customerId, carId, start, end).1)
  {
    var outcome := Create(st, freshId, customerId, carId, start, end).0;
    CreateSuccess(st, freshId, customerId, carId, start, end);
    if outcome.Created? {
      BookPreservesConsistency(st, outcome.reservation);
    }
  }

  lemma CancelPreservesConsistency(st: Registries, reservationId: Id)
    requires Consistent(st)
    ensures Consistent(Cancel(st, reservationId).1)
  {
    var (outcome, st') := Cancel(st, reservationId);
    if outcome == Cancelled {
      var r := st.reservations[reservationId];
      var c := r.carId;
      assert c in st.cars;
      forall rid | rid in st'.reservations && st'.reservations[rid].carId == c
        ensures !st'.reservations[rid].active
      {
        if rid != reservationId {
          assert st'.reservations[rid] == st.reservations[rid];
        }
      }
      assert !HasActiveReservation(st'.reservations, c);
      forall k | k in st'.cars && k != c
        ensures HasActiveReservation(st'.reservations, k) <==> HasActiveReservation(st.reservations, k)
      {
        if HasActiveReservation(st'.reservations, k) {
          var rid :| rid in st'.reservations && st'.reservations[rid].active && st'.reservations[rid].carId == k;
          assert rid != reservationId;
        }
        if HasActiveReservation(st.reservations, k) {
          var rid :| rid in st.reservations && st.reservations[rid].active && st.reservations[rid].carId == k;
          assert rid != reservationId && st'.reservations[rid] == st.reservations[rid];
        }
      }
    }
  }

  /** A car that already has an active reservation is refused, and neither dictionary changes. */
  lemma NoDoubleBooking(st: Registries, reserved: Id, freshId: Id, customerId: Value, start: Value, end: Value)
    requires Consistent(st)
    requires reserved in st.reservations && st.reservations[reserved].active
    ensures var carId := Str(st.reservations[reserved].carId);
      Create(st, freshId, customerId, carId, start, end) == (Refused(CarUnavailableMessage), st)
  {
    var c := st.reservations[reserved].carId;
    assert HasActiveReservation(st.reservations, c);
    CreateChecksCarFirst(st, freshId, customerId, Str(c), start, end);
  }

  // ------------------------------------------------------------- runs

  /** The calls a client makes; each carries the id its `uuid4()` would produce. */
  datatype Command =
    | AddCarCommand(id: Id, make: Value, model: Value, year: Value, plate: Value)
    | CreateCommand(freshId: Id, customerId: Value, carId: Value, start: Value, end: Value)
    | CancelCommand(reservationId: Id)

  function Apply(st: Registries, cmd: Command): Registries {
    match cmd
    case AddCarCommand(id, make, model, year, plate) =>
      Registries(WithCar(st.cars, NewCar(id, make, model, year, plate)), st.reservations)
    case CreateCommand(freshId, customerId, carId, start, end) =>
      Create(st, freshId, customerId, carId, start, end).1
    case CancelCommand(reservationId) =>
      Cancel(st, reservationId).1
  }

  function Run(st: Registries, cmds: seq<Command>): Registries
    decreases |cmds|
  {
    if cmds == [] then st else Run(Apply(st, cmds[0]), cmds[1..])
  }

  /** The generated id of a command is not already a key of the dictionary it goes into. */
  predicate FreshFor(st: Registries, cmd: Command) {
    match cmd
    case AddCarCommand(id, _, _, _, _) => id !in st.cars
    case CreateCommand(freshId, _, _, _, _) => freshId !in st.reservations
    case CancelCommand(_) => true
  }

  predicate FreshRun(st: Registries, cmds: seq<Command>)
    decreases |cmds|
  {
    cmds == [] || (FreshFor(st, cmds[0]) && FreshRun(Apply(st, cmds[0]), cmds[1..]))
  }

  lemma ApplyPreservesConsistency(st: Registries, cmd: Command)
    requires Consistent(st) && FreshFor(st, cmd)
    ensures Consistent(Apply(st, cmd))
  {
    match cmd
    case AddCarCommand(id, make, model, year, plate) =>
      AddCarPreservesConsistency(st, id, make, model, year, plate);
    case CreateCommand(freshId, customerId, carId, start, end) =>
      CreatePreservesConsistency(st, freshId, customerId, carId, start, end);
    case CancelCommand(reservationId) =>
      CancelPreservesConsistency(st, reservationId);
  }

  lemma {:induction false} RunPreservesConsistency(st: Registries, cmds: seq<Command>)
    requires Consistent(st) && FreshRun(st, cmds)
    ensures Consistent(Run(st, cmds))
    decreases |cmds|
  {
    if cmds != [] {
      ApplyPreservesConsistency(st, cmds[0]);
      RunPreservesConsistency(Apply(st, cmds[0]), cmds[1..]);
    }
  }

  /** From empty registries, every run with fresh ids keeps each car's availability in step
      with its (at most one) active reservation. */
  lemma ReachableStatesAreConsistent(cmds: seq<Command>)
    requires FreshRun(Empty, cmds)
    ensures Consistent(Run(Empty, cmds))
  {
    EmptyIsConsistent();
    RunPreservesConsistency(Empty, cmds);
  }

  /** A stored reservation stays stored with the same fields; only `ativa` may change, and only
      from true to false. */
  ghost predicate Persists(before: Reservation, after: Reservation) {
    && after == before.(active := after.active)
    && (!before.active ==> !after.active)
  }

  lemma ApplyNeverReactivates(st: Registries, cmd: Command, rid: Id)
    requires FreshFor(st, cmd) && rid in st.reservations
    ensures rid in Apply(st, cmd).reservations
    ensures Persists(st.reservations[rid], Apply(st, cmd).reservations[rid])
  {
  }

  lemma {:induction false} RunNeverReactivates(st: Registries, cmds: seq<Command>, rid: Id)
    requires FreshRun(st, cmds) && rid in st.reservations
    ensures rid in Run(st, cmds).reservations
    ensures Persists(st.reservations[rid], Run(st, cmds).reservations[rid])
    decreases |cmds|
  {
    if cmds != [] {
      var next := Apply(st, cmds[0]);
      ApplyNeverReactivates(st, cmds[0], rid);
      RunNeverReactivates(next, cmds[1..], rid);
    }
  }

  // ------------------------------------------------------------- a session

  /** A car is added and reserved for two dates in order, given as `YYYY-MM-DD` text; a second
      booking of it is then refused with nothing changed; the reservation is cancelled, which
      frees the car, and a second cancellation fails as already cancelled. */
  lemma BookingSession(carId: Id, reservationId: Id, otherId: Id, customerId: Value, otherCustomerId: Value,
                       start: CalendarDate, end: CalendarDate, otherStart: Value, otherEnd: Value)
    requires Before(start, end)
    ensures var st1 := Apply(Empty, AddCarCommand(carId, Str("VW"), Str("Gol"), Int(2022), Str("ABC-1234")));
      var (created, st2) := Create(st1, reservationId, customerId, Str(carId), Str(IsoFormat(start)), Str(IsoFormat(end)));
      var (cancelled, st3) := Cancel(st2, reservationId);
      && st1.cars[carId].available
      && created == Created(Reservation(reservationId, customerId, carId, start, end, true))
      && !st2.cars[carId].available
      && Create(st2, otherId, otherCustomerId, Str(carId), otherStart, otherEnd) == (Refused(CarUnavailableMessage), st2)
      && cancelled == Cancelled
      && st3.cars[carId].available && !st3.reservations[reservationId].active
      && Cancel(st3, reservationId) == (NotCancelled(AlreadyCancelledMessage), st3)
  {
    ParseIsoFormat(start);
    ParseIsoFormat(end);
    var st1 := Apply(Empty, AddCarCommand(carId, Str("VW"), Str("Gol"), Int(2022), Str("ABC-1234")));
    CreateSuccess(st1, reservationId, customerId, Str(carId), Str(IsoFormat(start)), Str(IsoFormat(end)));
    var st2 := Create(st1, reservationId, customerId, Str(carId), Str(IsoFormat(start)), Str(IsoFormat(end))).1;
    CreateChecksCarFirst(st2, otherId, otherCustomerId, Str(carId), otherStart, otherEnd);
    CancelOutcomes(st2, reservationId);
    CancelTwiceFails(st2, reservationId);
  }
}
