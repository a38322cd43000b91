/** `ServicoCarros`: owns the cars and their availability flags. */
module CarRegistry {
  import opened Wrappers
  import opened Records
  import opened Gateway
  import opened Rental

  class CarService {
    /** `self.carros`. */
    var cars: map<Id, Car>
    /** The insertion order of `self.carros`. */
    var order: seq<Id>
    /** Where `salvar_no_cosmos_db` calls are recorded. */
    const log: EventLog

    ghost predicate Valid()
      reads this
    {
      && KeysInOrder(order, cars)
      && (forall id :: id in cars ==> cars[id].id == id)
    }

    constructor (log: EventLog)
      ensures Valid()
      ensures cars == map[] && order == [] && this.log == log
    {
      cars := map[];
      order := [];
      this.log := log;
    }

    /** `adicionar_carro`; `id` is the value of `str(uuid.uuid4())`. */
    method AddCar(id: Id, make: Value, model: Value, year: Value, plate: Value) returns (car: Car)
      requires Valid() && id !in cars
      modifies this, log
      ensures Valid()
      ensures car == NewCar(id, make, model, year, plate)
      ensures cars == WithCar(old(cars), car) && order == old(order) + [id]
      ensures log.events == old(log.events) + [Saved(Carros, CarRecord(car))]
    {
      car := NewCar(id, make, model, year, plate);
      KeysInOrderInsert(order, cars, id, car);
      cars := cars[id := car];
      order := order + [id];
      log.Save(Carros, CarRecord(car));
    }

    /** `listar_carros_disponiveis`: every stored car whose flag is set, once each, in insertion order. */
    function AvailableCars(): (r: seq<Car>)
      reads this
      requires Valid()
      ensures forall c :: c in r <==> c in cars.Values && c.available
      ensures forall i, j :: 0 <= i < j < |r| ==> r[i].id != r[j].id
    {
      AvailableAmongDistinct(order, cars);
      AvailableAmong(order, cars)
    }

    /** `obter_carro`. */
    function GetCar(carId: Value): (r: Option<Car>)
      reads this
      requires Valid()
      ensures r.Some? ==> carId == Str(r.value.id) && r.value in cars.Values
      ensures r.None? ==> forall c :: c in cars.Values ==> carId != Str(c.id)
    {
      Lookup(cars, carId)
    }

    /** `marcar_carro_como_indisponivel`. */
    method MarkUnavailable(id: Id) returns (found: bool)
      requires Valid()
      modifies this, log
      ensures Valid()
      ensures (found, cars) == SetAvailability(old(cars), id, false) && order == old(order)
      ensures log.events == old(log.events) + (if found then [Saved(Carros, CarRecord(cars[id]))] else [])
    {
      found := id in cars;
      if found {
        cars := cars[id := cars[id].(available := false)];
        log.Save(Carros, CarRecord(cars[id]));
      }
    }

    /** `marcar_carro_como_disponivel`. */
    method MarkAvailable(id: Id) returns (found: bool)
      requires Valid()
      modifies this, log
      ensures Valid()
      ensures (found, cars) == SetAvailability(old(cars), id, true) && order == old(order)
      ensures log.events == old(log.events) + (if found then [Saved(Carros, CarRecord(cars[id]))] else [])
    {
      found := id in cars;
      if found {
        cars := cars[id := cars[id].(available := true)];
        log.Save(Carros, CarRecord(cars[id]));
      }
    }
  }

  /** Distinct keys give cars with distinct ids in the filtered list. */
  lemma {:induction false} AvailableAmongDistinct(ids: seq<Id>, cars: map<Id, Car>)
    requires forall id :: id in ids ==> id in cars && cars[id].id == id
    requires forall i, j :: 0 <= i < j < |ids| ==> ids[i] != ids[j]
    ensures forall c :: c in AvailableAmong(ids, cars) ==> c.id in ids
    ensures forall i, j :: 0 <= i < j < |AvailableAmong(ids, cars)| ==> AvailableAmong(ids, cars)[i].id != AvailableAmong(ids, cars)[j].id
  {
    if ids != [] {
      var rest := AvailableAmong(ids[1..], cars);
      AvailableAmongDistinct(ids[1..], cars);
      assert ids[0] !in ids[1..];
      if cars[ids[0]].available {
        var r := [cars[ids[0]]] + rest;
        assert ids[0] in ids;
        forall i, j | 0 <= i < j < |r| ensures r[i].id != r[j].id {
          assert r[j] == rest[j - 1] && rest[j - 1] in rest;
          if i > 0 {
            assert r[i] == rest[i - 1];
          }
        }
      }
    }
  }
}
