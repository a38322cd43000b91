# Car rental reservations, modelled in Dafny

This project models the core of `main.py`, a small car-rental back end:

- three in-memory services, each keeping a dictionary keyed by a generated id:
  - `ServicoCarros` keeps cars and their `disponivel` flag;
  - `ServicoClientes` keeps customers;
  - `ServicoReservas` keeps reservations and flips car availability as reservations are created and cancelled;
- the `api_*` functions, which turn service results into a response body and an HTTP status code.

The project is organised as follows:

- `wrappers.dfy` holds `Option` and `Result`.
- `dates.dfy` holds calendar dates and their order. It also holds `date.isoformat()` and the `YYYY-MM-DD` case of `datetime.fromisoformat(...).date()`, with round trips proved in both directions.
- `records.dfy` holds `Carro`, `Cliente` and `Reserva` as datatypes, with `to_dict` and a decoder as its inverse.
- `gateway.dfy` stands in for the Azure stubs `salvar_no_cosmos_db` and `enviar_mensagem_service_bus`. It is a ghost, append-only event log shared by the services.
- `rental.dfy` is the reservation state machine on values:
  - one function per operation (add a car, set availability, create, cancel, the two list comprehensions);
  - the validation order of `criar_reserva`;
  - the global invariant. Each active reservation names a stored car, no car has two active reservations, and `disponivel` is false exactly when one exists. It is proved for every run of add, create and cancel calls from empty registries.
- `car_service.dfy`, `customer_service.dfy` and `reservation_service.dfy` model the three services as classes. Their fields are the dictionaries. The car and reservation methods are proved to change those fields exactly as the functions in `rental.dfy` say. `AddCustomer` states its new dictionary directly, as one map update, since no other operation touches customers. Every method is proved to log exactly the saves and messages the Python code sends, in order.
- `api.dfy` models the `api_*` functions:
  - each of the four endpoints that add, create or cancel has a pure mapping from inputs to `(body, status)` with a status-code lemma, plus a method that calls the service and is proved equal to that mapping;
  - the two list endpoints change nothing, so they are functions that read the service. Their contracts state status 200, the `status` tag and exactly which records' dictionaries are listed.

Modelling choices:

- `uuid.uuid4()` is a fresh id given as a parameter. The caller guarantees it is not yet a key.
- A request body is a map from keys to `Value`, which is a string or an integer. A missing key is the `KeyError` the API handlers catch.
- `fromisoformat` applied to an integer raises `TypeError`. Neither `except ValueError` in `criar_reserva` nor `except KeyError` in `api_criar_reserva` catches it, so the model carries it as `DateTypeError`, and as `UncaughtTypeError` at the API.
- Python dictionaries keep insertion order. `CarService` and `ReservationService`, whose dictionaries are listed, keep the order of their keys, and the listing functions return records in that order. `CustomerService` is never listed, so it keeps no order.

## Model

| member | source | states |
|---|---|---|
| Dates.BeforeIsStrictTotalOrder | main.py:184 | the date comparison used by `data_inicio >= data_fim` is irreflexive, transitive and total |
| Dates.IsoFormat | main.py:100-101 | `isoformat()` yields ten characters with dashes at positions 4 and 7 |
| Dates.ParseIsoFormat | main.py:182-183 | parsing the ISO text of any date gives that date back |
| Dates.IsoFormatOfParse | main.py:182-183 | every string the parser accepts is the ISO text of the date it yields |
| Dates.ParseIsoDate | main.py:182-183 | `datetime.fromisoformat(s).date()` on `YYYY-MM-DD` text; `None` where Python raises `ValueError`. Its behaviour is stated by Dates.ParseIsoFormat and Dates.IsoFormatOfParse |
| Records.CarDictRoundTrip | main.py:53-61 | `Carro.to_dict` loses nothing: the decoder recovers the car |
| Records.CustomerDictRoundTrip | main.py:74-80 | `Cliente.to_dict` loses nothing: the decoder recovers the customer |
| Records.ReservationDictRoundTrip | main.py:95-103 | `Reserva.to_dict`, dates as ISO text, loses nothing: the decoder recovers the reservation |
| Records.CarToDict | main.py:53-61 | `Carro.to_dict` with its six keys; Records.CarDictRoundTrip states that it loses nothing |
| Records.CustomerToDict | main.py:74-80 | `Cliente.to_dict` with its four keys; Records.CustomerDictRoundTrip states that it loses nothing |
| Records.ReservationToDict | main.py:95-103 | `Reserva.to_dict`, dates as `isoformat()` text; Records.ReservationDictRoundTrip states that it loses nothing |
| Records.Lookup | main.py:131-133 | `dict.get` on an id-keyed dictionary, shared by `obter_carro` and `obter_cliente`; stated by Rental.LookupAfterAddCar, CarRegistry.CarService.GetCar and CustomerRegistry.CustomerService.GetCustomer |
| Gateway.EventLog.Save | main.py:22-28 | `salvar_no_cosmos_db` appends one saved-record event and changes nothing else |
| Gateway.EventLog.Send | main.py:14-20 | `enviar_mensagem_service_bus` appends one sent-message event and changes nothing else |
| Rental.LookupAfterAddCar | main.py:120-126 | a car added under a fresh id is found under it with `disponivel = True`; every other lookup is unchanged; one more car is stored |
| Rental.WithCar | main.py:123 | `self.carros[carro_id] = carro`; stated by Rental.LookupAfterAddCar and Rental.AddCarPreservesConsistency |
| Rental.NewCar | main.py:122 | `Carro(carro_id, marca, modelo, ano, placa)` with the default `disponivel=True` of main.py:42; stated by Rental.LookupAfterAddCar and CarRegistry.CarService.AddCar |
| Rental.SetAvailabilityEffect | main.py:135-151 | marking a car reports success exactly when the id is stored; the car gets the flag; no other car changes and the keys stay the same |
| Rental.SetAvailabilityIdempotent | main.py:135-151 | marking a car twice with the same flag gives the same result and state as marking it once |
| Rental.SetAvailability | main.py:135-151 | both `marcar_carro_como_*` methods on the dictionary; stated by Rental.SetAvailabilityEffect and Rental.SetAvailabilityIdempotent |
| Rental.AvailableAmong | main.py:129 | the filtered list holds exactly the listed cars whose flag is set, and is no longer than the key list |
| Rental.ActiveAmong | main.py:216 | the filtered list holds exactly the listed reservations of the customer that are active |
| Rental.CreateDecision | main.py:176-190 | the checks of `criar_reserva` in their order and the reservation it builds; stated by Rental.CreateChecksCarFirst, Rental.CreateDateChecks and Rental.CreateSuccess |
| Rental.ParseDateArgument | main.py:182-183 | `datetime.datetime.fromisoformat(v).date()` on a request value: `ValueError` for text that does not parse, `TypeError` for a number; stated by Rental.CreateDateChecks and Rental.CreateSuccess |
| Rental.Create | main.py:176-197 | `criar_reserva`'s outcome and both dictionaries afterwards; stated by Rental.CreateChecksCarFirst, Rental.CreateDateChecks, Rental.CreateFailureChangesNothing, Rental.CreateSuccess and Rental.CreatePreservesConsistency |
| Rental.Cancel | main.py:199-212 | `cancelar_reserva`'s outcome and both dictionaries afterwards; stated by Rental.CancelOutcomes, Rental.CancelTwiceFails and Rental.CancelPreservesConsistency |
| Rental.CreateChecksCarFirst | main.py:177-179 | an unknown or unavailable car is refused with the car message whatever the dates are, and nothing changes |
| Rental.CreateDateChecks | main.py:181-187 | with an available car, the start date is checked before the end date: unparsable text gives the format message, a number escapes as `TypeError`, and the range message comes exactly when start is not before end |
| Rental.CreateFailureChangesNothing | main.py:177-187 | no refused or failed creation changes either dictionary |
| Rental.CreateSuccess | main.py:189-197 | creation succeeds exactly for an available car and two parsable dates in order. It then stores one active reservation under the fresh id with the given customer (not looked up), car and dates, and clears that car's flag only |
| Rental.CancelOutcomes | main.py:199-212 | an active reservation is deactivated and its car freed; an unknown id gives "not found" and an inactive one "already cancelled", both with no change |
| Rental.CancelTwiceFails | main.py:199-212 | after a successful cancellation, cancelling the same id again fails as already cancelled and changes nothing |
| Rental.EmptyIsConsistent | main.py:107-174 | empty registries, as the constructors of `ServicoCarros` (lines 108-110) and `ServicoReservas` (lines 171-174) leave them, satisfy the availability invariant |
| Rental.AddCarPreservesConsistency | main.py:120-126 | adding a car under a fresh id keeps the invariant |
| Rental.BookPreservesConsistency | main.py:190-192 | storing an active reservation for an available car and clearing its flag keeps the invariant |
| Rental.CreatePreservesConsistency | main.py:176-197 | every outcome of `criar_reserva` keeps the invariant |
| Rental.CancelPreservesConsistency | main.py:199-212 | every outcome of `cancelar_reserva` keeps the invariant |
| Rental.NoDoubleBooking | main.py:177-179 | in a consistent state, a car that has an active reservation cannot be booked again; nothing changes |
| Rental.ApplyPreservesConsistency | main.py:120-212 | one add, create or cancel call with a fresh id keeps the invariant |
| Rental.RunPreservesConsistency | main.py:120-212 | any sequence of add, create and cancel calls with fresh ids keeps the invariant |
| Rental.ReachableStatesAreConsistent | main.py:120-212 | from empty registries, every reachable state has at most one active reservation per car, each naming a stored car, and `disponivel` false exactly when one exists |
| Rental.ApplyNeverReactivates | main.py:190-202 | one call keeps every stored reservation stored with the same fields, and never sets `ativa` back to true |
| Rental.RunNeverReactivates | main.py:190-202 | along any run, a stored reservation keeps its fields and `ativa` never returns to true |
| Rental.BookingSession | main.py:120-212 | this session runs as stated: add a car; book it for two ordered ISO dates; a second booking is refused with no change; cancel, which frees the car; a repeat cancel fails as already cancelled |
| CarRegistry.CarService.constructor | main.py:108-110 | a car service starts with no cars |
| CarRegistry.CarService.AddCar | main.py:120-126 | stores the new available car under the fresh id, appends the id to the key order, returns the car and saves it to `carros`; other cars are unchanged |
| CarRegistry.CarService.AvailableCars | main.py:128-129 | returns exactly the stored cars whose flag is set, each once |
| CarRegistry.CarService.GetCar | main.py:131-133 | a found car is stored under the given id; nothing is found when no stored car has that id |
| CarRegistry.CarService.MarkUnavailable | main.py:135-142 | result and new cars are those of setting the flag to false; the updated car is saved only when found |
| CarRegistry.CarService.MarkAvailable | main.py:144-151 | result and new cars are those of setting the flag to true; the updated car is saved only when found |
| CustomerRegistry.CustomerService.constructor | main.py:154-156 | a customer service starts with no customers |
| CustomerRegistry.CustomerService.AddCustomer | main.py:158-164 | stores the new customer under the fresh id, returns it and saves it to `clientes`; other customers are unchanged |
| CustomerRegistry.CustomerService.GetCustomer | main.py:166-168 | a found customer is stored under the given id; nothing is found when no stored customer has that id |
| ReservationRegistry.ReservationService.constructor | main.py:171-174 | a reservation service starts with no reservations and shares the given car service |
| ReservationRegistry.ReservationService.CreateReservation | main.py:176-197 | outcome and both dictionaries are those of `Create`. The key order grows only on success. On success the car, the reservation and the `reservas-criadas` message are logged in the code's order; on failure nothing is logged |
| ReservationRegistry.ReservationService.Store | main.py:189-196 | stores the reservation, clears the car's flag, and logs the car save, the reservation save and the `reservas-criadas` message |
| ReservationRegistry.ReservationService.CancelReservation | main.py:199-212 | outcome and both dictionaries are those of `Cancel`. On success the freed car, the cancelled reservation and the `reservas-canceladas` notice are logged; on failure nothing is logged |
| ReservationRegistry.CreateEvents | main.py:192-196 | the car save, reservation save and `reservas-criadas` message of a successful creation, none on failure; stated by ReservationRegistry.ReservationService.CreateReservation and ReservationRegistry.ReservationService.Store |
| ReservationRegistry.CancelEvents | main.py:203-207 | the car save when the car is stored, then the reservation save and the `reservas-canceladas` notice of a successful cancellation, none on failure; stated by ReservationRegistry.ReservationService.CancelReservation |
| ReservationRegistry.ReservationService.ActiveReservationsOf | main.py:214-216 | returns exactly the stored reservations of the customer that are active, each once |
| Api.CarListResponse | main.py:228-229 | the body has status 200, `status` "success" and a `carros` list holding exactly the `to_dict` of the given cars, one per car and in their order |
| Api.ReservationListResponse | main.py:261-262 | the body has status 200, `status` "success" and a `reservas` list holding exactly the `to_dict` of the given reservations, one per reservation and in their order |
| Api.AddCarEndpoint | main.py:220-225 | `api_adicionar_carro` as a function of the car dictionary; Api.AddCarStatus states its codes, both bodies and when the dictionary changes |
| Api.AddCustomerEndpoint | main.py:231-236 | `api_adicionar_cliente` as a function of the customer dictionary; Api.AddCustomerStatus states its codes, both bodies and when the dictionary changes |
| Api.CreateReply | main.py:246-249 | maps `criar_reserva`'s result to 201 with the reservation's dictionary, 400 with the service's message, or the escaping `TypeError`; Api.CreateStatus states each body |
| Api.CreateEndpoint | main.py:238-251 | `api_criar_reserva` as a function of both dictionaries; Api.CreateStatus states its status codes, its bodies and when the state changes |
| Api.CancelReply | main.py:254-258 | maps `cancelar_reserva`'s result to 200 with the cancellation message or 404 with the service's error; Api.CancelStatus states each body |
| Api.AddCarStatus | main.py:220-225 | 201 exactly when all four keys are present, with `status` "success" and the stored car's dictionary under `carro`; otherwise 400 with `status` "error", "Dados incompletos para adicionar o carro." and nothing stored |
| Api.AddCustomerStatus | main.py:231-236 | 201 exactly when all three keys are present, with `status` "success" and the stored customer's dictionary under `cliente`; otherwise 400 with `status` "error", "Dados incompletos para adicionar o cliente." and nothing stored |
| Api.CreateStatus | main.py:238-251 | a missing key gives 400 with the incomplete-data message and no change. Otherwise: 201 with `status` "success" and the new reservation's dictionary under `reserva` exactly when the service creates; 400 with `status` "error" and the service's own message exactly when it refuses; an uncaught `TypeError` exactly for a numeric date. Only 201 changes state |
| Api.CancelStatus | main.py:253-258 | 200 with `status` "success" and "Reserva <id> cancelada." exactly when the reservation is stored and active; otherwise 404 with `status` "error" and "Reserva já está cancelada." for a stored reservation or "Reserva não encontrada." for an unknown id |
| Api.AddCarApi | main.py:220-225 | reply and cars are those of the pure mapping; the car is saved only on 201 |
| Api.ListAvailableCarsApi | main.py:227-229 | status 200 with `status` "success"; a car's dictionary is listed exactly when that car is stored and available; every item is such a dictionary, and no item appears twice |
| Api.AddCustomerApi | main.py:231-236 | reply and customers are those of the pure mapping; the customer is saved only on 201 |
| Api.CreateReservationApi | main.py:238-251 | result and both dictionaries are those of the pure mapping of `criar_reserva`; the reservation key order grows by the new id only on 201, and the car key order is unchanged |
| Api.CancelReservationApi | main.py:253-258 | reply and both dictionaries are those of `Cancel` mapped to 200/404; both key orders are unchanged |
| Api.ListReservationsApi | main.py:260-262 | status 200 with `status` "success"; a reservation's dictionary is listed exactly when it is stored, active and the customer's; every item is such a dictionary, and no item appears twice |

## Left out

- The Azure stubs `enviar_mensagem_service_bus` and `salvar_no_cosmos_db` only print. They are kept as appends to a ghost event log, with no I/O. `obter_do_cosmos_db` always returns `None` and is not modelled.
- `_carregar_carros_do_banco` is not modelled. Its constructor call is commented out in the source, and it depends on a foreign lookup.
- `uuid.uuid4()` is not modelled. Each fresh id is a parameter that is required not to be a key yet.
- Dates.ParseIsoDate accepts only the `YYYY-MM-DD` form, years 1 to 9999, with calendar validation. Python's `fromisoformat` also accepts a time part, the basic `YYYYMMDD` form and week dates. On those strings the model reports the format error where Python would go on.
- Request values are strings or integers only. `None`, floats, lists and objects are not modelled; numbers in a date field raise `TypeError` as in the source.
- Cars and reservations are values in maps, not shared objects. A `Carro` or `Reserva` returned to a caller and later mutated through the service is not modelled as an alias. The result holds the value at the time of the call.
- The `__repr__` methods are display only and are not modelled.
- The `__main__` demo from line 264 on is not modelled. It is a driver script, and its line 277 indexes a dictionary with `[0]`, which would raise.
- Concurrency and locking are not modelled. The source is single-threaded and synchronous.
- The availability invariant is proved over runs of add, create and cancel. It is not part of the classes' `Valid()`, because the public `marcar_carro_como_*` methods can break it in the source.
- Api.CreateReservationApi and Api.CancelReservationApi do not restate the log. The service methods they call state which events are logged.
