/** `ServicoClientes`: a plain store of customers. */
module CustomerRegistry {
  import opened Wrappers
  import opened Records
  import opened Gateway

  class CustomerService {
    /** `self.clientes`. */
    var customers: map<Id, Customer>
    const log: EventLog

    ghost predicate Valid()
      reads this
    {
      forall id :: id in customers ==> customers[id].id == id
    }

    constructor (log: EventLog)
      ensures Valid()
      ensures customers == map[] && this.log == log
    {
      customers := map[];
      this.log := log;
    }

    /** `adicionar_cliente`; `id` is the value of `str(uuid.uuid4())`. */
    method AddCustomer(id: Id, name: Value, email: Value, phone: Value) returns (customer: Customer)
      requires Valid() && id !in customers
      modifies this, log
      ensures Valid()
      ensures customer == Customer(id, name, email, phone)
      ensures customers == old(customers)[id := customer]
      ensures log.events == old(log.events) + [Saved(Clientes, CustomerRecord(customer))]
    {
      customer := Customer(id, name, email, phone);
      customers := customers[id := customer];
      log.Save(Clientes, CustomerRecord(customer));
    }

    /** `obter_cliente`. */
    function GetCustomer(customerId: Value): (r: Option<Customer>)
      reads this
      requires Valid()
      ensures r.Some? ==> customerId == Str(r.value.id) && r.value in customers.Values
      ensures r.None? ==> forall c :: c in customers.Values ==> customerId != Str(c.id)
    {
      Lookup(customers, customerId)
    }
  }
}
