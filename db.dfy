/**
 * The database handle shared by all route handlers: one table per entity,
 * updated in place. Each primitive mirrors one `db.run` statement; its
 * `outcome` parameter is what the statement's callback receives (no error,
 * or the error message), since whether SQLite rejects a statement depends
 * on a schema that is not part of this model.
 */
module Db {
  import opened Wrappers
  import opened Sql
  import opened Schema

  /** A snapshot of every table. */
  datatype Tables = Tables(
    customers: Table<Customer>, agents: Table<Agent>, admins: Table<Admin>,
    visits: Table<Visit>, extinguishers: Table<Extinguisher>,
    services: Table<Service>, serviceItems: Table<ServiceItem>)

  predicate TablesValid(s: Tables) {
    && WellFormed(s.customers) && WellFormed(s.agents) && WellFormed(s.admins)
    && WellFormed(s.visits) && WellFormed(s.extinguishers)
    && WellFormed(s.services) && WellFormed(s.serviceItems)
  }

  class Database {
    var customers: Table<Customer>
    var agents: Table<Agent>
    var admins: Table<Admin>
    var visits: Table<Visit>
    var extinguishers: Table<Extinguisher>
    var services: Table<Service>
    var serviceItems: Table<ServiceItem>

    function State(): Tables
      reads this
    {
      Tables(customers, agents, admins, visits, extinguishers, services, serviceItems)
    }

    predicate Valid()
      reads this
    {
      TablesValid(State())
    }

    /** An empty database, except for the administrator accounts, which are created outside the handlers. */
    constructor (adminRows: Table<Admin>)
      requires WellFormed(adminRows)
      ensures Valid()
      ensures State() == Tables(EmptyTable(), EmptyTable(), adminRows, EmptyTable(), EmptyTable(), EmptyTable(), EmptyTable())
    {
      customers, agents, admins := EmptyTable(), EmptyTable(), adminRows;
      visits, extinguishers := EmptyTable(), EmptyTable();
      services, serviceItems := EmptyTable(), EmptyTable();
    }

    method InsertCustomer(c: Customer, outcome: DbOutcome) returns (r: Result<nat>)
      requires Valid()
      modifies this
      ensures Valid()
      ensures outcome.Ok? ==> r == Success(old(customers.nextId)) && State() == old(State()).(customers := Insert(old(customers), c))
      ensures outcome.Fail? ==> r == Failure(outcome.message) && State() == old(State())
    {
      if outcome.Ok? {
        r := Success(customers.nextId);
        customers := Insert(customers, c);
      } else {
        r := Failure(outcome.message);
      }
    }

    method InsertAgent(a: Agent, outcome: DbOutcome) returns (r: Result<nat>)
      requires Valid()
      modifies this
      ensures Valid()
      ensures outcome.Ok? ==> r == Success(old(agents.nextId)) && State() == old(State()).(agents := Insert(old(agents), a))
      ensures outcome.Fail? ==> r == Failure(outcome.message) && State() == old(State())
    {
      if outcome.Ok? {
        r := Success(agents.nextId);
        agents := Insert(agents, a);
      } else {
        r := Failure(outcome.message);
      }
    }

    method InsertVisit(v: Visit, outcome: DbOutcome) returns (r: Result<nat>)
      requires Valid()
      modifies this
      ensures Valid()
      ensures outcome.Ok? ==> r == Success(old(visits.nextId)) && State() == old(State()).(visits := Insert(old(visits), v))
      ensures outcome.Fail? ==> r == Failure(outcome.message) && State() == old(State())
    {
      if outcome.Ok? {
        r := Success(visits.nextId);
        visits := Insert(visits, v);
      } else {
        r := Failure(outcome.message);
      }
    }

    method InsertExtinguisher(e: Extinguisher, outcome: DbOutcome) returns (r: Result<nat>)
      requires Valid()
      modifies this
      ensures Valid()
      ensures outcome.Ok? ==> r == Success(old(extinguishers.nextId)) && State() == old(State()).(extinguishers := Insert(old(extinguishers), e))
      ensures outcome.Fail? ==> r == Failure(outcome.message) && State() == old(State())
    {
      if outcome.Ok? {
        r := Success(extinguishers.nextId);
        extinguishers := Insert(extinguishers, e);
      } else {
        r := Failure(outcome.message);
      }
    }

    method InsertService(s: Service, outcome: DbOutcome) returns (r: Result<nat>)
      requires Valid()
      modifies this
      ensures Valid()
      ensures outcome.Ok? ==> r == Success(old(services.nextId)) && State() == old(State()).(services := Insert(old(services), s))
      ensures outcome.Fail? ==> r == Failure(outcome.message) && State() == old(State())
    {
      if outcome.Ok? {
        r := Success(services.nextId);
        services := Insert(services, s);
      } else {
        r := Failure(outcome.message);
      }
    }

    method InsertServiceItem(item: ServiceItem, outcome: DbOutcome) returns (r: Result<nat>)
      requires Valid()
      modifies this
      ensures Valid()
      ensures outcome.Ok? ==> r == Success(old(serviceItems.nextId)) && State() == old(State()).(serviceItems := Insert(old(serviceItems), item))
      ensures outcome.Fail? ==> r == Failure(outcome.message) && State() == old(State())
    {
      if outcome.Ok? {
        r := Success(serviceItems.nextId);
        serviceItems := Insert(serviceItems, item);
      } else {
        r := Failure(outcome.message);
      }
    }

    method UpdateCustomers(key: Key, f: Customer -> Customer, outcome: DbOutcome) returns (r: DbOutcome)
      requires Valid()
      modifies this
      ensures Valid() && r == outcome
      ensures State() == old(State()).(customers := if outcome.Ok? then UpdateWhere(old(customers), key, f) else old(customers))
    {
      r := outcome;
      if outcome.Ok? {
        customers := UpdateWhere(customers, key, f);
      }
    }

    method UpdateAgents(key: Key, f: Agent -> Agent, outcome: DbOutcome) returns (r: DbOutcome)
      requires Valid()
      modifies this
      ensures Valid() && r == outcome
      ensures State() == old(State()).(agents := if outcome.Ok? then UpdateWhere(old(agents), key, f) else old(agents))
    {
      r := outcome;
      if outcome.Ok? {
        agents := UpdateWhere(agents, key, f);
      }
    }

    method UpdateServices(key: Key, f: Service -> Service, outcome: DbOutcome) returns (r: DbOutcome)
      requires Valid()
      modifies this
      ensures Valid() && r == outcome
      ensures State() == old(State()).(services := if outcome.Ok? then UpdateWhere(old(services), key, f) else old(services))
    {
      r := outcome;
      if outcome.Ok? {
        services := UpdateWhere(services, key, f);
      }
    }
  }
}
