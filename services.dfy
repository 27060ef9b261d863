/**
 * The service routes: the listing joined with customer and agent names,
 * and the status update whose statement is built column by column.
 */
module Services {
  import opened Wrappers
  import opened Js
  import opened Sql
  import opened Schema
  import opened Db
  import opened Http

  // ---------------------------------------------------------------------
  // GET /

  /** `LEFT JOIN`: the joined column of the row whose id is `key`, or NULL when there is none. */
  function CustomerName(customers: seq<Row<Customer>>, key: Key): Field {
    var c := First(customers, IdIs(key));
    if c.Some? then c.value.val.businessName else None
  }

  function AgentName(agents: seq<Row<Agent>>, key: Key): Field {
    var a := First(agents, IdIs(key));
    if a.Some? then a.value.val.name else None
  }

  function ViewOf(s: Row<Service>, customers: seq<Row<Customer>>, agents: seq<Row<Agent>>): ServiceView {
    ServiceView(s, CustomerName(customers, s.val.customerId), AgentName(agents, s.val.agentId))
  }

  /** `SELECT s.*, c.business_name, a.name AS agent_name FROM services s LEFT JOIN customers c ... LEFT JOIN agents a ...`. */
  function ServiceViews(services: seq<Row<Service>>, customers: seq<Row<Customer>>, agents: seq<Row<Agent>>): seq<ServiceView> {
    Map(services, (s: Row<Service>) => ViewOf(s, customers, agents))
  }

  /**
   * The listing has one entry per service, in table order, whether or not
   * its customer or agent exists. An entry carries the business name of the
   * customer whose id the service references and the name of its agent;
   * when no such row exists the name is NULL.
   */
  lemma ServiceViewsSpec(services: seq<Row<Service>>, customers: seq<Row<Customer>>, agents: seq<Row<Agent>>)
    requires Ascending(customers) && Ascending(agents)
    ensures var views := ServiceViews(services, customers, agents);
      && |views| == |services|
      && (forall i :: 0 <= i < |services| ==> views[i].service == services[i])
      && (forall i, j :: 0 <= i < |services| && 0 <= j < |customers| && HasId(services[i].val.customerId, customers[j].id) ==>
            views[i].businessName == customers[j].val.businessName)
      && (forall i :: 0 <= i < |services| && (forall j :: 0 <= j < |customers| ==> !HasId(services[i].val.customerId, customers[j].id)) ==>
            views[i].businessName == None)
      && (forall i, j :: 0 <= i < |services| && 0 <= j < |agents| && HasId(services[i].val.agentId, agents[j].id) ==>
            views[i].agentName == agents[j].val.name)
      && (forall i :: 0 <= i < |services| && (forall j :: 0 <= j < |agents| ==> !HasId(services[i].val.agentId, agents[j].id)) ==>
            views[i].agentName == None)
  {
    var views := ServiceViews(services, customers, agents);
    forall i | 0 <= i < |services| ensures views[i] == ViewOf(services[i], customers, agents) {
    }
    forall i, j | 0 <= i < |services| && 0 <= j < |customers| && HasId(services[i].val.customerId, customers[j].id)
      ensures views[i].businessName == customers[j].val.businessName
    {
      FirstWithId(customers, services[i].val.customerId, j);
    }
    forall i, j | 0 <= i < |services| && 0 <= j < |agents| && HasId(services[i].val.agentId, agents[j].id)
      ensures views[i].agentName == agents[j].val.name
    {
      FirstWithId(agents, services[i].val.agentId, j);
    }
    forall i | 0 <= i < |services| && (forall j :: 0 <= j < |customers| ==> !HasId(services[i].val.customerId, customers[j].id))
      ensures views[i].businessName == None
    {
      assert forall j :: 0 <= j < |customers| ==> !IdIs(services[i].val.customerId)(customers[j]);
    }
    forall i | 0 <= i < |services| && (forall j :: 0 <= j < |agents| ==> !HasId(services[i].val.agentId, agents[j].id))
      ensures views[i].agentName == None
    {
      assert forall j :: 0 <= j < |agents| ==> !IdIs(services[i].val.agentId)(agents[j]);
    }
  }

  /** `GET /api/services`: every service with its joined names, or 500. */
  method ListServices(db: Database, read: DbOutcome) returns (resp: Response)
    requires db.Valid()
    ensures read.Fail? ==> resp == ErrorReply(500, "Error fetching services")
    ensures read.Ok? ==>
      && resp == Json(ServiceList(ServiceViews(db.services.rows, db.customers.rows, db.agents.rows)))
      && |resp.body.views| == |db.services.rows|
      && forall i :: 0 <= i < |db.services.rows| ==> resp.body.views[i].service == db.services.rows[i]
  {
    if read.Fail? {
      return ErrorReply(500, "Error fetching services");
    }
    var views := ServiceViews(db.services.rows, db.customers.rows, db.agents.rows);
    ServiceViewsSpec(db.services.rows, db.customers.rows, db.agents.rows);
    resp := Json(ServiceList(views));
  }

  // ---------------------------------------------------------------------
  // PUT /:id/status

  /** A column the status update may assign. */
  datatype Column = StatusColumn | AgentIdColumn

  function ColumnName(c: Column): string {
    match c
    case StatusColumn => "status"
    case AgentIdColumn => "agent_id"
  }

  /** The `col = ?` list of an UPDATE, in assignment order. */
  function Assignments(cols: seq<Column>): string
    decreases |cols|
  {
    if cols == [] then ""
    else if |cols| == 1 then ColumnName(cols[0]) + " = ?"
    else Assignments(cols[..|cols| - 1]) + ", " + ColumnName(cols[|cols| - 1]) + " = ?"
  }

  /** Binding one placeholder: the assigned column takes the parameter (agent_id with INTEGER affinity). */
  function Assign(s: Service, c: Column, v: Field): Service {
    match c
    case StatusColumn => s.(status := v)
    case AgentIdColumn => s.(agentId := Affinity(v))
  }

  function AssignAll(s: Service, cols: seq<Column>, vals: seq<Field>): Service
    requires |cols| == |vals|
    decreases |cols|
  {
    if cols == [] then s else AssignAll(Assign(s, cols[0], vals[0]), cols[1..], vals[1..])
  }

  /** What the built statement does to a row it matches: each column takes the parameter at its placeholder. */
  function Bound(cols: seq<Column>, params: seq<Field>): Service -> Service
    requires |params| == |cols| + 1
  {
    (s: Service) => AssignAll(s, cols, params[..|cols|])
  }

  /** The intended change: the status always, the agent only when one is given. */
  function StatusUpdate(status: Field, agentId: Field): Service -> Service {
    (s: Service) => s.(status := status, agentId := if Truthy(agentId) then Affinity(agentId) else s.agentId)
  }

  /** The `col = ?` lists of the two statements the handler can build. */
  lemma AssignmentTexts()
    ensures Assignments([StatusColumn]) == ColumnName(StatusColumn) + " = ?"
    ensures Assignments([StatusColumn, AgentIdColumn])
         == ColumnName(StatusColumn) + " = ?" + ", " + ColumnName(AgentIdColumn) + " = ?"
  {
    assert [StatusColumn, AgentIdColumn][..1] == [StatusColumn];
  }

  /** Binding the parameters of either statement performs the intended change. */
  lemma BoundIsStatusUpdate(status: Field, agentId: Field, serviceId: string, s: Service)
    ensures Bound([StatusColumn], [status, Some(serviceId)])(s) == s.(status := status)
    ensures Bound([StatusColumn, AgentIdColumn], [status, agentId, Some(serviceId)])(s)
         == s.(status := status, agentId := Affinity(agentId))
  {
    var s1 := Assign(s, StatusColumn, status);
    assert [status, Some(serviceId)][..1] == [status];
    assert AssignAll(s, [StatusColumn], [status]) == AssignAll(s1, [], []);
    assert [status, agentId, Some(serviceId)][..2] == [status, agentId];
    assert AssignAll(s, [StatusColumn, AgentIdColumn], [status, agentId]) == AssignAll(s1, [AgentIdColumn], [agentId]);
    assert AssignAll(s1, [AgentIdColumn], [agentId]) == AssignAll(Assign(s1, AgentIdColumn, agentId), [], []);
  }

  /**
   * `sql += ...; params.push(...)`: the statement and its parameters. There
   * is one parameter per placeholder, in placeholder order: one per
   * assigned column, then the service id. Status is always assigned and
   * agent_id exactly when `agentId` is truthy; binding the parameters
   * performs the intended change on a matching row.
   */
  method BuildStatusUpdate(status: Field, agentId: Field, serviceId: string)
    returns (sql: string, cols: seq<Column>, params: seq<Field>)
    ensures sql == "UPDATE services SET " + Assignments(cols) + " WHERE id = ?"
    ensures |params| == |cols| + 1 && params[|cols|] == Some(serviceId)
    ensures |cols| >= 1 && cols[0] == StatusColumn && params[0] == status
    ensures AgentIdColumn in cols <==> Truthy(agentId)
    ensures Truthy(agentId) ==> cols == [StatusColumn, AgentIdColumn] && params[1] == agentId
    ensures forall s :: Bound(cols, params)(s) == StatusUpdate(status, agentId)(s)
  {
    AssignmentTexts();
    sql := "UPDATE services SET " + ColumnName(StatusColumn) + " = ?";
    cols := [StatusColumn];
    params := [status];
    if Truthy(agentId) {
      sql := sql + ", " + ColumnName(AgentIdColumn) + " = ?";
      cols := cols + [AgentIdColumn];
      params := params + [agentId];
    }
    sql := sql + " WHERE id = ?";
    params := params + [Some(serviceId)];
    if Truthy(agentId) {
      assert cols == [StatusColumn, AgentIdColumn] && params == [status, agentId, Some(serviceId)];
    } else {
      assert cols == [StatusColumn] && params == [status, Some(serviceId)];
    }
    forall s ensures Bound(cols, params)(s) == StatusUpdate(status, agentId)(s) {
      BoundIsStatusUpdate(status, agentId, serviceId, s);
    }
  }

  /**
   * `PUT /api/services/:id/status`: only the service with that id changes,
   * its status always and its agent only when one is given; a failed
   * statement answers 500 with the database's message.
   */
  method UpdateServiceStatus(db: Database, serviceId: string, status: Field, agentId: Field, outcome: DbOutcome)
    returns (resp: Response)
    requires db.Valid()
    modifies db
    ensures db.Valid()
    ensures outcome.Fail? ==> resp == ErrorReply(500, outcome.message) && db.State() == old(db.State())
    ensures outcome.Ok? ==>
      && resp == Json(Message("Service updated"))
      && db.State() == old(db.State()).(services := UpdateWhere(old(db.services), Affinity(Some(serviceId)), StatusUpdate(status, agentId)))
  {
    var sql, cols, params := BuildStatusUpdate(status, agentId, serviceId);
    UpdateWhereExt(db.services, Affinity(params[|cols|]), Bound(cols, params), StatusUpdate(status, agentId));
    var r := db.UpdateServices(Affinity(params[|cols|]), Bound(cols, params), outcome);
    if r.Fail? {
      return ErrorReply(500, r.message);
    }
    resp := Json(Message("Service updated"));
  }

  /**
   * The status update changes only the service with that id; it sets the
   * status (to NULL when none is given) and leaves the agent as it was
   * unless one is given.
   */
  lemma StatusUpdateSpec(t: Table<Service>, serviceId: string, status: Field, agentId: Field)
    requires WellFormed(t)
    ensures var r := UpdateWhere(t, Affinity(Some(serviceId)), StatusUpdate(status, agentId));
      && WellFormed(r) && |r.rows| == |t.rows|
      && (forall i :: 0 <= i < |t.rows| && !HasId(Affinity(Some(serviceId)), t.rows[i].id) ==> r.rows[i] == t.rows[i])
      && (forall i :: 0 <= i < |t.rows| && HasId(Affinity(Some(serviceId)), t.rows[i].id) ==>
            && r.rows[i].id == t.rows[i].id
            && r.rows[i].val.status == status
            && r.rows[i].val.agentId == (if Truthy(agentId) then Affinity(agentId) else t.rows[i].val.agentId)
            && r.rows[i].val.(status := t.rows[i].val.status, agentId := t.rows[i].val.agentId) == t.rows[i].val)
  {
  }
}
