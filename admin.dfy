/**
 * The administrator routes: the agent listing, approval and rejection, the
 * dashboard counts, the map data and the customer listing. Approval and
 * rejection update one agent in place; the rest only read.
 */
module Admin {
  import opened Wrappers
  import opened Js
  import opened Sql
  import opened Schema
  import opened Db
  import opened Http
  import Auth

  // ---------------------------------------------------------------------
  // GET /agents?status=

  function AgentCreatedAt(a: Row<Agent>): int {
    a.val.createdAt
  }

  predicate AgentStatusIs(status: string, a: Row<Agent>) {
    a.val.status == status
  }

  function StatusFilter(status: string): Row<Agent> -> bool {
    (a: Row<Agent>) => AgentStatusIs(status, a)
  }

  /** `WHERE status = ?` only when a status is given. */
  function FilteredAgents(rows: seq<Row<Agent>>, status: Field): seq<Row<Agent>> {
    if Truthy(status) then Where(rows, StatusFilter(status.value)) else rows
  }

  /** `SELECT ... ORDER BY created_at DESC`. */
  function ListedAgents(rows: seq<Row<Agent>>, status: Field): seq<Row<Agent>> {
    OrderByDesc(FilteredAgents(rows, status), AgentCreatedAt)
  }

  function AgentListingOf(a: Row<Agent>): AgentListing {
    AgentListing(a.id, a.val.name, a.val.email, a.val.phone, a.val.cnic, a.val.territory,
                 a.val.status, a.val.createdAt, a.val.profilePhoto, a.val.cnicDocument)
  }

  /**
   * With a status, the listing holds exactly the agents with that status;
   * without one, every agent. Either way each agent appears as often as in
   * the table and the newest come first.
   */
  lemma ListedAgentsSpec(rows: seq<Row<Agent>>, status: Field)
    ensures SortedDesc(ListedAgents(rows, status), AgentCreatedAt)
    ensures !Truthy(status) ==> multiset(ListedAgents(rows, status)) == multiset(rows)
    ensures Truthy(status) ==> forall a :: a in ListedAgents(rows, status) <==> a in rows && a.val.status == status.value
  {
    if Truthy(status) {
      var filtered := Where(rows, StatusFilter(status.value));
      WhereComplete(rows, StatusFilter(status.value));
      forall a ensures a in ListedAgents(rows, status) <==> a in filtered {
        assert a in ListedAgents(rows, status) <==> a in multiset(ListedAgents(rows, status));
        assert a in filtered <==> a in multiset(filtered);
      }
    }
  }

  /** `GET /api/admin/agents`: the listing projected to its columns (no password), or 500. */
  method ListAgents(db: Database, status: Field, read: DbOutcome) returns (resp: Response)
    requires db.Valid()
    ensures read.Fail? ==> resp == ErrorReply(500, "DB Error")
    ensures read.Ok? ==> resp == Json(AgentList(Map(ListedAgents(db.agents.rows, status), AgentListingOf)))
  {
    var rows := db.agents.rows;
    if Truthy(status) {
      rows := Where(rows, StatusFilter(status.value));
    }
    if read.Fail? {
      return ErrorReply(500, "DB Error");
    }
    resp := Json(AgentList(Map(OrderByDesc(rows, AgentCreatedAt), AgentListingOf)));
  }

  // ---------------------------------------------------------------------
  // PUT /agents/:id/approve and /agents/:id/reject

  function SetStatus(status: string): Agent -> Agent {
    (a: Agent) => a.(status := status)
  }

  /**
   * `UPDATE agents SET status = ? WHERE id = ?`: the agent with that id
   * gets the status and keeps every other column; no other agent changes
   * (at most one row does, since ids are unique),
   * and an id that names no agent changes nothing.
   */
  lemma SetStatusSpec(t: Table<Agent>, id: string, status: string)
    requires WellFormed(t)
    ensures var r := UpdateWhere(t, Affinity(Some(id)), SetStatus(status));
      && WellFormed(r) && |r.rows| == |t.rows|
      && (forall i :: 0 <= i < |t.rows| && !HasId(Affinity(Some(id)), t.rows[i].id) ==> r.rows[i] == t.rows[i])
      && (forall i :: 0 <= i < |t.rows| && HasId(Affinity(Some(id)), t.rows[i].id) ==>
            r.rows[i] == Row(t.rows[i].id, t.rows[i].val.(status := status)))
      && ((forall i :: 0 <= i < |t.rows| ==> !HasId(Affinity(Some(id)), t.rows[i].id)) ==> r == t)
      && (forall i, j :: 0 <= i < |t.rows| && 0 <= j < |t.rows| && r.rows[i] != t.rows[i] && r.rows[j] != t.rows[j] ==> i == j)
  {
    var r := UpdateWhere(t, Affinity(Some(id)), SetStatus(status));
    forall i, j | 0 <= i < |t.rows| && 0 <= j < |t.rows| && r.rows[i] != t.rows[i] && r.rows[j] != t.rows[j]
      ensures i == j
    {
      UpdateTouchesAtMostOne(t, Affinity(Some(id)), i, j);
    }
  }

  /** An agent that is approved can log in with its password; before that it cannot. */
  lemma ApprovalGatesLogin(t: Table<Agent>, id: string, i: nat, c: Auth.Credentials, matches: (string, string) -> bool)
    requires WellFormed(t) && i < |t.rows| && HasId(Affinity(Some(id)), t.rows[i].id)
    requires c.role == Some("agent") && c.password.Some? && matches(c.password.value, t.rows[i].val.password)
    ensures var approved := UpdateWhere(t, Affinity(Some(id)), SetStatus(ActiveStatus)).rows[i];
      Auth.LoginReply(c, Ok, Some(AgentUser(approved)), matches).status == 200
    ensures t.rows[i].val.status != ActiveStatus ==>
      Auth.LoginReply(c, Ok, Some(AgentUser(t.rows[i])), matches).status == 403
  {
    var approved := UpdateWhere(t, Affinity(Some(id)), SetStatus(ActiveStatus)).rows[i];
    assert approved.val == t.rows[i].val.(status := ActiveStatus);
  }

  /**
   * `PUT /agents/:id/approve`: the agent becomes Active. The reply is the
   * success message whenever the statement ran, even if no agent has that id.
   */
  method ApproveAgent(db: Database, id: string, outcome: DbOutcome) returns (resp: Response)
    requires db.Valid()
    modifies db
    ensures db.Valid()
    ensures outcome.Fail? ==> resp == ErrorReply(500, "DB update failed") && db.State() == old(db.State())
    ensures outcome.Ok? ==>
      && resp == Json(Message("Agent approved successfully"))
      && db.State() == old(db.State()).(agents := UpdateWhere(old(db.agents), Affinity(Some(id)), SetStatus(ActiveStatus)))
  {
    var r := db.UpdateAgents(Affinity(Some(id)), SetStatus(ActiveStatus), outcome);
    if r.Fail? {
      return ErrorReply(500, "DB update failed");
    }
    resp := Json(Message("Agent approved successfully"));
  }

  /** `PUT /agents/:id/reject`: the agent becomes Suspended, with the same reply rules as approval. */
  method RejectAgent(db: Database, id: string, outcome: DbOutcome) returns (resp: Response)
    requires db.Valid()
    modifies db
    ensures db.Valid()
    ensures outcome.Fail? ==> resp == ErrorReply(500, "DB update failed") && db.State() == old(db.State())
    ensures outcome.Ok? ==>
      && resp == Json(Message("Agent rejected"))
      && db.State() == old(db.State()).(agents := UpdateWhere(old(db.agents), Affinity(Some(id)), SetStatus(SuspendedStatus)))
  {
    var r := db.UpdateAgents(Affinity(Some(id)), SetStatus(SuspendedStatus), outcome);
    if r.Fail? {
      return ErrorReply(500, "DB update failed");
    }
    resp := Json(Message("Agent rejected"));
  }

  // ---------------------------------------------------------------------
  // GET /stats

  /** `row?.count || 0`: a failed count query reports 0. */
  function CountOrZero(read: DbOutcome, count: nat): (r: nat)
    ensures read.Ok? ==> r == count
    ensures read.Fail? ==> r == 0
  {
    if read.Ok? then count else 0
  }

  /** The four dashboard counts read in sequence; one outcome per query. */
  datatype StatsReads = StatsReads(agents: DbOutcome, pending: DbOutcome, customers: DbOutcome, services: DbOutcome)

  /**
   * `GET /api/admin/stats`: the number of agents, of Pending agents, of
   * customers and of services, each 0 when its query fails; the answer is
   * always 200. Pending agents never outnumber agents unless the agent
   * count itself failed.
   */
  method GetAdminStats(db: Database, counts: StatsReads) returns (resp: Response)
    requires db.Valid()
    ensures resp.status == 200 && resp.body.AdminStats?
    ensures resp.body.totalAgents == CountOrZero(counts.agents, |db.agents.rows|)
    ensures resp.body.pendingAgents == CountOrZero(counts.pending, |Where(db.agents.rows, StatusFilter(PendingStatus))|)
    ensures resp.body.totalCustomers == CountOrZero(counts.customers, |db.customers.rows|)
    ensures resp.body.totalServices == CountOrZero(counts.services, |db.services.rows|)
    ensures counts.agents.Ok? ==> resp.body.pendingAgents <= resp.body.totalAgents
  {
    var totalAgents := CountOrZero(counts.agents, |db.agents.rows|);
    var pendingAgents := CountOrZero(counts.pending, |Where(db.agents.rows, StatusFilter(PendingStatus))|);
    var totalCustomers := CountOrZero(counts.customers, |db.customers.rows|);
    var totalServices := CountOrZero(counts.services, |db.services.rows|);
    resp := Json(AdminStats(totalAgents, pendingAgents, totalCustomers, totalServices));
  }

  // ---------------------------------------------------------------------
  // GET /map-data

  function MapAgentOf(a: Row<Agent>): MapAgent {
    MapAgent(a.id, a.val.name, a.val.email, a.val.territory, a.val.status,
             a.val.locationLat, a.val.locationLng, a.val.lastActive)
  }

  function MapCustomerOf(c: Row<Customer>): MapCustomer {
    MapCustomer(c.id, c.val.businessName, c.val.address, c.val.status, c.val.locationLat, c.val.locationLng)
  }

  /**
   * `GET /api/admin/map-data`: the Active agents and every customer with
   * their stored positions. An agent appears exactly when it is Active; a
   * failed read answers 500 with the database's message.
   */
  method GetMapData(db: Database, agentsRead: DbOutcome, customersRead: DbOutcome) returns (resp: Response)
    requires db.Valid()
    ensures agentsRead.Fail? ==> resp == ErrorReply(500, agentsRead.message)
    ensures agentsRead.Ok? && customersRead.Fail? ==> resp == ErrorReply(500, customersRead.message)
    ensures agentsRead.Ok? && customersRead.Ok? ==>
      && resp.status == 200 && resp.body.MapData?
      && resp.body.mapCustomers == Map(db.customers.rows, MapCustomerOf)
      && forall m :: m in resp.body.mapAgents <==> exists a :: a in db.agents.rows && a.val.status == ActiveStatus && MapAgentOf(a) == m
  {
    if agentsRead.Fail? {
      return ErrorReply(500, agentsRead.message);
    }
    var agents := Select(db.agents.rows, StatusFilter(ActiveStatus), MapAgentOf);
    if customersRead.Fail? {
      return ErrorReply(500, customersRead.message);
    }
    SelectMembers(db.agents.rows, StatusFilter(ActiveStatus), MapAgentOf);
    resp := Json(MapData(agents, Map(db.customers.rows, MapCustomerOf)));
  }

  // ---------------------------------------------------------------------
  // GET /customers

  function CustomerCreatedAt(c: Row<Customer>): int {
    c.val.createdAt
  }

  function CustomerListingOf(c: Row<Customer>): CustomerListing {
    CustomerListing(c.id, c.val.businessName, c.val.ownerName, c.val.email, c.val.phone,
                    c.val.address, c.val.businessType, c.val.status, c.val.createdAt)
  }

  /**
   * `GET /api/admin/customers`: every customer exactly once, newest first,
   * without passwords; a failed read answers 500 with the database's message.
   */
  method ListCustomers(db: Database, read: DbOutcome) returns (resp: Response)
    requires db.Valid()
    ensures read.Fail? ==> resp == ErrorReply(500, read.message)
    ensures read.Ok? ==>
      var sorted := OrderByDesc(db.customers.rows, CustomerCreatedAt);
      && resp == Json(CustomerList(Map(sorted, CustomerListingOf)))
      && multiset(sorted) == multiset(db.customers.rows)
      && SortedDesc(sorted, CustomerCreatedAt)
  {
    if read.Fail? {
      return ErrorReply(500, read.message);
    }
    resp := Json(CustomerList(Map(OrderByDesc(db.customers.rows, CustomerCreatedAt), CustomerListingOf)));
  }
}
