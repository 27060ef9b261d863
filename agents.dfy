/**
 * The agent routes: customer search, visit ingestion (lead provisioning,
 * the visit row, the inventory batch and the lead's QR back-reference),
 * per-agent statistics and the agent location update.
 */
module Agents {
  import opened Wrappers
  import opened Js
  import opened Text
  import opened Sql
  import opened Schema
  import opened Db
  import opened Http

  const SearchLimit: nat := 10
  /** The commission credited per completed visit. */
  const CommissionPerConversion: nat := 50
  /** The password stored for a lead, who has not registered yet. */
  const LeadPlaceholderPassword := "$2a$08$abcdefg..."

  // ---------------------------------------------------------------------
  // GET /customers/search

  /** `business_name LIKE '%q%' OR phone LIKE '%q%'`. */
  predicate MatchesQuery(q: string, c: Row<Customer>) {
    LikeContains(c.val.businessName, q) || LikeContains(c.val.phone, q)
  }

  function QueryFilter(q: string): Row<Customer> -> bool {
    c => MatchesQuery(q, c)
  }

  function SearchMatches(rows: seq<Row<Customer>>, q: string): seq<Row<Customer>> {
    Where(rows, QueryFilter(q))
  }

  function Summary(c: Row<Customer>): CustomerSummary {
    CustomerSummary(c.id, c.val.businessName, c.val.ownerName, c.val.email,
                    c.val.phone, c.val.address, c.val.businessType)
  }

  /** The first ten matches in table order, each as its summary columns. */
  function SearchResult(rows: seq<Row<Customer>>, q: string): seq<CustomerSummary> {
    Map(Limit(SearchMatches(rows, q), SearchLimit), Summary)
  }

  /**
   * The search result holds at most ten customers, each one whose business
   * name or phone contains the query, in id order, and every match when
   * there are no more than ten.
   */
  lemma SearchResultSpec(rows: seq<Row<Customer>>, q: string)
    requires Ascending(rows)
    ensures var found := SearchResult(rows, q);
      && |found| == Min(SearchLimit, |SearchMatches(rows, q)|)
      && (forall i :: 0 <= i < |found| ==>
            exists c :: c in rows && MatchesQuery(q, c) && found[i] == Summary(c))
      && (forall i, j :: 0 <= i < j < |found| ==> found[i].id < found[j].id)
      && (|SearchMatches(rows, q)| <= SearchLimit ==>
            forall c :: c in rows && MatchesQuery(q, c) ==> Summary(c) in found)
  {
    LimitedSelect(rows, QueryFilter(q), Summary, SearchLimit);
    var kept := Limit(SearchMatches(rows, q), SearchLimit);
    var found := SearchResult(rows, q);
    assert found == Map(kept, Summary);
    forall i | 0 <= i < |found|
      ensures exists c :: c in rows && MatchesQuery(q, c) && found[i] == Summary(c)
    {
      var c := kept[i];
      assert c in rows && QueryFilter(q)(c);
      assert MatchesQuery(q, c);
      assert found[i] == Summary(c);
    }
    forall i, j | 0 <= i < j < |found| ensures found[i].id < found[j].id {
      assert found[i] == Summary(kept[i]) && found[j] == Summary(kept[j]);
    }
  }

  /**
   * A missing or empty query answers `[]` without a query. Otherwise the
   * answer is the search result over the customers table; passwords and QR
   * references are never part of it.
   */
  method SearchCustomers(db: Database, query: Field, read: DbOutcome) returns (resp: Response)
    requires db.Valid()
    ensures !Truthy(query) ==> resp == Json(CustomerMatches([]))
    ensures Truthy(query) && read.Fail? ==> resp == ErrorReply(500, "DB Error")
    ensures Truthy(query) && read.Ok? ==> resp == Json(CustomerMatches(SearchResult(db.customers.rows, query.value)))
  {
    if !Truthy(query) {
      return Json(CustomerMatches([]));
    }
    if read.Fail? {
      return ErrorReply(500, "DB Error");
    }
    resp := Json(CustomerMatches(SearchResult(db.customers.rows, query.value)));
  }

  // ---------------------------------------------------------------------
  // POST /visits

  /** The multipart form of a visit log. */
  datatype VisitRequest = VisitRequest(
    agentId: Field, customerId: Field,
    businessName: Field, ownerName: Field, email: Field, phone: Field,
    address: Field, businessType: Field,
    notes: Field, riskAssessment: Field, serviceRecommendations: Field, followUpDate: Field,
    inventory: Field)

  /** The properties of one inventory element the handler reads (absent when the element lacks them). */
  datatype ItemFields = ItemFields(
    kind: Field, capacity: Field, quantity: Field, installDate: Field,
    lastRefillDate: Field, expiryDate: Field, condition: Field)

  /**
   * One element of the parsed inventory array: `null` (reading a property
   * of it throws) or anything else (an object, or a primitive whose
   * properties all read as `undefined`).
   */
  datatype Element = Item(fields: ItemFields) | NullItem

  /** What `JSON.parse(inventory)` does: throw, produce something other than an array, or produce an array. */
  datatype Parsed = ParseError | NotArray | ParsedArray(elements: seq<Element>)

  /** Everything outside the request that decides the handler's course. */
  datatype VisitEffects = VisitEffects(
    now: nat,               // Date.now() when the fallback email is built
    qrNow: nat,             // Date.now() when the QR file name is built
    dbTime: int,            // created_at the database gives a new lead
    leadInsert: DbOutcome,
    visitInsert: DbOutcome,
    parsed: Parsed,
    qrWritten: bool,        // QRCode.toFile reported no error
    qrUpdate: DbOutcome)

  /**
   * `email || \`lead-${Date.now()}@temp.com\``: a supplied email is kept as
   * it is; the address stored is never empty.
   */
  function LeadEmail(email: Field, now: nat): (r: string)
    ensures Truthy(email) ==> r == email.value
    ensures r != ""
  {
    if Truthy(email) then email.value else "lead-" + NatToString(now) + "@temp.com"
  }

  /** Fallback lead emails built at different timestamps differ. */
  lemma LeadFallbackEmailsDistinct(e1: Field, e2: Field, now1: nat, now2: nat)
    requires !Truthy(e1) && !Truthy(e2) && now1 != now2
    ensures LeadEmail(e1, now1) != LeadEmail(e2, now2)
  {
    if LeadEmail(e1, now1) == LeadEmail(e2, now2) {
      var a, b := NatToString(now1), NatToString(now2);
      assert "lead-" + a + "@temp.com" == ("lead-" + a) + "@temp.com";
      assert "lead-" + b + "@temp.com" == ("lead-" + b) + "@temp.com";
      CancelSuffix("lead-" + a, "lead-" + b, "@temp.com");
      assert a == ("lead-" + a)[5..] && b == ("lead-" + b)[5..];
      NatToStringInjective(now1, now2);
    }
  }

  function LeadCustomer(req: VisitRequest, now: nat, dbTime: int): Customer {
    Customer(req.businessName, req.ownerName, LeadEmail(req.email, now), LeadPlaceholderPassword,
             req.phone, req.address, req.businessType,
             Some(LeadStatus), None, None, None, dbTime)
  }

  function LeadQrFileName(id: nat, qrNow: nat): string {
    "qr-lead-" + NatToString(id) + "-" + NatToString(qrNow) + ".png"
  }

  /** The customers table after provisioning a lead: the insert, then the QR back-reference. */
  function LeadTable(t: Table<Customer>, req: VisitRequest, fx: VisitEffects): Table<Customer> {
    AttachQr(Insert(t, LeadCustomer(req, fx.now, fx.dbTime)), t.nextId,
             QrUrl(LeadQrFileName(t.nextId, fx.qrNow)), fx.qrWritten, fx.qrUpdate)
  }

  /**
   * Provisioning a lead appends exactly one customer, under a fresh id, with
   * status Lead, the placeholder password, the supplied or fallback email
   * and the request's identity fields; its QR reference is set exactly when
   * the QR file was written and the update succeeded. Existing customers
   * are untouched.
   */
  lemma LeadTableSpec(t: Table<Customer>, req: VisitRequest, fx: VisitEffects)
    requires WellFormed(t)
    ensures var r := LeadTable(t, req, fx);
      && WellFormed(r) && |r.rows| == |t.rows| + 1 && r.rows[..|t.rows|] == t.rows
      && r.nextId == t.nextId + 1
      && r.rows[|t.rows|].id == t.nextId
      && (forall i :: 0 <= i < |t.rows| ==> t.rows[i].id != t.nextId)
      && r.rows[|t.rows|].val.status == Some(LeadStatus)
      && r.rows[|t.rows|].val.password == LeadPlaceholderPassword
      && r.rows[|t.rows|].val.email == LeadEmail(req.email, fx.now)
      && r.rows[|t.rows|].val.businessName == req.businessName
      && r.rows[|t.rows|].val.phone == req.phone
      && r.rows[|t.rows|].val.ownerName == req.ownerName
      && r.rows[|t.rows|].val.address == req.address
      && r.rows[|t.rows|].val.businessType == req.businessType
      && r.rows[|t.rows|].val.qrCodeUrl ==
           (if fx.qrWritten && fx.qrUpdate.Ok? then Some(QrUrl(LeadQrFileName(t.nextId, fx.qrNow))) else None)
      && r.rows[|t.rows|].val == LeadCustomer(req, fx.now, fx.dbTime).(qrCodeUrl := r.rows[|t.rows|].val.qrCodeUrl)
  {
    var u := Insert(t, LeadCustomer(req, fx.now, fx.dbTime));
    var r := LeadTable(t, req, fx);
    assert u.rows[|t.rows|].id == t.nextId;
    forall i | 0 <= i < |t.rows| ensures r.rows[i] == t.rows[i] {
      assert u.rows[i] == t.rows[i];
    }
  }

  /** Two leads provisioned one after the other from identical data are two customers, not one. */
  lemma DuplicateLeadsAreDistinct(t: Table<Customer>, req: VisitRequest, fx1: VisitEffects, fx2: VisitEffects)
    requires WellFormed(t)
    ensures var r := LeadTable(LeadTable(t, req, fx1), req, fx2);
      && |r.rows| == |t.rows| + 2
      && r.rows[|t.rows|].id != r.rows[|t.rows| + 1].id
      && r.rows[|t.rows|].val.status == r.rows[|t.rows| + 1].val.status == Some(LeadStatus)
  {
    LeadTableSpec(t, req, fx1);
    var t1 := LeadTable(t, req, fx1);
    LeadTableSpec(t1, req, fx2);
    assert LeadTable(t1, req, fx2).rows[|t.rows|] == t1.rows[|t.rows|];
  }

  /**
   * `customer_id: null` sent through FormData arrives as the text "null",
   * which is truthy, so it is trusted as a customer id; it is stored as text
   * and refers to no customer.
   */
  lemma FormDataNullIsTrusted(rows: seq<Row<Customer>>)
    ensures Truthy(Some("null")) && Affinity(Some("null")) == Key.Str("null")
    ensures forall c :: c in rows ==> !SqlEq(Affinity(Some("null")), Int(c.id))
  {
    assert !IsDigit('l');
  }

  /** The visit INSERT's columns: the request's fields in order, the agent id by INTEGER affinity, no status. */
  function VisitRow(req: VisitRequest, customer: Key): (v: Visit)
    ensures v.agentId == Affinity(req.agentId) && v.customerId == customer && v.status == None
    ensures v.customerName == req.businessName && v.businessType == req.businessType && v.notes == req.notes
    ensures v.riskAssessment == req.riskAssessment && v.serviceRecommendations == req.serviceRecommendations
    ensures v.followUpDate == req.followUpDate
  {
    Visit(Affinity(req.agentId), customer, req.businessName, req.businessType,
          req.notes, req.riskAssessment, req.serviceRecommendations, req.followUpDate, None)
  }

  /** The item descriptors read before the first `null` element, at which `forEach` is aborted by the throw. */
  function Readable(es: seq<Element>): (ds: seq<ItemFields>)
    ensures |ds| <= |es|
    ensures forall k :: 0 <= k < |ds| ==> es[k].Item? && ds[k] == es[k].fields
    ensures |ds| < |es| ==> es[|ds|].NullItem?
  {
    if es == [] || es[0].NullItem? then [] else [es[0].fields] + Readable(es[1..])
  }

  /** The descriptors the inventory batch inserts: none unless the field is truthy and parses to an array. */
  function Batch(inventory: Field, parsed: Parsed): seq<ItemFields> {
    if Truthy(inventory) && parsed.ParsedArray? then Readable(parsed.elements) else []
  }

  /**
   * A truthy inventory that parses to an array with no `null` element
   * yields one descriptor per element, in order; a missing, empty or
   * unparsable inventory, or one that is not an array, yields none.
   */
  lemma BatchSpec(inventory: Field, parsed: Parsed)
    ensures !Truthy(inventory) || !parsed.ParsedArray? ==> Batch(inventory, parsed) == []
    ensures Truthy(inventory) && parsed.ParsedArray? && (forall k :: 0 <= k < |parsed.elements| ==> parsed.elements[k].Item?) ==>
      && |Batch(inventory, parsed)| == |parsed.elements|
      && forall k :: 0 <= k < |parsed.elements| ==> Batch(inventory, parsed)[k] == parsed.elements[k].fields
  {
  }

  /** One extinguisher of the batch: the resolved customer, the new visit, status Valid and the descriptor's columns. */
  function ItemRow(customer: Key, visitId: nat, d: ItemFields): (e: Extinguisher)
    ensures e.customerId == customer && e.visitId == Int(visitId) && e.status == ValidStatus
    ensures e.kind == d.kind && e.capacity == d.capacity && e.quantity == d.quantity && e.condition == d.condition
  {
    Extinguisher(customer, Int(visitId), d.kind, d.capacity, d.quantity, d.installDate,
                 d.lastRefillDate, d.expiryDate, d.condition, ValidStatus)
  }

  function ItemRows(customer: Key, visitId: nat, ds: seq<ItemFields>): seq<Extinguisher> {
    Map(ds, d => ItemRow(customer, visitId, d))
  }

  /**
   * The inventory batch appends exactly one extinguisher per descriptor, in
   * order, under consecutive fresh ids, each carrying the resolved customer,
   * the new visit and status Valid, and leaves existing rows untouched.
   */
  lemma InventoryRowsSpec(t: Table<Extinguisher>, customer: Key, visitId: nat, ds: seq<ItemFields>)
    requires WellFormed(t)
    ensures var r := InsertAll(t, ItemRows(customer, visitId, ds));
      && WellFormed(r)
      && |r.rows| == |t.rows| + |ds| && r.rows[..|t.rows|] == t.rows
      && r.nextId == t.nextId + |ds|
      && forall k :: 0 <= k < |ds| ==> r.rows[|t.rows| + k] == Row(t.nextId + k, ItemRow(customer, visitId, ds[k]))
  {
    var vs := ItemRows(customer, visitId, ds);
    InsertAllShape(t, vs);
    var r := InsertAll(t, vs);
    forall k | 0 <= k < |ds| ensures r.rows[|t.rows| + k] == Row(t.nextId + k, ItemRow(customer, visitId, ds[k])) {
      assert vs[k] == ItemRow(customer, visitId, ds[k]);
    }
  }

  /**
   * What `processVisit(customer)` does to the tables and replies: a failed
   * visit insert changes nothing and answers 500; otherwise the visit row
   * and the inventory batch are written and the reply is 201 with the new
   * visit id, whatever became of the inventory.
   */
  ghost predicate VisitRecorded(before: Tables, after: Tables, resp: Response, req: VisitRequest, customer: Key, fx: VisitEffects) {
    if fx.visitInsert.Fail? then
      after == before && resp == ErrorWithDetails(500, "Failed to log visit", fx.visitInsert.message)
    else
      var visitId := before.visits.nextId;
      && resp == Response(201, VisitLogged("Visit logged successfully", visitId))
      && after == before.(visits := Insert(before.visits, VisitRow(req, customer)),
                          extinguishers := InsertAll(before.extinguishers, ItemRows(customer, visitId, Batch(req.inventory, fx.parsed))))
  }

  /** `items.forEach(item => stmt.run(...))`: one extinguisher row per element, until a `null` element throws. */
  method InsertInventory(db: Database, customer: Key, visitId: nat, elements: seq<Element>)
    requires db.Valid()
    modifies db
    ensures db.Valid()
    ensures db.State() == old(db.State()).(extinguishers := InsertAll(old(db.extinguishers), ItemRows(customer, visitId, Readable(elements))))
  {
    ghost var s0 := db.State();
    ghost var done: seq<ItemFields> := [];
    var i := 0;
    while i < |elements|
      invariant 0 <= i <= |elements|
      invariant db.Valid()
      invariant |done| == i && forall k :: 0 <= k < i ==> elements[k].Item? && done[k] == elements[k].fields
      invariant db.State() == s0.(extinguishers := db.extinguishers)
      invariant db.extinguishers == InsertAll(s0.extinguishers, ItemRows(customer, visitId, done))
    {
      if elements[i].NullItem? {
        break;
      }
      var d := elements[i].fields;
      var _ := db.InsertExtinguisher(ItemRow(customer, visitId, d), Ok);
      ItemRowsSnoc(s0.extinguishers, customer, visitId, done, d);
      ghost var prev := done;
      done := done + [d];
      forall k | 0 <= k < i + 1 ensures elements[k].Item? && done[k] == elements[k].fields {
        if k < i {
          assert done[k] == prev[k];
        }
      }
      i := i + 1;
    }
    ReadableIsPrefix(elements, done);
  }

  /** Inserting one more descriptor's row after a batch is the batch of the longer list. */
  lemma ItemRowsSnoc(t: Table<Extinguisher>, customer: Key, visitId: nat, ds: seq<ItemFields>, d: ItemFields)
    ensures InsertAll(t, ItemRows(customer, visitId, ds + [d]))
         == Insert(InsertAll(t, ItemRows(customer, visitId, ds)), ItemRow(customer, visitId, d))
  {
    var rows := ItemRows(customer, visitId, ds + [d]);
    assert rows[..|rows| - 1] == ItemRows(customer, visitId, ds);
  }

  /** A prefix of items that ends the array or stops at a `null` element is what `Readable` keeps. */
  lemma ReadableIsPrefix(es: seq<Element>, done: seq<ItemFields>)
    requires |done| <= |es|
    requires forall k :: 0 <= k < |done| ==> es[k].Item? && done[k] == es[k].fields
    requires |done| < |es| ==> es[|done|].NullItem?
    ensures Readable(es) == done
  {
  }

  method ProcessVisit(db: Database, req: VisitRequest, customer: Key, fx: VisitEffects) returns (resp: Response)
    requires db.Valid()
    modifies db
    ensures db.Valid()
    ensures VisitRecorded(old(db.State()), db.State(), resp, req, customer, fx)
  {
    var r := db.InsertVisit(VisitRow(req, customer), fx.visitInsert);
    if r.Failure? {
      return ErrorWithDetails(500, "Failed to log visit", r.error);
    }
    var visitId := r.value;
    if Truthy(req.inventory) {
      match fx.parsed {
        case ParsedArray(elements) =>
          InsertInventory(db, customer, visitId, elements);
        case _ =>
          // JSON.parse threw, or the result has no forEach: caught and logged
      }
    }
    resp := Response(201, VisitLogged("Visit logged successfully", visitId));
  }

  /**
   * `POST /visits`. A truthy `customer_id` is used as given, with no
   * existence check and no customer written. Otherwise a lead is inserted
   * first; if that fails the reply is 500 and nothing is written. The lead's
   * QR back-reference is written only when the QR file was; the reply never
   * depends on it.
   */
  method LogVisit(db: Database, req: VisitRequest, fx: VisitEffects) returns (resp: Response)
    requires db.Valid()
    modifies db
    ensures db.Valid()
    ensures Truthy(req.customerId) ==>
      VisitRecorded(old(db.State()), db.State(), resp, req, Affinity(req.customerId), fx)
    ensures !Truthy(req.customerId) && fx.leadInsert.Fail? ==>
      db.State() == old(db.State()) && resp == ErrorWithDetails(500, "Failed to create lead customer", fx.leadInsert.message)
    ensures !Truthy(req.customerId) && fx.leadInsert.Ok? ==>
      VisitRecorded(old(db.State()).(customers := LeadTable(old(db.customers), req, fx)), db.State(),
                    resp, req, Int(old(db.customers.nextId)), fx)
  {
    if Truthy(req.customerId) {
      resp := ProcessVisit(db, req, Affinity(req.customerId), fx);
    } else {
      var r := db.InsertCustomer(LeadCustomer(req, fx.now, fx.dbTime), fx.leadInsert);
      if r.Failure? {
        return ErrorWithDetails(500, "Failed to create lead customer", r.error);
      }
      var newCustId := r.value;
      if fx.qrWritten {
        var _ := db.UpdateCustomers(Int(newCustId), SetQr(QrUrl(LeadQrFileName(newCustId, fx.qrNow))), fx.qrUpdate);
      }
      resp := ProcessVisit(db, req, Int(newCustId), fx);
    }
  }

  // ---------------------------------------------------------------------
  // GET /:id/stats

  predicate ByAgent(agent: Key, v: Row<Visit>) {
    SqlEq(v.val.agentId, agent)
  }

  predicate IsCompleted(v: Row<Visit>) {
    v.val.status == Some(CompletedStatus)
  }

  function AgentVisits(rows: seq<Row<Visit>>, agent: Key): seq<Row<Visit>> {
    Where(rows, v => ByAgent(agent, v))
  }

  /** `SUM(CASE WHEN status = 'Completed' THEN 1 ELSE 0 END)`: NULL over no rows. */
  function SumCompleted(vs: seq<Row<Visit>>): (r: Option<nat>)
    ensures r.None? <==> vs == []
  {
    if vs == [] then None else Some(|Where(vs, IsCompleted)|)
  }

  /** `x || 0` for a nullable count. */
  function OrZero(x: Option<nat>): nat {
    if x.Some? then x.value else 0
  }

  /**
   * The agent's visit count and completed-visit count (0 rather than NULL
   * when the agent has no visits), and earnings of 50 per completed visit.
   */
  method GetAgentStats(db: Database, agentId: string, read: DbOutcome) returns (resp: Response)
    requires db.Valid()
    ensures read.Fail? ==> resp == ErrorReply(500, read.message)
    ensures read.Ok? ==> resp.status == 200 && resp.body.AgentStats?
    ensures read.Ok? ==>
      var visits := AgentVisits(db.visits.rows, Affinity(Some(agentId)));
      && resp.body.totalVisits == |visits|
      && resp.body.conversions == |Where(visits, IsCompleted)|
      && resp.body.conversions <= resp.body.totalVisits
      && resp.body.earnings == CommissionPerConversion * resp.body.conversions
  {
    if read.Fail? {
      return ErrorReply(500, read.message);
    }
    var visits := AgentVisits(db.visits.rows, Affinity(Some(agentId)));
    var conversions := OrZero(SumCompleted(visits));
    resp := Json(AgentStats(|visits|, conversions, conversions * CommissionPerConversion));
  }

  // ---------------------------------------------------------------------
  // POST /location

  function SetAgentLocation(lat: Field, lng: Field, at: string): Agent -> Agent {
    (a: Agent) => a.(locationLat := lat, locationLng := lng, lastActive := Some(at))
  }

  /** Sets location and last activity of the agent with that id; no other row or column changes. */
  method UpdateAgentLocation(db: Database, id: Field, lat: Field, lng: Field, nowIso: string, outcome: DbOutcome)
    returns (resp: Response)
    requires db.Valid()
    modifies db
    ensures db.Valid()
    ensures outcome.Fail? ==> resp == ErrorReply(500, "DB Error") && db.State() == old(db.State())
    ensures outcome.Ok? ==>
      && resp == Json(Message("Location updated"))
      && db.State() == old(db.State()).(agents := UpdateWhere(old(db.agents), Affinity(id), SetAgentLocation(lat, lng, nowIso)))
  {
    var r := db.UpdateAgents(Affinity(id), SetAgentLocation(lat, lng, nowIso), outcome);
    if r.Fail? {
      return ErrorReply(500, "DB Error");
    }
    resp := Json(Message("Location updated"));
  }
}
