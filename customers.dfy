/**
 * The customer routes: the dashboard and inventory reads, service booking
 * with its batch of service items, adding an extinguisher, and the location
 * update. Ids from the path or the body are bound as text and compared with
 * INTEGER columns, so they go through `Affinity`.
 */
module Customers {
  import opened Wrappers
  import opened Js
  import opened Sql
  import opened Schema
  import opened Db
  import opened Http

  /** The number of services the dashboard shows. */
  const DashboardServices: nat := 5

  predicate ExtinguisherOf(customer: Key, e: Row<Extinguisher>) {
    SqlEq(e.val.customerId, customer)
  }

  function ExtinguisherFilter(customer: Key): Row<Extinguisher> -> bool {
    (e: Row<Extinguisher>) => ExtinguisherOf(customer, e)
  }

  predicate ServiceOf(customer: Key, s: Row<Service>) {
    SqlEq(s.val.customerId, customer)
  }

  function ServiceFilter(customer: Key): Row<Service> -> bool {
    (s: Row<Service>) => ServiceOf(customer, s)
  }

  function RequestDate(s: Row<Service>): int {
    s.val.requestDate
  }

  // ---------------------------------------------------------------------
  // GET /:id/inventory

  /**
   * `SELECT * FROM extinguishers WHERE customer_id = ?`: exactly the
   * extinguishers recorded against that customer, in table order.
   */
  method GetInventory(db: Database, id: string, read: DbOutcome) returns (resp: Response)
    requires db.Valid()
    ensures read.Fail? ==> resp == ErrorReply(500, "Error fetching inventory")
    ensures read.Ok? ==>
      && resp.status == 200 && resp.body.Inventory?
      && Ascending(resp.body.items)
      && forall e :: e in resp.body.items <==> e in db.extinguishers.rows && SqlEq(e.val.customerId, Affinity(Some(id)))
  {
    if read.Fail? {
      return ErrorReply(500, "Error fetching inventory");
    }
    var key := Affinity(Some(id));
    WhereComplete(db.extinguishers.rows, ExtinguisherFilter(key));
    resp := Json(Inventory(Where(db.extinguishers.rows, ExtinguisherFilter(key))));
  }

  // ---------------------------------------------------------------------
  // GET /:id/dashboard

  /** `ORDER BY request_date DESC LIMIT 5` over the customer's services. */
  function RecentServices(rows: seq<Row<Service>>, customer: Key): seq<Row<Service>> {
    Limit(OrderByDesc(Where(rows, ServiceFilter(customer)), RequestDate), DashboardServices)
  }

  /**
   * The dashboard's services are at most five of the customer's services,
   * newest request first; with five or fewer, all of them.
   */
  lemma RecentServicesSpec(rows: seq<Row<Service>>, customer: Key)
    ensures var recent := RecentServices(rows, customer);
      && |recent| == Min(DashboardServices, |Where(rows, ServiceFilter(customer))|)
      && (forall s :: s in recent ==> s in rows && ServiceOf(customer, s))
      && SortedDesc(recent, RequestDate)
      && (|Where(rows, ServiceFilter(customer))| <= DashboardServices ==> forall s :: s in rows && ServiceOf(customer, s) ==> s in recent)
  {
    var mine := Where(rows, ServiceFilter(customer));
    var sorted := OrderByDesc(mine, RequestDate);
    var recent := Limit(sorted, DashboardServices);
    forall s | s in recent ensures s in rows && ServiceOf(customer, s) {
      assert s in multiset(sorted);
      assert s in mine;
    }
    forall i, j | 0 <= i < j < |recent| ensures RequestDate(recent[i]) >= RequestDate(recent[j]) {
      assert recent[i] == sorted[i] && recent[j] == sorted[j];
    }
    if |mine| <= DashboardServices {
      WhereComplete(rows, ServiceFilter(customer));
      assert recent == sorted;
      forall s | s in rows && ServiceOf(customer, s) ensures s in recent {
        assert s in multiset(mine);
      }
    }
  }

  /** No service of the customer that the dashboard leaves out was requested later than one it shows. */
  lemma RecentServicesAreNewest(rows: seq<Row<Service>>, customer: Key)
    ensures var recent := RecentServices(rows, customer);
      forall s, i :: s in rows && ServiceOf(customer, s) && s !in recent && 0 <= i < |recent| ==>
        s.val.requestDate <= recent[i].val.requestDate
  {
    var mine := Where(rows, ServiceFilter(customer));
    var sorted := OrderByDesc(mine, RequestDate);
    var recent := Limit(sorted, DashboardServices);
    WhereComplete(rows, ServiceFilter(customer));
    TopRowsByKey(sorted, RequestDate, DashboardServices);
    forall s, i | s in rows && ServiceOf(customer, s) && s !in recent && 0 <= i < |recent|
      ensures s.val.requestDate <= recent[i].val.requestDate
    {
      assert s in mine;
      assert s in multiset(sorted);
      assert s !in multiset(recent);
      assert s in multiset(sorted) - multiset(recent);
      assert RequestDate(s) <= RequestDate(recent[i]);
    }
  }

  /**
   * `GET /:id/dashboard`: all the customer's extinguishers and its recent
   * services. Either failed read answers 500, the inventory one first.
   */
  method GetDashboard(db: Database, id: string, extinguishersRead: DbOutcome, servicesRead: DbOutcome) returns (resp: Response)
    requires db.Valid()
    ensures extinguishersRead.Fail? ==> resp == ErrorReply(500, "Error fetching inventory")
    ensures extinguishersRead.Ok? && servicesRead.Fail? ==> resp == ErrorReply(500, "Error fetching history")
    ensures extinguishersRead.Ok? && servicesRead.Ok? ==>
      && resp.status == 200 && resp.body.Dashboard?
      && (forall e :: e in resp.body.extinguishers <==> e in db.extinguishers.rows && SqlEq(e.val.customerId, Affinity(Some(id))))
      && resp.body.services == RecentServices(db.services.rows, Affinity(Some(id)))
      && |resp.body.services| <= DashboardServices
  {
    if extinguishersRead.Fail? {
      return ErrorReply(500, "Error fetching inventory");
    }
    var key := Affinity(Some(id));
    var extinguishers := Where(db.extinguishers.rows, ExtinguisherFilter(key));
    WhereComplete(db.extinguishers.rows, ExtinguisherFilter(key));
    if servicesRead.Fail? {
      return ErrorReply(500, "Error fetching history");
    }
    var services := Limit(OrderByDesc(Where(db.services.rows, ServiceFilter(key)), RequestDate), DashboardServices);
    resp := Json(Dashboard(extinguishers, services));
  }

  // ---------------------------------------------------------------------
  // POST /book

  /** The JSON body of a booking; `assetIds` is an array of extinguisher ids, or absent. */
  datatype Booking = Booking(customerId: Field, serviceType: Field, date: Field, notes: Field, assetIds: Option<seq<Field>>)

  function BookedService(b: Booking, dbTime: int): Service {
    Service(Affinity(b.customerId), b.serviceType, b.date, b.notes, None, Key.Null, dbTime)
  }

  /** `assetIds && assetIds.length > 0`: the ids the batch inserts. */
  function Assets(b: Booking): seq<Field> {
    if b.assetIds.Some? && |b.assetIds.value| > 0 then b.assetIds.value else []
  }

  function ItemFor(serviceId: nat, asset: Field): ServiceItem {
    ServiceItem(serviceId, Affinity(asset))
  }

  function BookedItems(serviceId: nat, assets: seq<Field>): seq<ServiceItem> {
    Map(assets, (a: Field) => ItemFor(serviceId, a))
  }

  /**
   * The booking batch appends one service item per asset id, in order,
   * each linked to the new service and to that asset, and nothing else.
   */
  lemma BookedItemsSpec(t: Table<ServiceItem>, serviceId: nat, assets: seq<Field>)
    requires WellFormed(t)
    ensures var r := InsertAll(t, BookedItems(serviceId, assets));
      && WellFormed(r)
      && |r.rows| == |t.rows| + |assets| && r.rows[..|t.rows|] == t.rows
      && forall k :: 0 <= k < |assets| ==>
           r.rows[|t.rows| + k] == Row(t.nextId + k, ServiceItem(serviceId, Affinity(assets[k])))
  {
    var items := BookedItems(serviceId, assets);
    InsertAllShape(t, items);
    var r := InsertAll(t, items);
    forall k | 0 <= k < |assets|
      ensures r.rows[|t.rows| + k] == Row(t.nextId + k, ServiceItem(serviceId, Affinity(assets[k])))
    {
      assert r.rows[|t.rows| + k] == Row(t.nextId + k, items[k]);
      assert items[k] == ItemFor(serviceId, assets[k]);
    }
  }

  /** `assetIds.forEach(id => stmt.run(serviceId, id))`. */
  method InsertServiceItems(db: Database, serviceId: nat, assets: seq<Field>)
    requires db.Valid()
    modifies db
    ensures db.Valid()
    ensures db.State() == old(db.State()).(serviceItems := InsertAll(old(db.serviceItems), BookedItems(serviceId, assets)))
  {
    var i := 0;
    while i < |assets|
      invariant 0 <= i <= |assets|
      invariant db.Valid()
      invariant db.State() == old(db.State()).(serviceItems := InsertAll(old(db.serviceItems), BookedItems(serviceId, assets[..i])))
    {
      var _ := db.InsertServiceItem(ItemFor(serviceId, assets[i]), Ok);
      ghost var items := BookedItems(serviceId, assets[..i + 1]);
      assert items[..|items| - 1] == BookedItems(serviceId, assets[..i]);
      assert db.serviceItems == InsertAll(old(db.serviceItems), items);
      i := i + 1;
    }
    assert assets[..i] == assets;
  }

  /**
   * `POST /book`. A failed service insert answers 500 with the database's
   * message and writes nothing. Otherwise one service and then one item per
   * asset id are written, and the reply is 201 with the service id, with
   * or without assets.
   */
  method BookService(db: Database, b: Booking, dbTime: int, insert: DbOutcome) returns (resp: Response)
    requires db.Valid()
    modifies db
    ensures db.Valid()
    ensures insert.Fail? ==> resp == ErrorReply(500, insert.message) && db.State() == old(db.State())
    ensures insert.Ok? ==>
      && resp == Response(201, Created("Service booked successfully", old(db.services.nextId)))
      && db.State() == old(db.State()).(services := Insert(old(db.services), BookedService(b, dbTime)),
                                        serviceItems := InsertAll(old(db.serviceItems), BookedItems(old(db.services.nextId), Assets(b))))
  {
    var r := db.InsertService(BookedService(b, dbTime), insert);
    if r.Failure? {
      return ErrorReply(500, r.error);
    }
    var serviceId := r.value;
    if b.assetIds.Some? && |b.assetIds.value| > 0 {
      InsertServiceItems(db, serviceId, b.assetIds.value);
    }
    resp := Response(201, Created("Service booked successfully", serviceId));
  }

  // ---------------------------------------------------------------------
  // POST /inventory

  /** The JSON body of an added extinguisher. */
  datatype ExtinguisherForm = ExtinguisherForm(
    customerId: Field, kind: Field, capacity: Field, quantity: Field, installDate: Field, expiryDate: Field)

  /** The added row: status Valid, the given customer, no visit, refill date or condition. */
  function AddedExtinguisher(f: ExtinguisherForm): (e: Extinguisher)
    ensures e.status == ValidStatus && e.customerId == Affinity(f.customerId) && e.visitId == Key.Null
    ensures e.kind == f.kind && e.quantity == f.quantity && e.expiryDate == f.expiryDate
  {
    Extinguisher(Affinity(f.customerId), Key.Null, f.kind, f.capacity, f.quantity, f.installDate, None, f.expiryDate, None, ValidStatus)
  }

  method AddExtinguisher(db: Database, f: ExtinguisherForm, insert: DbOutcome) returns (resp: Response)
    requires db.Valid()
    modifies db
    ensures db.Valid()
    ensures insert.Fail? ==> resp == ErrorReply(500, insert.message) && db.State() == old(db.State())
    ensures insert.Ok? ==>
      && resp == Response(201, Created("Extinguisher added", old(db.extinguishers.nextId)))
      && db.State() == old(db.State()).(extinguishers := Insert(old(db.extinguishers), AddedExtinguisher(f)))
  {
    var r := db.InsertExtinguisher(AddedExtinguisher(f), insert);
    if r.Failure? {
      return ErrorReply(500, r.error);
    }
    resp := Response(201, Created("Extinguisher added", r.value));
  }

  // ---------------------------------------------------------------------
  // POST /location

  function SetCustomerLocation(lat: Field, lng: Field): Customer -> Customer {
    (c: Customer) => c.(locationLat := lat, locationLng := lng)
  }

  /** The location update changes only latitude and longitude, and only of the customer with that id. */
  lemma CustomerLocationSpec(t: Table<Customer>, id: Field, lat: Field, lng: Field)
    requires WellFormed(t)
    ensures var r := UpdateWhere(t, Affinity(id), SetCustomerLocation(lat, lng));
      && WellFormed(r) && |r.rows| == |t.rows|
      && (forall i :: 0 <= i < |t.rows| && !HasId(Affinity(id), t.rows[i].id) ==> r.rows[i] == t.rows[i])
      && (forall i :: 0 <= i < |t.rows| && HasId(Affinity(id), t.rows[i].id) ==>
            r.rows[i] == Row(t.rows[i].id, t.rows[i].val.(locationLat := lat, locationLng := lng)))
  {
  }

  method UpdateCustomerLocation(db: Database, id: Field, lat: Field, lng: Field, outcome: DbOutcome) returns (resp: Response)
    requires db.Valid()
    modifies db
    ensures db.Valid()
    ensures outcome.Fail? ==> resp == ErrorReply(500, "DB Error") && db.State() == old(db.State())
    ensures outcome.Ok? ==>
      && resp == Json(Message("Location updated"))
      && db.State() == old(db.State()).(customers := UpdateWhere(old(db.customers), Affinity(id), SetCustomerLocation(lat, lng)))
  {
    var r := db.UpdateCustomers(Affinity(id), SetCustomerLocation(lat, lng), outcome);
    if r.Fail? {
      return ErrorReply(500, "DB Error");
    }
    resp := Json(Message("Location updated"));
  }
}
