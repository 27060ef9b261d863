/**
 * A worked visit against an empty store: agent 7 logs a visit to a new
 * business, "Acme Foods", with one extinguisher in the inventory, and every
 * external step succeeds.
 */
module Scenario {
  import opened Wrappers
  import opened Js
  import opened Text
  import opened Sql
  import opened Schema
  import opened Db
  import opened Http
  import opened Agents

  /**
   * On an empty store, a visit to a new business with a one-item inventory,
   * every step succeeding, creates the Lead customer 1, the visit 1
   * referencing it and one extinguisher row for the item, and answers 201
   * with visit id 1.
   */
  lemma FirstLeadVisit(before: Tables, after: Tables, resp: Response, req: VisitRequest, fx: VisitEffects, item: ItemFields)
    requires before.customers == EmptyTable() && before.visits == EmptyTable() && before.extinguishers == EmptyTable()
    requires !Truthy(req.customerId) && Truthy(req.inventory)
    requires fx.leadInsert.Ok? && fx.visitInsert.Ok? && fx.parsed == ParsedArray([Item(item)])
    requires VisitRecorded(before.(customers := LeadTable(before.customers, req, fx)), after, resp, req, Int(1), fx)
    ensures resp == Response(201, VisitLogged("Visit logged successfully", 1))
    ensures |after.customers.rows| == 1 && after.customers.rows[0].id == 1
    ensures after.customers.rows[0].val.status == Some(LeadStatus)
    ensures after.customers.rows[0].val.businessName == req.businessName && after.customers.rows[0].val.phone == req.phone
    ensures after.visits.rows == [Row(1, VisitRow(req, Int(1)))]
    ensures after.extinguishers.rows == [Row(1, ItemRow(Int(1), 1, item))]
  {
    var elements := [Item(item)];
    assert elements[1..] == [];
    assert Batch(req.inventory, fx.parsed) == [item];
    LeadTableSpec(EmptyTable(), req, fx);
    InventoryRowsSpec(EmptyTable(), Int(1), 1, [item]);
  }

  /** Agent 7 logs "Acme Foods" with one extinguisher: one Lead customer, one visit referencing it, one Valid extinguisher with quantity 2. */
  method AcmeFoodsVisit() returns (resp: Response, db: Database)
    ensures resp == Response(201, VisitLogged("Visit logged successfully", 1))
    ensures |db.customers.rows| == 1 && db.customers.rows[0].id == 1
    ensures db.customers.rows[0].val.status == Some(LeadStatus)
    ensures db.customers.rows[0].val.businessName == Some("Acme Foods")
    ensures db.customers.rows[0].val.phone == Some("555-1111")
    ensures |db.visits.rows| == 1 && db.visits.rows[0].val.customerId == Int(1) && db.visits.rows[0].val.agentId == Int(7)
    ensures |db.extinguishers.rows| == 1
    ensures db.extinguishers.rows[0].val == Extinguisher(Int(1), Int(1), Some("ABC Dry Powder"), Some("6kg"), Some("2"),
                                                         None, None, None, Some("Good"), ValidStatus)
  {
    db := new Database(EmptyTable());
    var req := VisitRequest(
      Some("7"), None, Some("Acme Foods"), None, None, Some("555-1111"), None, None,
      None, None, None, None, Some("[{\"type\":\"ABC Dry Powder\",\"capacity\":\"6kg\",\"quantity\":2,\"condition\":\"Good\"}]"));
    var item := ItemFields(Some("ABC Dry Powder"), Some("6kg"), Some("2"), None, None, None, Some("Good"));
    var fx := VisitEffects(1000, 1001, 0, Ok, Ok, ParsedArray([Item(item)]), true, Ok);
    ghost var before := db.State();
    resp := LogVisit(db, req, fx);
    FirstLeadVisit(before, db.State(), resp, req, fx, item);
    AffinityOfDecimal(7);
    assert NatToString(7) == "7";
  }
}
