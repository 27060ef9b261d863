/**
 * The rows of the tables the route handlers read and write. Columns a
 * handler never sets are absent (`None` or `Null`), standing for the
 * schema's default, which is not part of this model.
 */
module Schema {
  import opened Wrappers
  import opened Js
  import opened Sql

  datatype Customer = Customer(
    businessName: Field, ownerName: Field, email: string, password: string,
    phone: Field, address: Field, businessType: Field,
    status: Field, qrCodeUrl: Field,
    locationLat: Field, locationLng: Field,
    createdAt: int)

  datatype Agent = Agent(
    name: Field, email: Field, password: string, phone: Field, cnic: Field, territory: Field,
    status: string, profilePhoto: Field, cnicDocument: Field, termsAccepted: int,
    createdAt: int, locationLat: Field, locationLng: Field, lastActive: Field)

  datatype Admin = Admin(email: string, password: string)

  datatype Visit = Visit(
    agentId: Key, customerId: Key, customerName: Field, businessType: Field,
    notes: Field, riskAssessment: Field, serviceRecommendations: Field, followUpDate: Field,
    status: Field)

  datatype Extinguisher = Extinguisher(
    customerId: Key, visitId: Key, kind: Field, capacity: Field, quantity: Field,
    installDate: Field, lastRefillDate: Field, expiryDate: Field, condition: Field,
    status: string)

  datatype Service = Service(
    customerId: Key, serviceType: Field, scheduledDate: Field, notes: Field,
    status: Field, agentId: Key, requestDate: int)

  datatype ServiceItem = ServiceItem(serviceId: nat, extinguisherId: Key)

  const LeadStatus := "Lead"
  const PendingStatus := "Pending"
  const ActiveStatus := "Active"
  const SuspendedStatus := "Suspended"
  const ValidStatus := "Valid"
  const CompletedStatus := "Completed"

  /** Where a generated QR image is served from. */
  function QrUrl(fileName: string): string {
    "/uploads/qrcodes/" + fileName
  }

  function SetQr(url: string): Customer -> Customer {
    (c: Customer) => c.(qrCodeUrl := Some(url))
  }

  /**
   * The QR back-reference: `UPDATE customers SET qr_code_url = ? WHERE id = ?`,
   * issued only when the QR file was written, and effective only when that
   * update succeeds. Customer `id` ends up referencing `url` exactly when
   * both steps succeeded; nothing else in the table changes.
   */
  function AttachQr(t: Table<Customer>, id: nat, url: string, written: bool, update: DbOutcome): (r: Table<Customer>)
    ensures |r.rows| == |t.rows| && r.nextId == t.nextId
    ensures forall i :: 0 <= i < |t.rows| && t.rows[i].id != id ==> r.rows[i] == t.rows[i]
    ensures forall i :: 0 <= i < |t.rows| && t.rows[i].id == id ==>
      r.rows[i] == (if written && update.Ok? then Row(id, t.rows[i].val.(qrCodeUrl := Some(url))) else t.rows[i])
    ensures WellFormed(t) ==> WellFormed(r)
  {
    if written && update.Ok? then UpdateWhere(t, Int(id), SetQr(url)) else t
  }
}
