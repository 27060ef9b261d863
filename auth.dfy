/**
 * The authentication routes: agent and customer registration, and the one
 * login endpoint shared by the three roles. Password hashing and comparison
 * are foreign calls: a registration receives the hash of the supplied
 * password, and login receives the comparison as a predicate `matches`.
 * Token signing is left out; a token is its claims.
 */
module Auth {
  import opened Wrappers
  import opened Js
  import opened Text
  import opened Sql
  import opened Schema
  import opened Db
  import opened Http

  /** What `bcrypt.hashSync` and `bcrypt.compareSync` throw when the password is not a string. */
  const IllegalArguments := "Illegal arguments"

  // ---------------------------------------------------------------------
  // POST /register/agent

  /** The multipart form of an agent registration, with the stored names of the uploaded files. */
  datatype AgentForm = AgentForm(
    name: Field, email: Field, password: Field, phone: Field, cnic: Field, territory: Field,
    termsAccepted: JsValue, profilePhoto: Field, cnicDocument: Field)

  /** `terms_accepted === 'true' || terms_accepted === true ? 1 : 0`: strict equality, so no other spelling counts. */
  function TermsFlag(v: JsValue): (r: int)
    ensures r == 0 || r == 1
  {
    if v == JsValue.Str("true") || v == Bool(true) then 1 else 0
  }

  /** Only the text "true" and the boolean true are acceptance; a checkbox's "on", "1", "TRUE" and the number 1 are not. */
  lemma TermsFlagSpec(v: JsValue)
    ensures TermsFlag(v) == 1 <==> v == JsValue.Str("true") || v == Bool(true)
    ensures TermsFlag(JsValue.Str("on")) == 0 && TermsFlag(JsValue.Str("1")) == 0
    ensures TermsFlag(JsValue.Str("TRUE")) == 0 && TermsFlag(Num(1)) == 0
  {
  }

  function NewAgent(f: AgentForm, hash: string, dbTime: int): Agent {
    Agent(f.name, f.email, hash, f.phone, f.cnic, f.territory, PendingStatus,
          f.profilePhoto, f.cnicDocument, TermsFlag(f.termsAccepted), dbTime, None, None, None)
  }

  /**
   * `POST /register/agent`. Hashing a missing password throws before
   * anything is written. Otherwise one agent is inserted, always as
   * Pending, and the reply names its id; a failed insert changes nothing.
   */
  method RegisterAgent(db: Database, f: AgentForm, hash: string, dbTime: int, insert: DbOutcome) returns (resp: Response)
    requires db.Valid()
    modifies db
    ensures db.Valid()
    ensures f.password.None? ==> resp == Response(500, Uncaught(IllegalArguments)) && db.State() == old(db.State())
    ensures f.password.Some? && insert.Fail? ==>
      resp == ErrorWithDetails(500, "Error registering agent", insert.message) && db.State() == old(db.State())
    ensures f.password.Some? && insert.Ok? ==>
      && resp == Response(201, Created("Agent registered successfully. Pending Admin Approval.", old(db.agents.nextId)))
      && db.State() == old(db.State()).(agents := Insert(old(db.agents), NewAgent(f, hash, dbTime)))
  {
    if f.password.None? {
      return Response(500, Uncaught(IllegalArguments));
    }
    var r := db.InsertAgent(NewAgent(f, hash, dbTime), insert);
    if r.Failure? {
      return ErrorWithDetails(500, "Error registering agent", r.error);
    }
    resp := Response(201, Created("Agent registered successfully. Pending Admin Approval.", r.value));
  }

  /**
   * A registered agent is appended under a fresh id with status Pending and
   * the hashed password, never the password itself unless the hash is it;
   * no existing agent changes.
   */
  lemma RegisteredAgentSpec(t: Table<Agent>, f: AgentForm, hash: string, dbTime: int)
    requires WellFormed(t)
    ensures var r := Insert(t, NewAgent(f, hash, dbTime));
      && WellFormed(r) && r.rows[..|t.rows|] == t.rows
      && r.rows[|t.rows|].id == t.nextId
      && r.rows[|t.rows|].val.status == PendingStatus
      && r.rows[|t.rows|].val.password == hash
      && r.rows[|t.rows|].val.email == f.email
      && (r.rows[|t.rows|].val.termsAccepted == 1 <==> f.termsAccepted == JsValue.Str("true") || f.termsAccepted == Bool(true))
  {
    TermsFlagSpec(f.termsAccepted);
  }

  // ---------------------------------------------------------------------
  // POST /register/customer

  datatype CustomerForm = CustomerForm(
    businessName: Field, ownerName: Field, email: Field, password: Field,
    phone: Field, address: Field, businessType: Field)

  /** Everything outside the request that decides the registration's course. */
  datatype RegistrationEffects = RegistrationEffects(
    hash: string,           // bcrypt.hashSync(password, 8)
    now: nat,               // Date.now() for the fallback email
    rand: nat,              // Math.floor(Math.random() * 1000)
    dbTime: int,            // created_at the database gives the row
    insert: DbOutcome,
    qrNow: nat,             // Date.now() for the QR file name
    qrWritten: bool,        // QRCode.toFile reported no error
    qrUpdate: DbOutcome)

  function PlaceholderEmail(now: nat, rand: nat): string {
    "no-email-" + NatToString(now) + "-" + NatToString(rand) + "@aixos-placeholder.com"
  }

  /**
   * `if (!finalEmail || finalEmail.trim() === '')`: a missing, empty or
   * whitespace-only email is replaced by the placeholder address; any other
   * email is stored exactly as supplied, surrounding spaces included.
   */
  function CustomerEmail(email: Field, now: nat, rand: nat): (r: string)
    ensures email.Some? && !IsBlank(email.value) ==> r == email.value
    ensures email.None? || IsBlank(email.value) ==> r == PlaceholderEmail(now, rand)
  {
    if email.None? then PlaceholderEmail(now, rand)
    else
      TrimEmptyIffBlank(email.value);
      if Trim(email.value) == "" then PlaceholderEmail(now, rand) else email.value
  }

  /** Two placeholder addresses coincide exactly when both the timestamp and the random suffix do. */
  lemma PlaceholderEmailsDistinct(now1: nat, rand1: nat, now2: nat, rand2: nat)
    ensures PlaceholderEmail(now1, rand1) == PlaceholderEmail(now2, rand2) <==> now1 == now2 && rand1 == rand2
  {
    if PlaceholderEmail(now1, rand1) == PlaceholderEmail(now2, rand2) {
      var a, b := NatToString(now1), NatToString(rand1);
      var a', b' := NatToString(now2), NatToString(rand2);
      var prefix, suffix := "no-email-", "@aixos-placeholder.com";
      assert PlaceholderEmail(now1, rand1) == prefix + (a + ['-'] + b) + suffix;
      assert PlaceholderEmail(now2, rand2) == prefix + (a' + ['-'] + b') + suffix;
      CancelAffixes(prefix, a + ['-'] + b, a' + ['-'] + b', suffix);
      assert !IsDigit('-');
      SplitAtSeparator(a, b, a', b', '-');
      NatToStringInjective(now1, now2);
      NatToStringInjective(rand1, rand2);
    }
  }

  function NewCustomer(f: CustomerForm, fx: RegistrationEffects): Customer {
    Customer(f.businessName, f.ownerName, CustomerEmail(f.email, fx.now, fx.rand), fx.hash,
             f.phone, f.address, f.businessType, None, None, None, None, fx.dbTime)
  }

  function CustomerQrFileName(id: nat, qrNow: nat): string {
    "qr-customer-" + NatToString(id) + "-" + NatToString(qrNow) + ".png"
  }

  /** The customers table after a registration whose insert succeeded. */
  function RegisteredTable(t: Table<Customer>, f: CustomerForm, fx: RegistrationEffects): Table<Customer> {
    AttachQr(Insert(t, NewCustomer(f, fx)), t.nextId, QrUrl(CustomerQrFileName(t.nextId, fx.qrNow)), fx.qrWritten, fx.qrUpdate)
  }

  /**
   * The reply to a registration whose insert succeeded: once the QR file is
   * written the reply names its URL, whether or not the back-reference
   * update succeeded.
   */
  function RegisteredReply(id: nat, fx: RegistrationEffects): Response {
    if fx.qrWritten then
      Response(201, CustomerRegistered("Customer registered successfully", id, Some(QrUrl(CustomerQrFileName(id, fx.qrNow)))))
    else
      Response(201, CustomerRegistered("Customer registered (QR failed)", id, None))
  }

  /**
   * `POST /register/customer`. Hashing a missing password throws before
   * anything is written; a failed insert answers 500 and does no QR work.
   * Otherwise exactly one customer is appended and the reply is 201.
   */
  method RegisterCustomer(db: Database, f: CustomerForm, fx: RegistrationEffects) returns (resp: Response)
    requires db.Valid()
    modifies db
    ensures db.Valid()
    ensures f.password.None? ==> resp == Response(500, Uncaught(IllegalArguments)) && db.State() == old(db.State())
    ensures f.password.Some? && fx.insert.Fail? ==>
      resp == ErrorWithDetails(500, "Error registering customer", fx.insert.message) && db.State() == old(db.State())
    ensures f.password.Some? && fx.insert.Ok? ==>
      && resp == RegisteredReply(old(db.customers.nextId), fx)
      && db.State() == old(db.State()).(customers := RegisteredTable(old(db.customers), f, fx))
  {
    if f.password.None? {
      return Response(500, Uncaught(IllegalArguments));
    }
    var r := db.InsertCustomer(NewCustomer(f, fx), fx.insert);
    if r.Failure? {
      return ErrorWithDetails(500, "Error registering customer", r.error);
    }
    var customerId := r.value;
    if !fx.qrWritten {
      return Response(201, CustomerRegistered("Customer registered (QR failed)", customerId, None));
    }
    var qrUrl := QrUrl(CustomerQrFileName(customerId, fx.qrNow));
    var _ := db.UpdateCustomers(Int(customerId), SetQr(qrUrl), fx.qrUpdate);
    resp := Response(201, CustomerRegistered("Customer registered successfully", customerId, Some(qrUrl)));
  }

  /**
   * A registration appends one customer under a fresh id, with the hashed
   * password and the email rule applied, leaving existing customers alone.
   * Its QR reference is stored exactly when the file was written and the
   * update succeeded, while the reply advertises one whenever the file was
   * written, so a failed update leaves a reply naming a URL the row lacks.
   */
  lemma RegisteredCustomerSpec(t: Table<Customer>, f: CustomerForm, fx: RegistrationEffects)
    requires WellFormed(t)
    ensures var r := RegisteredTable(t, f, fx);
      && WellFormed(r) && |r.rows| == |t.rows| + 1 && r.rows[..|t.rows|] == t.rows
      && r.rows[|t.rows|].id == t.nextId
      && r.rows[|t.rows|].val.password == fx.hash
      && r.rows[|t.rows|].val.email == CustomerEmail(f.email, fx.now, fx.rand)
      && r.rows[|t.rows|].val.qrCodeUrl ==
           (if fx.qrWritten && fx.qrUpdate.Ok? then Some(QrUrl(CustomerQrFileName(t.nextId, fx.qrNow))) else None)
      && RegisteredReply(t.nextId, fx).body.qrCodeUrl ==
           (if fx.qrWritten then Some(QrUrl(CustomerQrFileName(t.nextId, fx.qrNow))) else None)
  {
    var u := Insert(t, NewCustomer(f, fx));
    var r := RegisteredTable(t, f, fx);
    assert u.rows[|t.rows|].id == t.nextId;
    forall i | 0 <= i < |t.rows| ensures r.rows[i] == t.rows[i] {
      assert u.rows[i] == t.rows[i];
    }
  }

  // ---------------------------------------------------------------------
  // POST /login

  datatype Credentials = Credentials(email: Field, password: Field, role: Field)

  /** The roles that name a table; any other role is refused before the store is read. */
  predicate IsRole(role: Field) {
    role == Some("agent") || role == Some("customer") || role == Some("admin")
  }

  /** `WHERE email = ?`: a missing email is bound as NULL and matches no row. */
  predicate EmailIs(given: Field, stored: Field) {
    given.Some? && stored == given
  }

  predicate AgentHasEmail(email: Field, a: Row<Agent>) {
    EmailIs(email, a.val.email)
  }

  predicate CustomerHasEmail(email: Field, c: Row<Customer>) {
    EmailIs(email, Some(c.val.email))
  }

  predicate AdminHasEmail(email: Field, a: Row<Admin>) {
    EmailIs(email, Some(a.val.email))
  }

  /**
   * `SELECT * FROM <table> WHERE email = ?` with `db.get`: the first row of
   * the role's table carrying that email. "agent" reads agents, "customer"
   * reads customers and any other role (only "admin" reaches here) admins.
   */
  function FindUser(s: Tables, role: string, email: Field): (r: Option<User>)
    ensures role == "agent" ==>
      && (r.None? <==> forall i :: 0 <= i < |s.agents.rows| ==> !AgentHasEmail(email, s.agents.rows[i]))
      && (r.Some? ==> r.value.AgentUser? && r.value.agent in s.agents.rows && AgentHasEmail(email, r.value.agent))
    ensures role == "customer" ==>
      && (r.None? <==> forall i :: 0 <= i < |s.customers.rows| ==> !CustomerHasEmail(email, s.customers.rows[i]))
      && (r.Some? ==> r.value.CustomerUser? && r.value.customer in s.customers.rows && CustomerHasEmail(email, r.value.customer))
    ensures role != "agent" && role != "customer" ==>
      && (r.None? <==> forall i :: 0 <= i < |s.admins.rows| ==> !AdminHasEmail(email, s.admins.rows[i]))
      && (r.Some? ==> r.value.AdminUser? && r.value.admin in s.admins.rows && AdminHasEmail(email, r.value.admin))
  {
    if role == "agent" then
      var a := First(s.agents.rows, (x: Row<Agent>) => AgentHasEmail(email, x));
      if a.Some? then Some(AgentUser(a.value)) else None
    else if role == "customer" then
      var c := First(s.customers.rows, (x: Row<Customer>) => CustomerHasEmail(email, x));
      if c.Some? then Some(CustomerUser(c.value)) else None
    else
      var a := First(s.admins.rows, (x: Row<Admin>) => AdminHasEmail(email, x));
      if a.Some? then Some(AdminUser(a.value)) else None
  }

  /** `role === 'agent' && user.status !== 'Active'` is the only status gate; customers and admins have none. */
  predicate Approved(u: User) {
    u.AgentUser? ==> u.agent.val.status == ActiveStatus
  }

  /**
   * The login decision once the role is known to name a table: a failed
   * read is 500, a missing user 404, a wrong password 401 and an agent that
   * is not Active 403, checked in that order; only a user passing all of
   * them receives a token with its id and the role. The pending-approval
   * answer is given only to a caller who knows the password.
   */
  function LoginReply(c: Credentials, read: DbOutcome, user: Option<User>, matches: (string, string) -> bool): (r: Response)
    requires IsRole(c.role)
    ensures read.Fail? ==> r == ErrorReply(500, "Server error")
    ensures read.Ok? && user.None? ==> r == ErrorReply(404, "User not found")
    ensures r.status == 200 <==>
      read.Ok? && user.Some? && c.password.Some? && matches(c.password.value, user.value.PasswordHash()) && Approved(user.value)
    ensures r.status == 200 ==> r.body == LoginOk(true, Token(user.value.Id(), c.role.value), user.value)
    ensures r.status == 401 <==>
      read.Ok? && user.Some? && c.password.Some? && !matches(c.password.value, user.value.PasswordHash())
    ensures r.status == 403 <==>
      read.Ok? && user.Some? && c.password.Some? && matches(c.password.value, user.value.PasswordHash()) && !Approved(user.value)
  {
    if read.Fail? then ErrorReply(500, "Server error")
    else if user.None? then ErrorReply(404, "User not found")
    else if c.password.None? then Response(500, Uncaught(IllegalArguments))
    else if !matches(c.password.value, user.value.PasswordHash()) then ErrorReply(401, "Invalid password")
    else if !Approved(user.value) then ErrorReply(403, "Account is pending approval. Please contact admin.")
    else Json(LoginOk(true, Token(user.value.Id(), c.role.value), user.value))
  }

  /**
   * `POST /login`. A role other than agent, customer or admin is 400 before
   * the store is read; otherwise the user found in the role's table is
   * judged by `LoginReply`. Nothing is written.
   */
  method Login(db: Database, c: Credentials, read: DbOutcome, matches: (string, string) -> bool) returns (resp: Response)
    requires db.Valid()
    ensures !IsRole(c.role) ==> resp == ErrorReply(400, "Invalid role")
    ensures IsRole(c.role) ==> resp == LoginReply(c, read, FindUser(db.State(), c.role.value, c.email), matches)
  {
    var table: string;
    if c.role == Some("agent") {
      table := "agents";
    } else if c.role == Some("customer") {
      table := "customers";
    } else if c.role == Some("admin") {
      table := "admins";
    } else {
      return ErrorReply(400, "Invalid role");
    }
    if read.Fail? {
      return ErrorReply(500, "Server error");
    }
    var user := FindUser(db.State(), c.role.value, c.email);
    if user.None? {
      return ErrorReply(404, "User not found");
    }
    if c.password.None? {
      return Response(500, Uncaught(IllegalArguments));
    }
    if !matches(c.password.value, user.value.PasswordHash()) {
      return ErrorReply(401, "Invalid password");
    }
    if c.role == Some("agent") && user.value.agent.val.status != ActiveStatus {
      return ErrorReply(403, "Account is pending approval. Please contact admin.");
    }
    resp := Json(LoginOk(true, Token(user.value.Id(), c.role.value), user.value));
  }

  /**
   * A freshly registered agent cannot log in, whatever password and store
   * read: its status is Pending until an administrator approves it.
   */
  lemma RegisteredAgentCannotLogIn(t: Table<Agent>, f: AgentForm, hash: string, dbTime: int,
                                   c: Credentials, read: DbOutcome, matches: (string, string) -> bool)
    requires c.role == Some("agent")
    ensures LoginReply(c, read, Some(AgentUser(Row(t.nextId, NewAgent(f, hash, dbTime)))), matches).status != 200
  {
  }
}
