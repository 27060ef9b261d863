/**
 * What a handler sends back: an HTTP status and a JSON body. Each body
 * variant is one of the object shapes the handlers pass to `res.json`;
 * list bodies carry exactly the columns the query selects.
 */
module Http {
  import opened Wrappers
  import opened Js
  import opened Sql
  import opened Schema

  /** The claims a login token carries, `{id, role}`; signing and expiry are not modelled. */
  datatype Token = Token(id: nat, role: string)

  /** A row returned by `SELECT * FROM <table> WHERE email = ?` at login. */
  datatype User = AgentUser(agent: Row<Agent>) | CustomerUser(customer: Row<Customer>) | AdminUser(admin: Row<Admin>) {
    function Id(): nat {
      match this
      case AgentUser(r) => r.id
      case CustomerUser(r) => r.id
      case AdminUser(r) => r.id
    }

    function PasswordHash(): string {
      match this
      case AgentUser(r) => r.val.password
      case CustomerUser(r) => r.val.password
      case AdminUser(r) => r.val.password
    }
  }

  /** `SELECT id, business_name, owner_name, email, phone, address, business_type FROM customers`. */
  datatype CustomerSummary = CustomerSummary(
    id: nat, businessName: Field, ownerName: Field, email: string,
    phone: Field, address: Field, businessType: Field)

  /** The admin customer listing: the summary columns plus status and created_at. */
  datatype CustomerListing = CustomerListing(
    id: nat, businessName: Field, ownerName: Field, email: string,
    phone: Field, address: Field, businessType: Field, status: Field, createdAt: int)

  /** The admin agent listing: every agent column except password, terms and location. */
  datatype AgentListing = AgentListing(
    id: nat, name: Field, email: Field, phone: Field, cnic: Field, territory: Field,
    status: string, createdAt: int, profilePhoto: Field, cnicDocument: Field)

  datatype MapAgent = MapAgent(
    id: nat, name: Field, email: Field, territory: Field, status: string,
    locationLat: Field, locationLng: Field, lastActive: Field)

  datatype MapCustomer = MapCustomer(
    id: nat, businessName: Field, address: Field, status: Field,
    locationLat: Field, locationLng: Field)

  /** `s.*, c.business_name, a.name as agent_name` of the service listing. */
  datatype ServiceView = ServiceView(service: Row<Service>, businessName: Field, agentName: Field)

  datatype Body =
    | Message(message: string)
    | Created(message: string, id: nat)
    | VisitLogged(message: string, visitId: nat)
    | CustomerRegistered(message: string, id: nat, qrCodeUrl: Option<string>)
    | Error(error: string, details: Option<string>)
      /** An exception thrown by the handler instead of a reply it builds. */
    | Uncaught(reason: string)
    | LoginOk(auth: bool, token: Token, user: User)
    | CustomerMatches(customers: seq<CustomerSummary>)
    | AgentStats(totalVisits: nat, conversions: nat, earnings: nat)
    | AgentList(agents: seq<AgentListing>)
    | AdminStats(totalAgents: nat, pendingAgents: nat, totalCustomers: nat, totalServices: nat)
    | MapData(mapAgents: seq<MapAgent>, mapCustomers: seq<MapCustomer>)
    | CustomerList(listing: seq<CustomerListing>)
    | Dashboard(extinguishers: seq<Row<Extinguisher>>, services: seq<Row<Service>>)
    | Inventory(items: seq<Row<Extinguisher>>)
    | ServiceList(views: seq<ServiceView>)

  datatype Response = Response(status: int, body: Body)

  /** `res.json(body)`: status 200. */
  function Json(body: Body): Response {
    Response(200, body)
  }

  function ErrorReply(status: int, error: string): Response {
    Response(status, Error(error, None))
  }

  /** `{ error, details: err.message }`. */
  function ErrorWithDetails(status: int, error: string, details: string): Response {
    Response(status, Error(error, Some(details)))
  }
}
