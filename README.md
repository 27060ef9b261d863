# aixos backend routes — a Dafny model

This project models the Express route handlers of the aixos fire-safety
marketplace backend. The model treats them as operations on a relational
store. Each SQLite table is a `Table<R>`: rows in insertion order, each
with an auto-increment id, plus the id the next insert will get. The tables
are customers, agents, admins, visits, extinguishers, services and
service_items.

The store is a class, `Db.Database`. It has one field per table and one
primitive per kind of `db.run` statement:
- insert, which returns the new id;
- update by id.

Each handler is a method on that store that returns a `Response`: an HTTP
status and a JSON body. Read-only handlers change nothing. Writing handlers
say exactly what the new state is, in terms of pure functions on the old
tables. Lemmas then prove what those functions promise.

Some things the handlers depend on are not in the handler code. They enter
the model as parameters:
- whether the database accepted a statement (`DbOutcome`: `Ok` or `Fail(message)`);
- what `JSON.parse` produced;
- whether `QRCode.toFile` succeeded;
- the values of `Date.now()` and `Math.random()`;
- the bcrypt hash of a password;
- the bcrypt comparison, as a predicate `matches`;
- the `created_at` / `request_date` timestamps the database fills in.

Request values are JavaScript values. A body field is modelled as text or
absent (`Js.Field`). JavaScript truthiness is `Js.Truthy`: the field is
present and not empty.

An id reaches an INTEGER column through SQLite type affinity (`Sql.Affinity`):
- unsigned decimal text becomes that integer;
- any other text stays text and so matches no id;
- an absent value becomes NULL, and NULL equals nothing (`Sql.SqlEq`).

Modules, in dependency order:
- `Wrappers`: Option and Result.
- `Js`: Field, truthiness and JSON values.
- `Text`: decimal rendering and parsing, JavaScript `trim` whitespace, and ASCII case-insensitive substring (`LIKE '%q%'`).
- `Sql`: keys, affinity, tables, filtered, projected, limited and ordered reads, and the first-row lookup.
- `Schema`: row types and the QR back-reference update.
- `Db`: the store class.
- `Http`: responses.
- One module per route file: `Agents`, `Auth`, `Admin`, `Customers`, `Services`.
- `Scenario`: the worked "Acme Foods" visit on an empty store.

Points where the handlers behave in a way a reader might not expect:
- **Visit response.** A successful visit answers `{message, visitId}` only, with no customer id (backend/routes/agents.js:85).
- **No validation step.** There is no validation step for a new lead. A missing required field can only show up as the store rejecting the lead insert.
- **Inventory parse failures.** An inventory that fails to parse inserts nothing. An array holding a `null` element is different: items before the `null` are inserted, and the throw at the `null` stops the loop (backend/routes/agents.js:75-77).
- **Fallback lead email.** It is unique only when the timestamps differ (`Agents.LeadFallbackEmailsDistinct`).

## Model

| member | source | states |
|---|---|---|
| Agents.SearchResultSpec | backend/routes/agents.js:24-27 | the search answer holds min(10, matches) customers; each is the projection of a customer whose business name or phone contains the query (ASCII case-insensitive); ids increase; with at most 10 matches every one is present |
| Agents.SearchCustomers | backend/routes/agents.js:20-32 | a missing or empty query answers `[]` and reads nothing; a failed read answers 500 "DB Error"; otherwise the answer is the search result over the customers table |
| Agents.LeadEmail | backend/routes/agents.js:96 | a truthy supplied email is kept; the stored lead email is never empty |
| Agents.LeadFallbackEmailsDistinct | backend/routes/agents.js:96 | two fallback `lead-<now>@temp.com` emails differ whenever their timestamps differ |
| Agents.LeadTableSpec | backend/routes/agents.js:94-118 | provisioning a lead appends exactly one customer under a fresh id, with status Lead, the placeholder password and the email rule; its business name, owner name, phone, address and business type come from the request, and every other column is the lead-insert row's (no coordinates, the database's created_at); existing customers are unchanged; its qr_code_url is set exactly when the QR file was written and the update succeeded |
| Agents.DuplicateLeadsAreDistinct | backend/routes/agents.js:98-103 | two leads provisioned from identical data are two Lead customers with distinct ids |
| Agents.FormDataNullIsTrusted | backend/routes/agents.js:90-91 | the string "null" that FormData sends for a null customer_id is truthy, is stored as text, and references no customer id |
| Agents.Readable | backend/routes/agents.js:75-77 | the descriptors inserted are the prefix of the array before its first `null` element, each taken from the element at the same position |
| Agents.BatchSpec | backend/routes/agents.js:63-65 | a missing, empty, unparsable or non-array inventory yields no descriptors; an array without `null` elements yields one per element, in order |
| Agents.VisitRow | backend/routes/agents.js:54-56 | the visit row binds agent_id by INTEGER affinity, the resolved customer, and the request's business name, business type, notes, risk assessment, recommendations and follow-up date; status is left unset |
| Agents.ItemRow | backend/routes/agents.js:76 | an inventory row carries the resolved customer, the new visit id, status Valid, and the descriptor's type, capacity, quantity and condition |
| Agents.InventoryRowsSpec | backend/routes/agents.js:73-77 | the batch appends exactly one extinguisher row per descriptor, in order, under consecutive fresh ids, and leaves the existing rows unchanged |
| Agents.InsertInventory | backend/routes/agents.js:75-78 | the loop leaves the extinguishers table equal to the batch insert of the readable descriptors; no other table changes |
| Agents.ProcessVisit | backend/routes/agents.js:53-88 | a failed visit insert changes nothing and answers 500 "Failed to log visit" with the error; otherwise the visit row and then the inventory batch are written, and the answer is 201 with the new visit id whatever the inventory did |
| Agents.LogVisit | backend/routes/agents.js:90-123 | a truthy customer_id is used as given, with no customer written; otherwise a lead is inserted first, and if that fails the answer is 500 "Failed to create lead customer" with nothing written; the visit then references the new id, and the reply does not depend on the QR outcome |
| Agents.SumCompleted | backend/routes/agents.js:132 | the SUM of completed visits is NULL exactly when the agent has no visits |
| Agents.GetAgentStats | backend/routes/agents.js:127-160 | totalVisits is the agent's visit count; conversions is the completed-visit count, 0 when there are no visits; conversions ≤ totalVisits; earnings = 50 × conversions; a failed read answers 500 with the error message |
| Agents.UpdateAgentLocation | backend/routes/agents.js:182-193 | only the agent with that id changes: its latitude, longitude and last_active; "DB Error" on failure |
| Auth.TermsFlag | backend/routes/auth.js:35 | the stored terms flag is 0 or 1 |
| Auth.TermsFlagSpec | backend/routes/auth.js:35 | the flag is 1 exactly for the string "true" or the boolean true; "on", "1", "TRUE" and the number 1 give 0 |
| Auth.RegisterAgent | backend/routes/auth.js:25-47 | a missing password throws before any write; a failed insert answers 500 "Error registering agent" with details and writes nothing; otherwise one agent is appended and the answer is 201 with its id |
| Auth.RegisteredAgentSpec | backend/routes/auth.js:37-38 | a registered agent gets a fresh id, status Pending, the hashed password, the given email and the terms flag rule; existing agents are unchanged |
| Auth.CustomerEmail | backend/routes/auth.js:59-62 | a missing, empty or whitespace-only email (JavaScript `trim` whitespace) becomes the placeholder address; any other email is stored exactly as given |
| Auth.PlaceholderEmailsDistinct | backend/routes/auth.js:61 | two placeholder addresses are equal exactly when both the timestamp and the random suffix are equal |
| Auth.RegisterCustomer | backend/routes/auth.js:50-111 | a missing password throws before any write; a failed insert answers 500 "Error registering customer" and does no QR work; otherwise one customer is appended and the answer is 201 "(QR failed)" without a URL, or "successfully" with the QR URL |
| Auth.RegisteredCustomerSpec | backend/routes/auth.js:64-106 | the new customer gets a fresh id, the hash and the email rule, and existing rows are unchanged; its qr_code_url is stored exactly when the file was written and the update succeeded, while the reply names the URL whenever the file was written |
| Auth.FindUser | backend/routes/auth.js:117-123 | agent reads agents, customer reads customers, admin reads admins; the user found is a row of that table with that email; no user is found exactly when no row has it |
| Auth.LoginReply | backend/routes/auth.js:124-136 | checks run in order: a failed read gives 500, a missing user 404, a wrong password 401, an agent that is not Active 403; the answer is 200 exactly when all of them pass, and then it carries a token with the user's id and the role; 403 tells only a caller who knows the password |
| Auth.Login | backend/routes/auth.js:114-138 | a role other than agent, customer or admin answers 400 "Invalid role" before any read; otherwise the answer is the login decision for the user found in the role's table |
| Auth.RegisteredAgentCannotLogIn | backend/routes/auth.js:131-133 | a freshly registered agent can never log in, whatever the password |
| Admin.ListedAgentsSpec | backend/routes/admin.js:7-16 | the listing is newest first; without a status it holds every agent as often as the table does; with a status it holds exactly the agents with that status |
| Admin.ListAgents | backend/routes/admin.js:6-22 | the answer is the listing projected without passwords, or 500 "DB Error" |
| Admin.SetStatusSpec | backend/routes/admin.js:27 | the status update changes exactly the status of the agent with that id, and at most one row changes; an id that matches no agent changes nothing |
| Admin.ApprovalGatesLogin | backend/routes/admin.js:25-27 | after approval an agent with the right password logs in (200); before approval a non-Active agent with the right password gets 403 |
| Admin.ApproveAgent | backend/routes/admin.js:25-31 | the agent with that id becomes Active and the answer is "Agent approved successfully", even if no agent has that id; "DB update failed" on failure |
| Admin.RejectAgent | backend/routes/admin.js:34-40 | the agent with that id becomes Suspended and the answer is "Agent rejected"; "DB update failed" on failure |
| Admin.CountOrZero | backend/routes/admin.js:47 | a count is reported as is, or as 0 when its query failed |
| Admin.GetAdminStats | backend/routes/admin.js:43-72 | the answer is always 200 with the counts of agents, Pending agents, customers and services, each 0 on failure; pendingAgents ≤ totalAgents whenever the agent count succeeded |
| Admin.GetMapData | backend/routes/admin.js:75-110 | an agent appears exactly when it is Active; every customer appears; either failed read answers 500 with its message |
| Admin.ListCustomers | backend/routes/admin.js:113-123 | every customer appears exactly once, newest first, without passwords; 500 with the message on failure |
| Customers.GetInventory | backend/routes/customers.js:20-26 | exactly the extinguishers whose customer_id matches, in table order; 500 "Error fetching inventory" on failure |
| Customers.RecentServicesSpec | backend/routes/customers.js:12 | at most 5 of the customer's services, newest request first; with 5 or fewer, all of them |
| Customers.RecentServicesAreNewest | backend/routes/customers.js:12 | no service of the customer that is left out was requested later than one that is shown |
| Customers.GetDashboard | backend/routes/customers.js:6-17 | all the customer's extinguishers plus the recent services; the errors are checked in order, "Error fetching inventory" then "Error fetching history" |
| Customers.BookedItemsSpec | backend/routes/customers.js:49-55 | the batch appends one service item per asset id, in order, each linked to the new service and to that asset |
| Customers.InsertServiceItems | backend/routes/customers.js:51-53 | the loop leaves service_items equal to the batch insert of the asset ids; nothing else changes |
| Customers.BookService | backend/routes/customers.js:38-60 | a failed service insert answers 500 with its message and writes nothing; otherwise one service row and then one item per asset id are written (none for missing or empty assetIds), and the answer is 201 with the service id |
| Customers.AddedExtinguisher | backend/routes/customers.js:65-66 | an added extinguisher has status Valid, the given customer, no visit, and the given type, quantity and expiry |
| Customers.AddExtinguisher | backend/routes/customers.js:63-72 | one extinguisher is appended and the answer is 201 "Extinguisher added" with its id, or 500 with the message and no write |
| Customers.CustomerLocationSpec | backend/routes/customers.js:77-78 | the location update changes only latitude and longitude, and only for the customer with that id |
| Customers.UpdateCustomerLocation | backend/routes/customers.js:75-84 | the customers table becomes that update, and the answer is "Location updated", or "DB Error" with nothing changed |
| Services.ServiceViewsSpec | backend/routes/services.js:7-10 | there is one entry per service, in order, even when its customer or agent row is missing; the joined names come from the row with the referenced id, and are NULL when there is none |
| Services.ListServices | backend/routes/services.js:6-14 | every service appears with its joined names; 500 "Error fetching services" on failure |
| Services.AssignmentTexts | backend/routes/services.js:22-26 | the SET lists of the two possible statements are `status = ?` and `status = ?, agent_id = ?` |
| Services.BoundIsStatusUpdate | backend/routes/services.js:22-31 | binding the parameters of either statement in placeholder order sets the status, and the agent only in the longer statement |
| Services.BuildStatusUpdate | backend/routes/services.js:21-31 | the statement is `UPDATE services SET <assignments> WHERE id = ?`; the parameters are [status, agentId?, serviceId] in placeholder order; status is always assigned, and agent_id exactly when agentId is truthy; binding them performs the intended change |
| Services.UpdateServiceStatus | backend/routes/services.js:17-37 | only the service with that id changes: its status always, and its agent only when agentId is truthy; 500 with the message on failure, otherwise "Service updated" |
| Services.StatusUpdateSpec | backend/routes/services.js:22-28 | the matched service gets the status (NULL when none is given) and keeps its agent unless one is given; every other column and every other row is unchanged |
| Scenario.FirstLeadVisit | backend/routes/agents.js:35-124 | on an empty store, a visit to a new business with a one-item inventory, every step succeeding, creates customer 1 as a Lead, visit 1 referencing it and one extinguisher row for the item, and answers 201 with visit id 1 |
| Scenario.AcmeFoodsVisit | backend/routes/agents.js:35-124 | agent 7 logging "Acme Foods" with one extinguisher creates one Lead customer (id 1), one visit referencing it, and one Valid extinguisher with quantity 2; the answer is 201 with visit id 1 |
| Schema.AttachQr | backend/routes/agents.js:113-117 | the QR back-reference changes only the new customer, and only when the file was written and the update succeeded |
| Sql.Affinity | backend/routes/agents.js:54-56 | a value binds as NULL exactly when it is absent; a value that stays text is text that is not an unsigned decimal |
| Sql.AffinityOfDecimal | backend/routes/agents.js:54-56 | the decimal text of an id binds as that integer id |
| Sql.Insert | backend/routes/agents.js:100-103 | `INSERT` appends one row whose id is the table's next id (`this.lastID`), leaves existing rows unchanged, and that id is new in a well-formed table |
| Sql.InsertAll | backend/routes/agents.js:73-78 | a prepared statement run once per value appends one row per value and advances the next id by that many |
| Sql.InsertAllShape | backend/routes/customers.js:50-54 | the batch's k-th row is the k-th value under id nextId + k, and the earlier rows are kept |
| Sql.Where | backend/routes/customers.js:22 | `WHERE` keeps only rows of the table that satisfy the filter, and keeps ids increasing |
| Sql.UpdateTouchesAtMostOne | backend/routes/admin.js:27 | in a well-formed table, `WHERE id = ?` matches at most one row |
| Db.Database.InsertCustomer | backend/routes/agents.js:98-101 | an accepted insert appends the customer and returns its id; a rejected one returns the error and changes nothing |
| Db.Database.InsertAgent | backend/routes/auth.js:37-43 | an accepted insert appends the agent and returns its id; a rejected one returns the error and changes nothing |
| Db.Database.InsertVisit | backend/routes/agents.js:54-60 | an accepted insert appends the visit and returns its id; a rejected one returns the error and changes nothing |
| Db.Database.InsertExtinguisher | backend/routes/customers.js:65-69 | an accepted insert appends the extinguisher and returns its id; a rejected one returns the error and changes nothing |
| Db.Database.InsertService | backend/routes/customers.js:41-46 | an accepted insert appends the service and returns its id; a rejected one returns the error and changes nothing |
| Db.Database.InsertServiceItem | backend/routes/customers.js:52 | an accepted insert appends the service item and returns its id; a rejected one changes nothing |
| Db.Database.UpdateCustomers | backend/routes/customers.js:77-80 | an accepted update applies to the customers with that id only; a rejected one changes nothing; the outcome is returned |
| Db.Database.UpdateAgents | backend/routes/admin.js:27-28 | an accepted update applies to the agents with that id only; a rejected one changes nothing; the outcome is returned |
| Db.Database.UpdateServices | backend/routes/services.js:33-34 | an accepted update applies to the services with that id only; a rejected one changes nothing; the outcome is returned |
| Sql.UpdateWhere | backend/routes/admin.js:27 | `UPDATE ... WHERE id = ?` replaces exactly the rows with that id, keeps ids and row count, and changes nothing when no row matches |
| Sql.Limit | backend/routes/agents.js:26 | `LIMIT n` keeps the first min(n, length) rows |
| Sql.OrderByDesc | backend/routes/admin.js:16 | `ORDER BY ... DESC` returns a permutation of its input, sorted by descending key |
| Sql.First | backend/routes/auth.js:123 | `db.get` returns the first row that satisfies the filter, or none exactly when no row does |
| Text.ContainsIffOccurs | backend/routes/agents.js:26-27 | the substring test behind `LIKE '%q%'` holds exactly when the query occurs at some position |
| Text.TrimEmptyIffBlank | backend/routes/auth.js:60 | `trim()` gives the empty string exactly when every character is JavaScript whitespace |

## Left out

- `GET /:id/my-customers` (backend/routes/agents.js:163-179): its `DISTINCT`/`MAX`/`GROUP BY` join is beyond the filters, orderings and limits this store model has.
- `GET /:id/history` (backend/routes/customers.js:29-35): it orders by `scheduled_date`, a nullable text column, and the model orders only by integer keys.
- Multer disk storage and upload file names (backend/routes/agents.js:8-17, backend/routes/auth.js:12-22): the stored file name reaches the agent form as an input. Uploaded files stay on disk even when registration fails; that is not modelled.
- `Auth.RegisterAgent`: assumes a multipart request. A non-multipart request leaves `req.files` undefined, so `req.files['profile_photo']` throws at backend/routes/auth.js:32 after the password is hashed; that case is not modelled.
- QR image rendering, its JSON content and the `fs` directory creation: only whether `QRCode.toFile` succeeded is an input.
- bcrypt and JWT: the hash is an input, the comparison is the `matches` predicate, and a token is just its claims `{id, role}`; signing, the secret and the 24-hour expiry are not modelled.
- The mock chart data (backend/routes/agents.js:138-145, backend/routes/admin.js:59-66) and the random fallback coordinates and `type` tag in the map data (backend/routes/admin.js:89-105): map entries carry the stored coordinates only.
- Callback timing: the lead's QR back-reference update is issued inside the `QRCode.toFile` callback (backend/routes/agents.js:113-117), after `processVisit` has issued the visit insert. The model applies it right after the lead insert, before the visit insert. It touches only the customers table, so the final tables are the same; the interleaving is not modelled.
- Concurrency: requests run one at a time, so duplicate-lead races between concurrent requests are not modelled.
- Extinguisher and service_item batch inserts (`stmt.run` without a callback): modelled as always succeeding, because their errors never reach the handler.
- Store constraints and schema defaults (NOT NULL, UNIQUE, the default status of a registered customer or a service): the outcome of each statement is an input, and a column the handler does not set is absent.
- `Sql.Affinity`: does not convert signed, fractional or space-padded numbers such as "+7", "7.0" or " 7", which SQLite stores as integers; the model keeps them as text.
- `Text.LikeContains`: treats `%` and `_` inside the query literally, whereas SQLite treats them as wildcards. Case folding is ASCII only, as in SQLite.
- Row order: `SELECT` and `LIMIT` without `ORDER BY` use table order. Among rows with equal `created_at` or `request_date`, `ORDER BY ... DESC` keeps one fixed order, whereas SQLite leaves that order unspecified.
- JSON values other than text: a body value is text or absent. A JSON `0` or `false` is falsy in JavaScript but would be modelled as text; `terms_accepted` alone is a full JSON value.
- `Customers.BookService`: assetIds is an array or absent; a truthy non-array (a string, say) makes `forEach` throw inside the callback, and that is not modelled.
- `Auth.Login`: a password that is not a string makes `compareSync` throw inside the callback, which would end the process. It is modelled as a 500 `Uncaught` answer, as the throw from `hashSync` at registration is.
- Stored date formats: `created_at` and `request_date` are integers; SQLite's `CURRENT_TIMESTAMP` text sorts the same way.
- The frontend (React pages, local storage, geolocation): only the fact that FormData sends a `null` customer_id as the text "null" is kept (`Agents.FormDataNullIsTrusted`).
