# Inventory backend: update builders, quantity reconciliation and session routes

This project models the parts of the inventory-management backend (one Express
file, `index.js`) that hold real logic, as pure Dafny functions with proved
contracts:

- **Partial-update builders** for `PUT /updateUserAccount`, `/updateProduct`,
  `/updateOrder` and `/updateSerialNumber` (module `UpdateBuilder`, instances
  in `UpdateRoutes`). Each handler starts from `UPDATE <table> SET `. For each
  recognised field that is not `undefined` (for the product image: not
  `null`), it appends `<column> = ?, ` and pushes one value. It then slices off
  the last two characters, appends ` WHERE <key> = ?` and pushes the key value.
  `Build` models this as written. Its contract ties the result to a reference
  rendering `Statement`, which joins the assignments with `, `.
- **Quantity reconciliation** in `GET /Product` (module `ProductListing`). Each
  listed product reports the number of serial records with its `P_ID`, or 0
  when there are none. One `UPDATE Product SET Quantity = ? WHERE P_ID = ?` is
  issued per listed product. Write failures are only logged.
- **Session routes** (module `Session`):
  - `/Authen` requires a `Bearer ` header and verifies its second
    space-separated segment.
  - `/logout` appends the header's second segment to a process-wide blacklist
    without checking the prefix.
  - `/login` answers 400, 404, 200, 401 or 500 from the inputs, the account
    rows, and the outcome of the password comparison.
- `Strings` models JavaScript's `split` with a one-character separator, `join`
  and `slice(0, -k)` for positive `k`, with proved round trips. `Values` models request-body
  values with `Undefined` for an absent field, and JavaScript falsiness.

The database, bcrypt and the JWT library are parameters:

- the account table is a sequence of rows and a flag saying whether the query fails;
- the password comparison is a function returning `Matched`, `Mismatched` or `CompareFailed`;
- token signing and token verification are functions;
- the failing corrective writes are a set of write indices.

Behaviour of the handlers worth noting:

- An update with no field is not refused. The handler sends the text `UPDATE T SE WHERE key = ?`.
- The blacklist that `/logout` writes is never read, so `/Authen` has no "revoked" answer.
- A repeated logout appends the same token again.
- The reconciliation writes every product's live count, whether or not the stored quantity already equals it.
- The login success body carries the account's `position`.

Where a finding below gives a corrected definition, that definition sits
beside the as-written model (`BuildChecked`, `UpdateOrderFixed`,
`AuthenRevocable`). The route functions themselves model the code as written.

## Model

| member | source | states |
|---|---|---|
| `UpdateBuilder.Build` | index.js:349-373 | Parameters are the supplied slots' values in fixed order followed by the key value, so the key is last and the count is supplied fields + 1. The text equals the reference `Statement` over the supplied columns. |
| `UpdateBuilder.BuildAligned` | index.js:367-373 | When no table, column or key name contains `?`, the built text has exactly as many `?` placeholders as there are parameters. |
| `UpdateBuilder.SlicedText` | index.js:366-370 | Slicing two characters off the accumulated text and appending the WHERE clause gives `UPDATE T SET a = ?, b = ? WHERE k = ?` with no trailing comma. With no assignment it gives `UPDATE T SE WHERE k = ?`. |
| `UpdateBuilder.AppendedColumnsIsTrailingJoin` | index.js:352-365 | For at least one column, the appended text is the `, `-join of the assignments plus one trailing `, `. |
| `UpdateBuilder.PresentMembers` | index.js:352-365 | A slot is assigned exactly when its guard holds; no other slot is written. |
| `UpdateBuilder.StatementPlaceholders` | index.js:349-373 | The rendered statement has one `?` per assigned column plus one for the key. |
| `UpdateBuilder.EmptyUpdateIsMalformed` | index.js:349-373 | With no field supplied, the text is `UPDATE T SE WHERE k = ?`, it does not start with `UPDATE T SET `, and the only parameter is the key value. |
| `UpdateBuilder.BuildChecked` | index.js:349-373 | Corrected builder: refuses with NoFieldsSupplied exactly when no field is supplied. Otherwise it issues exactly the query `Build` gives, whose text starts with `UPDATE T SET ` and which has at least one assigned parameter before the key. |
| `UpdateBuilder.OwnValuesBound` | index.js:395-408 | When every guard pushes its own field's value, each placeholder is bound to the value of the column it stands for. |
| `UpdateBuilder.StatementFirstColumn` | index.js:476-479 | The first assigned column opens the SET list. |
| `UpdateRoutes.UpdateUserAccount` | index.js:346-373 | Parameters are the supplied username, password, position in that order, then `id`. The text assigns exactly those columns, in that order, matched on `id`. |
| `UpdateRoutes.EmptyUserAccountUpdate` | index.js:349-373 | A body with none of the three fields yields `UPDATE UserAccount SE WHERE id = ?` with the id as sole parameter. |
| `UpdateRoutes.UserAccountAligned` | index.js:349-373 | The account update has as many `?` as parameters. |
| `UpdateRoutes.UpdateProduct` | index.js:388-414 | P_Name and Quantity are assigned when supplied. image is assigned when a file was uploaded, bound to its file name. These are followed by P_ID as match key and last parameter. |
| `UpdateRoutes.ProductAligned` | index.js:392-414 | The product update has as many `?` as parameters. |
| `UpdateRoutes.UpdateOrder` | index.js:427-454 | Columns Order_date, Empno, Total_Quantity, Status are assigned when supplied. The Total_Quantity guard pushes the Status value, as written. OrderID is last. |
| `UpdateRoutes.OrderTotalQuantityBoundToStatus` | index.js:442-445 | Whenever Total_Quantity is supplied, the parameter at its placeholder is the Status value. |
| `UpdateRoutes.OrderBindingCounterexample` | index.js:442-449 | With only Total_Quantity and Status supplied, the text is `UPDATE Order SET Total_Quantity = ?, Status = ? WHERE OrderID = ?` (table name in backquotes) and both placeholders are bound to Status. |
| `UpdateRoutes.UpdateOrderFixed` | index.js:433-449 | Corrected order update: the same text, with each supplied field's own value bound. |
| `UpdateRoutes.OrderFixedBindsOwnValues` | index.js:433-449 | In the corrected order update, every placeholder receives the value of its own column. |
| `UpdateRoutes.OrderAligned` | index.js:430-454 | Both order updates have as many `?` as parameters. |
| `UpdateRoutes.UpdateSerialNumber` | index.js:468-502 | Serial_No, P_ID, S_ID, LastUpdated are assigned when supplied. The match is always on Serial_No, bound to the request's Serial_No. |
| `UpdateRoutes.SerialKeyFirst` | index.js:476-502 | When Serial_No is supplied, it is the first assigned column (the text starts `UPDATE SerialNumber SET Serial_No = ?`), and the first and last parameters are both that value. |
| `UpdateRoutes.SerialAligned` | index.js:473-502 | The serial update has as many `?` as parameters. |
| `Strings.Split` | index.js:256 | `split(" ")` yields one more piece than there are separators. No piece contains the separator. The first piece is the prefix up to the first separator. |
| `Strings.JoinSplit` | index.js:256 | Joining the pieces of a split with the separator restores the text. |
| `Strings.SplitJoin` | index.js:256 | Splitting a join of separator-free pieces restores the pieces. |
| `ProductListing.GetProduct` | index.js:54-78 | A failed listing query gives 500. Otherwise every product is listed with quantity equal to its live serial count. There is one write per product carrying that count and its P_ID. Logged failures are among the writes, and the listing does not depend on which writes fail. |
| `ProductListing.CountForIsMultiplicity` | index.js:56 | The reported quantity is the number of serial records whose P_ID is the product's. |
| `ProductListing.CountForZero` | index.js:56 | The count is 0 exactly when no serial references the product, as the left join gives. |
| `ProductListing.OneWritePerProduct` | index.js:62-72 | With P_ID a key, write j is matched on product i exactly when i = j. |
| `ProductListing.PersistReconciles` | index.js:63-65 | After the first k writes, products before k whose write succeeded store their live count, and all others are unchanged. |
| `ProductListing.StoredAfterListing` | index.js:62-74 | After one listing, successfully written products store their live count and failed ones keep their row. With no failure, the stored table equals the listing that was sent. |
| `Session.BearerToken` | index.js:250-256 | A token exists exactly when the header is present and starts with `Bearer `. It is space-free, directly follows the prefix, and ends at the header's end or at a space. |
| `Session.BearerTokenOf` | index.js:251-256 | `Bearer <t>` with a space-free t yields t. |
| `Session.Authen` | index.js:248-274 | A missing or non-bearer header gives 401 before any verification. For a bearer header, the route authenticates exactly when the verifier accepts the token `BearerToken` extracts (the second space-separated segment), and success carries the claims the verifier returns for that token. The route never answers "revoked". |
| `Session.AuthenRevocable` | index.js:248-274 | Corrected route: a blacklisted bearer token is refused with Revoked. A token that is not blacklisted authenticates exactly when it verifies, with the verifier's claims. |
| `Session.LogoutToken` | index.js:277-278 | A logout token, when present, is non-empty and space-free, and the header contains a space. |
| `Session.LogoutTokenOf` | index.js:277-278 | For a header `p t rest` with p and t space-free, t non-empty, and rest empty or starting with a space, the logout token is t, whatever p is. |
| `Session.LogoutTokenEmpty` | index.js:277-282 | A header whose second segment is empty (`p ` followed by nothing or by another space) has no logout token, so logout answers 401. |
| `Session.LogoutTokenMissing` | index.js:277-282 | A missing header, or one without a space, has no logout token. |
| `Session.Logout` | index.js:276-291 | 401 exactly when there is no token, with the blacklist unchanged. Otherwise 200, and the blacklist grows by exactly the token with earlier entries kept. |
| `Session.Step` | index.js:248-291 | `/Authen` leaves the server state unchanged. Every request keeps the blacklist as a prefix and adds at most one entry. |
| `Session.RunAppendOnly` | index.js:284-285 | Over any sequence of requests, the blacklist keeps its earlier entries and grows by at most one per request. |
| `Session.LoggedOutTokenStillAccepted` | index.js:256-285 | After logging out `Bearer t`, t is on the blacklist, yet `/Authen` with the same header still authenticates t's claims. |
| `Session.LoggedOutTokenRevoked` | index.js:284-285 | With the corrected route, a token just logged out is refused as Revoked. |
| `Session.MatchingRows` | index.js:194-196 | The account query returns exactly the rows whose username equals the request's username. |
| `Session.MatchingRowsHead` | index.js:203-207 | `results[0]` is the first row in table order with that username. |
| `Session.Login` | index.js:185-246 | 400 exactly when username or password is falsy. 404 exactly when the inputs are truthy, the store answers, and no row matches. 500 whenever the account query fails with truthy inputs, and otherwise only on a comparison failure. At the first matching row, a comparison failure gives 500, a mismatch 401, and a match 200. 200 only on a match at the first matching row, with that row's Position and a token signed over its username and Position. 401 only on a mismatch. |
| `Session.LoginThenAuthen` | index.js:221-235 | If verification inverts signing, the token issued at login authenticates, at `/Authen`, to the stored username and Position. |

## Left out

- Express routing, CORS, cookie parsing, static serving, the `jwt` cookie set at login and cleared at logout: framework plumbing with no decision logic.
- The store's execution of the update statements, and how MySQL would treat the malformed empty update: the issued query is modelled as data only.
- bcrypt hashing and comparison, and JWT signing, signature and expiry checks: foreign cryptographic libraries, passed in as functions. The extra `iat`/`exp` fields of a decoded token are not modelled.
- The `try`/`catch` 500 answer of `/Authen`: nothing in the modelled types can throw there.
- S3 upload, multer disk storage and the `Date.now()` file names: I/O and clock. Only the resulting file name of `/updateProduct` is a parameter.
- The asynchronous order of the reconciliation writes relative to the response: callback concurrency. The writes are an emitted list, and the store's failures a set of indices.
- Logging: only the list of logged write failures of `GET /Product` is kept.
- The read-only GET endpoints (including the second `/UserAccount` route), the DELETE routes, and the insert routes `createUserAccount`, `createSerial`, `createProduct`: pass-throughs with no logic beyond one falsy check.
- Values.Value: JSON numbers are integers, so fractional numbers are not modelled. JSON cannot carry NaN, so falsiness needs no NaN case.
- Session.MatchingRows: exact string equality. MySQL's case-insensitive collation and its coercion of non-string usernames are not modelled.
- ProductListing.GetProduct: `GROUP BY p.P_ID` is modelled as one row per stored product in table order. This agrees with the query when P_ID is the key. SQL's row order is unspecified. The join condition `p.P_ID = s.P_ID` is exact string equality here: a VARCHAR P_ID under MySQL's default case-insensitive, pad-space collation would match more serials than `CountFor` counts.

## Findings

| source | as written | input that shows it | evidently intended | confidence | as-written member | corrected member |
|---|---|---|---|---|---|---|
| index.js:442-445 | the `Total_Quantity` guard pushes `Status` | body `{OrderID: 7, Total_Quantity: 5, Status: "Shipped"}` assigns Total_Quantity then Status, matched on OrderID, with parameters `["Shipped", "Shipped", 7]` | push `Total_Quantity` | high; not executed | `UpdateRoutes.OrderBindingCounterexample` | `UpdateRoutes.OrderFixedBindsOwnValues` |
| index.js:349-373 | with no updatable field the slice cuts into `SET` | body `{id: 1}` gives `UPDATE UserAccount SE WHERE id = ?` with parameters `[1]` (likewise for the other three routes) | refuse the request before querying | medium; not executed | `UpdateRoutes.EmptyUserAccountUpdate` | `UpdateBuilder.BuildChecked` |
| index.js:256-285 | the blacklist is written by `/logout` but never read | `/logout` with `Bearer t`, then `/Authen` with `Bearer t` for a valid t, answers 200 | refuse blacklisted tokens | medium; not executed | `Session.LoggedOutTokenStillAccepted` | `Session.LoggedOutTokenRevoked` |
