# To-do list API: request-to-statement translation

This project models the part of the to-do list server (`app.js`) that can be
stated and checked: how each of its six Express route handlers turns a request
into one parameterised MySQL statement on the `to_do` table, and how the
driver's outcome becomes an HTTP response.

- `js_values.dfy` (module `JsValues`): the values a handler reads from
  `req.query`, `req.params` and `req.body` (`undefined`, `null`, booleans,
  numbers, strings); JavaScript truthiness, `a || b`, and the destructuring
  default `{ status = 'pending' }`, which replaces `undefined` only.
- `sql.dfy` (module `Sql`): a statement is a text plus the array of values
  bound to its `?` placeholders. `WellBound` says the two agree in number.
  It also holds `Array.prototype.join` and the lemmas that count placeholders
  across concatenation and joining.
- `queries.dfy` (module `Queries`): the statement texts, assembled from
  fragments; the `*SpelledOut` lemmas show that each assembled text equals the
  literal the handler writes. It holds the list builder and the update builder
  twice over: once as methods that grow the query step by step, as the handlers
  do (`+=`, `push`, `join`), and once as specification functions that give the
  finished statement for every case. It also holds the four fixed statements.
  Every text a handler issues is one of eight fixed templates (`Templates`);
  only a PUT with no field would build a ninth, malformed text, and the
  handler rejects that request first. Request values reach only the parameter
  array.
- `handlers.dfy` (module `Handlers`): each route handler is a function of the
  request's inputs and an abstract database outcome. Its result is either
  `Rejected` (a 400 response, no statement) or `Queried` (the statement the
  handler builds, plus the response the outcome leads to). The statement is
  issued only when a connection was obtained: on a connection error the
  handler answers 500 before it runs the statement. The outcome is
  `ConnectionError`, `QueryError`, or `Completed` with rows (for a SELECT) or an
  `OkPacket` with `affectedRows` and `insertId` (for a write).

Three details of the code that the model keeps:
- A required field is checked with JavaScript truthiness. `null`, `""`, `0` and
  `false` all count as missing, as well as an absent field.
- The `"pending"` default replaces an absent (`undefined`) status only. An
  explicit `null` or `""` status is inserted as given.
- PUT rejects when neither field is truthy, and sets only the truthy ones.

## Model

| member | source | states |
|---|---|---|
| JsValues.Truthy | app.js:84 | exactly `undefined`, `null`, `false`, `0` and `""` are falsy; this is the test behind every check at lines 31, 84, 121, 129, 134 and 175 |
| JsValues.Or | app.js:163-164 | the logical-or operator yields the first operand when it is truthy and the second otherwise, so a falsy field reported through `or undefined` comes out absent |
| JsValues.WithDefault | app.js:82 | a destructuring default replaces `undefined` only; every other value, falsy ones included, passes through |
| Sql.PlaceholdersAppend | app.js:28-32 | placeholders add up when a statement text is extended by concatenation |
| Sql.Join | app.js:139 | joining starts with the first part and is as long as all parts plus one separator between each neighbouring pair; no parts give the empty string |
| Sql.JoinPush | app.js:128-139 | pushing a part and then joining gives the earlier join, the separator and the new part, or the part alone when it is the first; this is what lets the builder grow the SET list by `push` and join it once |
| Sql.JoinPlaceholders | app.js:139 | joining assignments that each carry one placeholder, with a separator that carries none, gives one placeholder per assignment |
| Queries.ReadTemplatesSpelledOut | app.js:28-32 | the list texts, with and without the status filter, and the select-by-id text of line 63, read exactly as the handlers write them |
| Queries.InsertDeleteTemplatesSpelledOut | app.js:95 | the insert text, and the delete text of line 218, read exactly as the handlers write them |
| Queries.UpdateTemplatesSpelledOut | app.js:125-139 | the three well-formed update texts read `UPDATE to_do SET name = ? WHERE id = ?`, `... SET status = ? ...` and `... SET name = ?, status = ? WHERE id = ?` |
| Queries.EmptySetListIsMalformed | app.js:125-139 | with no field supplied the builder would produce `UPDATE to_do SET  WHERE id = ?`, which is none of the templates |
| Queries.TemplatePlaceholders | app.js:28-218 | the number of placeholders in every template (0, 1, 1, 2, 2, 2, 3, 1): the list texts of lines 28-32, the select-by-id of line 63, the insert of line 95, the update texts of lines 125-139 and 186, the delete of line 218; and in the malformed update text (1) |
| Queries.ListStatement | app.js:27-34 | the list statement is the filtered text binding `status` exactly when it is truthy, and the plain text binding nothing otherwise; it is well bound and a template |
| Queries.BuildListQuery | app.js:27-34 | growing the query as the handler does gives `SELECT * FROM to_do WHERE status = ?` with `[status]` for a truthy status, else `SELECT * FROM to_do` with `[]` |
| Queries.UpdateStatement | app.js:125-140 | the update statement binds the truthy fields, `name` before `status`, then the id; its text for each of the four cases is spelled out; it is well bound; its text is a template exactly when some field is truthy |
| Queries.BuildUpdateQuery | app.js:125-140 | pushing one assignment and one parameter per truthy field, joining with `", "` and appending the id gives as many placeholders as parameters, and exactly the specified update statement |
| Queries.SetList | app.js:128-136 | the builder pushes `name = ?` exactly when `name` is truthy and `status = ?` exactly when `status` is truthy, one assignment per truthy field, `name = ?` first when both are pushed |
| Queries.SetListPlaceholders | app.js:139 | for any list of pushed assignments, the finished update text has one placeholder per assignment plus the id's |
| Queries.SetListText | app.js:128-139 | joining the pushed assignments between `UPDATE to_do SET ` and ` WHERE id = ?` gives the specified update text for every combination of fields |
| Queries.SelectByIdStatement | app.js:63 | the select-by-id statement is `SELECT * FROM to_do WHERE id = ?`, well bound, and binds only the path id |
| Queries.InsertStatement | app.js:94-96 | the insert statement is `INSERT INTO to_do (name, status) VALUES (?, ?)`, well bound, and binds `[name, status]` in that order |
| Queries.UpdateStatusStatement | app.js:185-187 | the status update is `UPDATE to_do SET status = ? WHERE id = ?`, well bound, and binds `[status, id]` in that order |
| Queries.DeleteByIdStatement | app.js:218 | the delete statement is `DELETE FROM to_do WHERE id = ?`, well bound, and binds only the path id |
| Queries.TextIgnoresValues | app.js:125-140 | no request value is interpolated: each statement text depends only on which optional fields are truthy, never on their values or the id |
| Queries.StatusOnlyUpdateIsPatch | app.js:134-140 | an update with only a truthy status builds exactly the statement of lines 185-187 |
| Handlers.DbErrorResponse | app.js:37-48 | a connection or query failure becomes 500 with a generic message that names only which of the two failed |
| Handlers.WriteResponse | app.js:151-165 | for a write: 500 on failure, 404 with "Todo not found" exactly when no row was affected, 200 with the confirmation exactly when some row was |
| Handlers.HandleList | app.js:26-53 | the list never rejects, issues the list statement, answers a failure with the matching 500 message and otherwise 200 with all returned rows, an empty list included |
| Handlers.HandleGet | app.js:56-78 | get-one issues select-by-id; a failure gets the matching 500 message, 404 "Todo not found" exactly when no row came back, otherwise 200 with the first row |
| Handlers.HandleCreate | app.js:81-114 | rejected with 400 exactly when `name` is falsy; otherwise inserts `name` and the defaulted status; a failure gets the matching 500 message; 201 echoes the new id and exactly the bound values |
| Handlers.HandleUpdate | app.js:117-168 | rejected with 400 exactly when both fields are falsy; otherwise issues a well-formed update; a failure gets the matching 500 message, 404 "Todo not found" exactly when nothing was affected, 200 exactly when some row was; the 200 body carries the success message, the path id and each field that was set, and reports an unset field as absent |
| Handlers.HandleUpdateStatus | app.js:171-208 | rejected with 400 exactly when `status` is falsy; otherwise binds `[status, id]`; a failure gets the matching 500 message, 404 "Todo not found" exactly when nothing was affected, 200 exactly when some row was, with the success message, the id and the status |
| Handlers.HandleDelete | app.js:211-236 | delete never rejects; a failure gets the matching 500 message, 404 "Todo not found" exactly when nothing was affected, 200 exactly when some row was, with the success message and the id as the original path string |
| Handlers.ReadStatementsAreBound | app.js:27-63 | the list and select-by-id statements are well bound templates whose parameters are the request's status or id |
| Handlers.WriteStatementsAreBound | app.js:94-218 | insert, update, status update and delete statements are well bound templates whose parameters come only from the request or the `"pending"` default |
| Handlers.ValidationPrecedesDatabase | app.js:121-123 | a rejected POST, PUT or PATCH (lines 84-86, 121-123, 175-177) gets the same answer whatever the database outcome would have been |
| Handlers.CreateDefaultsOnlyMissingStatus | app.js:82-96 | the inserted status is `"pending"` only when the body omits it or says `"pending"`; any other given status, `null` or `""` included, is inserted as given |
| Handlers.DbErrorsAreUniform | app.js:37-48 | every handler that gets as far as the database (list, get and delete always; create with a truthy name; update with some truthy field; patch with a truthy status) answers a connection failure, and likewise a query failure, with the same 500 response, whatever error code the driver reported |
| Handlers.StatusOnlyPutMatchesPatch | app.js:134-140 | a PUT with only a truthy status issues the PATCH statement and gets the same response code |

## Left out

- Express wiring is not modelled: app creation, the body parsers, static files, `GET /` with `sendFile`, `app.listen` (app.js:1-14, 238-251). Route matching is not modelled either; each handler is a separate function.
- The catch-all error middleware (app.js:243-247) is not modelled. It answers 500 "Internal server error" for errors that reach it, among them the body parser's own failures (a malformed JSON body, a body that is too large, a bad charset). A POST, PUT or PATCH that fails in the body parser never reaches its handler's validation; such requests are left out with the rest of the Express wiring.
- The MySQL pool and the connection lifecycle are not modelled: `createPool`, `getConnection`, `release`, the asynchronous callbacks. The driver's answer enters as the `DbOutcome` parameter.
- What the database does with a statement is not modelled: row filtering, auto-increment ids, persistence. Properties such as "a created item can be read back" or "a second delete returns 404" depend on it and are not stated.
- `console.error` logging is not modelled; it is a side effect only.
- db-test.js is not modelled. It is a startup connectivity check: on failure it logs and exits; on success it releases the connection and calls `app.listen(port, …)`, although the file defines neither `app` nor `port` (db-test.js:31-37).
- Request values that are objects or arrays are not modelled. They are always truthy in JavaScript, and they do arrive: repeated query or urlencoded keys give arrays, and JSON bodies can hold either. The mysql driver expands such a value bound to one `?` into a list (`'a', 'b'`) or into assignments (`` `k` = 'v' ``). So `WellBound` means one SQL value per placeholder only for the scalar values modelled here. Numbers are modelled as exact reals, not IEEE doubles; NaN cannot arrive in JSON.
- Rows are modelled as `(id, name, status)` triples. NULL columns are not modelled; the handlers only pass rows through.
