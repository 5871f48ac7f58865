/** The six route handlers of the to-do API, each as a function from the
    request's inputs and the database's outcome to what the handler does:
    either it rejects the request before any statement is built, or it builds
    one statement, which is issued only when a connection was obtained, and
    answers according to the outcome. */
module Handlers {
  import opened JsValues
  import opened Sql
  import opened Queries

  /** A row of the `to_do` table as the driver returns it. */
  datatype Row = Row(id: int, name: string, status: string)

  /** The driver's result for INSERT, UPDATE and DELETE. */
  datatype OkPacket = OkPacket(affectedRows: nat, insertId: nat)

  /** What the pool and the driver report for one statement: the connection
      could not be acquired, the statement failed, or it completed with a
      result (rows for a SELECT, an OkPacket for a write). The error carries
      the driver's error code. */
  datatype DbOutcome<R> = ConnectionError(code: string) | QueryError(code: string) | Completed(result: R)

  /** Response bodies: plain text for errors, JSON for rows and confirmations.
      A JSON field holding `Undefined` is absent from the serialised object. */
  datatype Body =
    | Text(text: string)
    | RowsJson(rows: seq<Row>)
    | RowJson(row: Row)
    | Created(message: string, insertId: nat, name: JsValue, status: JsValue)
    | Updated(message: string, id: string, name: JsValue, status: JsValue)
    | StatusUpdated(message: string, id: string, status: JsValue)
    | Deleted(message: string, id: string)

  datatype Response = Response(code: nat, body: Body)

  /** A request rejected before touching the database, or the statement the
      handler builds together with the response the outcome leads to. The
      statement is issued only when a connection was obtained: on a
      `ConnectionError` the handler answers before running it. */
  datatype Handled = Rejected(response: Response) | Queried(statement: Statement, response: Response)

  const ConnectionFailedText: string := "Database connection error"
  const QueryFailedText: string := "Database query error"
  const NotFoundText: string := "Todo not found"
  const NameRequiredText: string := "Name is required"
  const NameOrStatusRequiredText: string := "Either name or status must be provided"
  const StatusRequiredText: string := "Status is required"
  const CreatedText: string := "Todo created successfully"
  const UpdatedText: string := "Todo updated successfully"
  const StatusUpdatedText: string := "Todo status updated successfully"
  const DeletedText: string := "Todo deleted successfully"

  /** The answer to a failed connection or statement, the same in every
      handler: 500 with a generic message that tells the two failures apart
      and nothing more. */
  function DbErrorResponse<R>(db: DbOutcome<R>): (r: Response)
    requires !db.Completed?
    ensures r.code == 500
    ensures r.body == Text(ConnectionFailedText) <==> db.ConnectionError?
    ensures r.body == Text(QueryFailedText) <==> db.QueryError?
  {
    if db.ConnectionError? then Response(500, Text(ConnectionFailedText))
    else Response(500, Text(QueryFailedText))
  }

  /** The answer of the three handlers that change or delete one row by id:
      500 on a failure, 404 when no row was affected, 200 with the
      confirmation otherwise. */
  function WriteResponse(db: DbOutcome<OkPacket>, confirmation: Body): (r: Response)
    ensures r.code == 500 <==> !db.Completed?
    ensures r.code == 404 <==> db.Completed? && db.result.affectedRows == 0
    ensures r.code == 404 ==> r.body == Text(NotFoundText)
    ensures r.code == 200 <==> db.Completed? && db.result.affectedRows > 0
    ensures r.code == 200 ==> r.body == confirmation
  {
    match db
    case Completed(packet) =>
      if packet.affectedRows == 0 then Response(404, Text(NotFoundText))
      else Response(200, confirmation)
    case _ => DbErrorResponse(db)
  }

  /** GET /todos: never rejects; the rows come back as they are, an empty
      list included. */
  function HandleList(status: JsValue, db: DbOutcome<seq<Row>>): (h: Handled)
    ensures h.Queried? && h.statement == ListStatement(status)
    ensures h.response.code == 500 <==> !db.Completed?
    ensures !db.Completed? ==> h.response == DbErrorResponse(db)
    ensures db.Completed? ==> h.response == Response(200, RowsJson(db.result))
  {
    var st := ListStatement(status);
    match db
    case Completed(rows) => Queried(st, Response(200, RowsJson(rows)))
    case _ => Queried(st, DbErrorResponse(db))
  }

  /** GET /todos/:id: 404 when no row matches, otherwise the first row. */
  function HandleGet(id: string, db: DbOutcome<seq<Row>>): (h: Handled)
    ensures h.Queried? && h.statement == SelectByIdStatement(id)
    ensures h.response.code == 500 <==> !db.Completed?
    ensures !db.Completed? ==> h.response == DbErrorResponse(db)
    ensures h.response.code == 404 <==> db.Completed? && |db.result| == 0
    ensures h.response.code == 404 ==> h.response.body == Text(NotFoundText)
    ensures db.Completed? && |db.result| > 0 ==> h.response == Response(200, RowJson(db.result[0]))
  {
    var st := SelectByIdStatement(id);
    match db
    case Completed(rows) =>
      if |rows| == 0 then Queried(st, Response(404, Text(NotFoundText)))
      else Queried(st, Response(200, RowJson(rows[0])))
    case _ => Queried(st, DbErrorResponse(db))
  }

  /** POST /todos: a falsy name is rejected; otherwise name and status are
      bound, status defaulting to "pending" only when the body leaves it out,
      and the 201 body echoes exactly the bound values with the new id. */
  function HandleCreate(name: JsValue, status: JsValue, db: DbOutcome<OkPacket>): (h: Handled)
    ensures h.Rejected? <==> !Truthy(name)
    ensures h.Rejected? ==> h.response == Response(400, Text(NameRequiredText))
    ensures h.Queried? ==> h.statement == InsertStatement(name, WithDefault(status, Str("pending")))
    ensures h.Queried? ==> (h.response.code == 500 <==> !db.Completed?)
    ensures h.Queried? && !db.Completed? ==> h.response == DbErrorResponse(db)
    ensures h.Queried? && db.Completed? ==>
      h.response == Response(201, Created(CreatedText, db.result.insertId,
                                          h.statement.params[0], h.statement.params[1]))
  {
    var status' := WithDefault(status, Str("pending"));
    if !Truthy(name) then Rejected(Response(400, Text(NameRequiredText)))
    else
      var st := InsertStatement(name, status');
      match db
      case Completed(packet) =>
        Queried(st, Response(201, Created(CreatedText, packet.insertId, name, status')))
      case _ => Queried(st, DbErrorResponse(db))
  }

  /** PUT /todos/:id: rejected when neither field is truthy; otherwise the
      statement sets exactly the truthy fields, and the confirmation reports
      each field that was set and leaves out each that was not. */
  function HandleUpdate(id: string, name: JsValue, status: JsValue, db: DbOutcome<OkPacket>): (h: Handled)
    ensures h.Rejected? <==> !Truthy(name) && !Truthy(status)
    ensures h.Rejected? ==> h.response == Response(400, Text(NameOrStatusRequiredText))
    ensures h.Queried? ==> h.statement == UpdateStatement(id, name, status)
    ensures h.Queried? ==> h.statement.text in Templates
    ensures h.Queried? ==> (h.response.code == 500 <==> !db.Completed?)
    ensures h.Queried? && !db.Completed? ==> h.response == DbErrorResponse(db)
    ensures h.Queried? ==> (h.response.code == 404 <==> db.Completed? && db.result.affectedRows == 0)
    ensures h.Queried? && h.response.code == 404 ==> h.response.body == Text(NotFoundText)
    ensures h.Queried? ==> (h.response.code == 200 <==> db.Completed? && db.result.affectedRows > 0)
    ensures h.Queried? && h.response.code == 200 ==>
      && h.response.body.Updated?
      && h.response.body.message == UpdatedText
      && h.response.body.id == id
      && (Truthy(name) ==> h.response.body.name == name)
      && (!Truthy(name) ==> h.response.body.name == Undefined)
      && (Truthy(status) ==> h.response.body.status == status)
      && (!Truthy(status) ==> h.response.body.status == Undefined)
  {
    if !Truthy(name) && !Truthy(status) then
      Rejected(Response(400, Text(NameOrStatusRequiredText)))
    else
      Queried(UpdateStatement(id, name, status),
              WriteResponse(db, Updated(UpdatedText, id, Or(name, Undefined), Or(status, Undefined))))
  }

  /** PATCH /todos/:id/status: a falsy status is rejected; otherwise status
      and id are bound in that order and the confirmation echoes the status. */
  function HandleUpdateStatus(id: string, status: JsValue, db: DbOutcome<OkPacket>): (h: Handled)
    ensures h.Rejected? <==> !Truthy(status)
    ensures h.Rejected? ==> h.response == Response(400, Text(StatusRequiredText))
    ensures h.Queried? ==> h.statement == UpdateStatusStatement(status, id)
    ensures h.Queried? ==> (h.response.code == 500 <==> !db.Completed?)
    ensures h.Queried? && !db.Completed? ==> h.response == DbErrorResponse(db)
    ensures h.Queried? ==> (h.response.code == 404 <==> db.Completed? && db.result.affectedRows == 0)
    ensures h.Queried? && h.response.code == 404 ==> h.response.body == Text(NotFoundText)
    ensures h.Queried? ==> (h.response.code == 200 <==> db.Completed? && db.result.affectedRows > 0)
    ensures h.Queried? && h.response.code == 200 ==>
      h.response.body == StatusUpdated(StatusUpdatedText, id, status)
  {
    if !Truthy(status) then Rejected(Response(400, Text(StatusRequiredText)))
    else
      Queried(UpdateStatusStatement(status, id),
              WriteResponse(db, StatusUpdated(StatusUpdatedText, id, status)))
  }

  /** DELETE /todos/:id: never rejects; the confirmation carries the id as
      the path gave it. */
  function HandleDelete(id: string, db: DbOutcome<OkPacket>): (h: Handled)
    ensures h.Queried? && h.statement == DeleteByIdStatement(id)
    ensures h.response.code == 500 <==> !db.Completed?
    ensures !db.Completed? ==> h.response == DbErrorResponse(db)
    ensures h.response.code == 404 <==> db.Completed? && db.result.affectedRows == 0
    ensures h.response.code == 404 ==> h.response.body == Text(NotFoundText)
    ensures h.response.code == 200 <==> db.Completed? && db.result.affectedRows > 0
    ensures h.response.code == 200 ==> h.response.body == Deleted(DeletedText, id)
  {
    Queried(DeleteByIdStatement(id), WriteResponse(db, Deleted(DeletedText, id)))
  }

  /** Every statement the two read handlers issue binds one value per
      placeholder, has one of the fixed template texts, and binds only values
      taken from the request. */
  lemma ReadStatementsAreBound(id: string, status: JsValue, db: DbOutcome<seq<Row>>)
    ensures var st := HandleList(status, db).statement;
      WellBound(st) && st.text in Templates && forall p :: p in st.params ==> p == status
    ensures var st := HandleGet(id, db).statement;
      WellBound(st) && st.text in Templates && forall p :: p in st.params ==> p == Str(id)
  {
  }

  /** Every statement the four write handlers issue binds one value per
      placeholder, has one of the fixed template texts, and binds only values
      taken from the request (or the "pending" default). */
  lemma WriteStatementsAreBound(id: string, name: JsValue, status: JsValue, db: DbOutcome<OkPacket>)
    ensures var h := HandleCreate(name, status, db);
      h.Queried? ==>
        (WellBound(h.statement) && h.statement.text in Templates
         && forall p :: p in h.statement.params ==> p == name || p == status || p == Str("pending"))
    ensures var h := HandleUpdate(id, name, status, db);
      h.Queried? ==>
        (WellBound(h.statement) && h.statement.text in Templates
         && forall p :: p in h.statement.params ==> p == name || p == status || p == Str(id))
    ensures var h := HandleUpdateStatus(id, status, db);
      h.Queried? ==>
        (WellBound(h.statement) && h.statement.text in Templates
         && forall p :: p in h.statement.params ==> p == status || p == Str(id))
    ensures var st := HandleDelete(id, db).statement;
      WellBound(st) && st.text in Templates && forall p :: p in st.params ==> p == Str(id)
  {
  }

  /** A rejected request is rejected whatever the database would have said:
      validation happens before the pool is asked for a connection. */
  lemma ValidationPrecedesDatabase(id: string, name: JsValue, status: JsValue,
                                   db1: DbOutcome<OkPacket>, db2: DbOutcome<OkPacket>)
    ensures HandleCreate(name, status, db1).Rejected? ==>
      HandleCreate(name, status, db1) == HandleCreate(name, status, db2)
    ensures HandleUpdate(id, name, status, db1).Rejected? ==>
      HandleUpdate(id, name, status, db1) == HandleUpdate(id, name, status, db2)
    ensures HandleUpdateStatus(id, status, db1).Rejected? ==>
      HandleUpdateStatus(id, status, db1) == HandleUpdateStatus(id, status, db2)
  {
  }

  /** The "pending" default replaces a missing status only: an explicit null
      or empty status is inserted as given. */
  lemma CreateDefaultsOnlyMissingStatus(name: JsValue, status: JsValue, db: DbOutcome<OkPacket>)
    requires Truthy(name)
    ensures var h := HandleCreate(name, status, db);
      h.Queried? && (h.statement.params[1] == Str("pending") <==> status == Undefined || status == Str("pending"))
    ensures status != Undefined ==> HandleCreate(name, status, db).statement.params == [name, status]
  {
  }

  /** A database failure gets the same answer from every handler that gets
      as far as the database, whatever the request and whatever error code
      the driver reported. */
  lemma DbErrorsAreUniform(id: string, name: JsValue, status: JsValue, code: string)
    ensures var r := Response(500, Text(ConnectionFailedText));
      && HandleList(status, ConnectionError(code)).response == r
      && HandleGet(id, ConnectionError(code)).response == r
      && (Truthy(name) ==> HandleCreate(name, status, ConnectionError(code)).response == r)
      && (Truthy(name) || Truthy(status) ==> HandleUpdate(id, name, status, ConnectionError(code)).response == r)
      && (Truthy(status) ==> HandleUpdateStatus(id, status, ConnectionError(code)).response == r)
      && HandleDelete(id, ConnectionError(code)).response == r
    ensures var r := Response(500, Text(QueryFailedText));
      && HandleList(status, QueryError(code)).response == r
      && HandleGet(id, QueryError(code)).response == r
      && (Truthy(name) ==> HandleCreate(name, status, QueryError(code)).response == r)
      && (Truthy(name) || Truthy(status) ==> HandleUpdate(id, name, status, QueryError(code)).response == r)
      && (Truthy(status) ==> HandleUpdateStatus(id, status, QueryError(code)).response == r)
      && HandleDelete(id, QueryError(code)).response == r
  {
  }

  /** A PUT that supplies only a status issues the statement PATCH issues and
      meets the same outcome codes. */
  lemma StatusOnlyPutMatchesPatch(id: string, name: JsValue, status: JsValue, db: DbOutcome<OkPacket>)
    requires !Truthy(name) && Truthy(status)
    ensures HandleUpdate(id, name, status, db).statement == HandleUpdateStatus(id, status, db).statement
    ensures HandleUpdate(id, name, status, db).response.code == HandleUpdateStatus(id, status, db).response.code
  {
  }
}
