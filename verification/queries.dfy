/** The statements the to-do API sends to the `to_do` table: the two builders
    that grow a statement step by step (the list query with its optional
    status filter, the update query with its dynamic SET list) and the four
    fixed templates. Request values only ever reach a statement's parameter
    array; its text is always assembled from the fragments below. */
module Queries {
  import opened JsValues
  import opened Sql

  // Fragments from which the statement texts are assembled. The builders use
  // the first seven as the handlers do; the fixed texts that the handlers write
  // as single literals are split here too, and the `*SpelledOut` lemmas show
  // that each assembled text equals the literal the handler writes.
  const SelectAll: string := "SELECT * FROM to_do"
  const WhereStatus: string := " WHERE status = ?"
  const WhereId: string := " WHERE id = ?"
  const UpdateSet: string := "UPDATE to_do SET "
  const NameAssign: string := "name = ?"
  const StatusAssign: string := "status = ?"
  const AssignSep: string := ", "
  const InsertRow: string := "INSERT INTO to_do (name, status) VALUES (?, ?)"
  const DeleteFrom: string := "DELETE FROM to_do"

  // The well-formed statement texts the handlers can issue.
  const ListAllText: string := SelectAll
  const ListByStatusText: string := SelectAll + WhereStatus
  const SelectByIdText: string := SelectAll + WhereId
  const InsertText: string := InsertRow
  const UpdateNameText: string := UpdateSet + NameAssign + WhereId
  const UpdateStatusText: string := UpdateSet + StatusAssign + WhereId
  const UpdateBothText: string := UpdateSet + NameAssign + AssignSep + StatusAssign + WhereId
  const DeleteText: string := DeleteFrom + WhereId

  const Templates: set<string> :=
    {ListAllText, ListByStatusText, SelectByIdText, InsertText,
     UpdateNameText, UpdateStatusText, UpdateBothText, DeleteText}

  /** The read templates spelled out as the handlers write them. */
  lemma ReadTemplatesSpelledOut()
    ensures ListAllText == "SELECT * FROM to_do"
    ensures ListByStatusText == "SELECT * FROM to_do WHERE status = ?"
    ensures SelectByIdText == "SELECT * FROM to_do WHERE id = ?"
  {
  }

  /** The insert and delete templates spelled out as the handlers write them. */
  lemma InsertDeleteTemplatesSpelledOut()
    ensures InsertText == "INSERT INTO to_do (name, status) VALUES (?, ?)"
    ensures DeleteText == "DELETE FROM to_do WHERE id = ?"
  {
  }

  /** The update templates spelled out as the handlers write them. */
  lemma UpdateTemplatesSpelledOut()
    ensures UpdateNameText == "UPDATE to_do SET name = ? WHERE id = ?"
    ensures UpdateStatusText == "UPDATE to_do SET status = ? WHERE id = ?"
    ensures UpdateBothText == "UPDATE to_do SET name = ?, status = ? WHERE id = ?"
  {
    assert UpdateSet + NameAssign == "UPDATE to_do SET name = ?";
    assert UpdateSet + StatusAssign == "UPDATE to_do SET status = ?";
    assert UpdateSet + NameAssign + AssignSep == "UPDATE to_do SET name = ?, ";
    assert UpdateSet + NameAssign + AssignSep + StatusAssign == "UPDATE to_do SET name = ?, status = ?";
  }

  /** With an empty SET list the update text is "UPDATE to_do SET  WHERE id = ?",
      which is none of the templates. */
  lemma EmptySetListIsMalformed()
    ensures UpdateSet + WhereId == "UPDATE to_do SET  WHERE id = ?"
    ensures UpdateSet + WhereId !in Templates
  {
    var t := UpdateSet + WhereId;
    assert |t| == 30;
    assert |ListAllText| == 19 && |ListByStatusText| == 36 && |SelectByIdText| == 32;
    assert |InsertText| == 46 && |UpdateNameText| == 38 && |UpdateStatusText| == 40;
    assert |UpdateBothText| == 50;
    assert t[0] == 'U' && DeleteText[0] == 'D';
  }

  /** The fragments that carry no placeholder. */
  lemma UnmarkedFragments()
    ensures Placeholders(SelectAll) == 0 && Placeholders(UpdateSet) == 0
    ensures Placeholders(AssignSep) == 0 && Placeholders(DeleteFrom) == 0
  {
    UnmarkedHasNoPlaceholders(SelectAll);
    UnmarkedHasNoPlaceholders(UpdateSet);
    UnmarkedHasNoPlaceholders(AssignSep);
    UnmarkedHasNoPlaceholders(DeleteFrom);
  }

  /** The WHERE fragments each carry one placeholder. */
  lemma WhereFragments()
    ensures Placeholders(WhereStatus) == 1 && Placeholders(WhereId) == 1
  {
    assert WhereStatus == " WHERE status = " + [Mark];
    SingleMark(" WHERE status = ");
    assert WhereId == " WHERE id = " + [Mark];
    SingleMark(" WHERE id = ");
  }

  /** The SET assignments each carry one placeholder. */
  lemma AssignFragments()
    ensures Placeholders(NameAssign) == 1 && Placeholders(StatusAssign) == 1
  {
    assert NameAssign == "name = " + [Mark];
    SingleMark("name = ");
    assert StatusAssign == "status = " + [Mark];
    SingleMark("status = ");
  }

  /** The insert text carries one placeholder per column. */
  lemma InsertFragment()
    ensures Placeholders(InsertRow) == 2
  {
    var head, tail := "INSERT INTO to_do (name, status) VALUES (" + [Mark], ", " + [Mark] + ")";
    assert InsertRow == head + tail;
    SingleMark("INSERT INTO to_do (name, status) VALUES (");
    SingleMark(", ");
    UnmarkedHasNoPlaceholders(")");
    PlaceholdersAppend(", " + [Mark], ")");
    PlaceholdersAppend(head, tail);
  }

  /** Placeholders carried by each template, and by the malformed update text
      that results when the SET list is empty. */
  lemma TemplatePlaceholders()
    ensures Placeholders(ListAllText) == 0
    ensures Placeholders(ListByStatusText) == 1
    ensures Placeholders(SelectByIdText) == 1
    ensures Placeholders(InsertText) == 2
    ensures Placeholders(UpdateNameText) == 2
    ensures Placeholders(UpdateStatusText) == 2
    ensures Placeholders(UpdateBothText) == 3
    ensures Placeholders(DeleteText) == 1
    ensures Placeholders(UpdateSet + WhereId) == 1
  {
    UnmarkedFragments();
    WhereFragments();
    AssignFragments();
    InsertFragment();
    PlaceholdersAppend(SelectAll, WhereStatus);
    PlaceholdersAppend(SelectAll, WhereId);
    PlaceholdersAppend(UpdateSet, NameAssign);
    PlaceholdersAppend(UpdateSet + NameAssign, WhereId);
    PlaceholdersAppend(UpdateSet, StatusAssign);
    PlaceholdersAppend(UpdateSet + StatusAssign, WhereId);
    PlaceholdersAppend(UpdateSet + NameAssign, AssignSep);
    PlaceholdersAppend(UpdateSet + NameAssign + AssignSep, StatusAssign);
    PlaceholdersAppend(UpdateSet + NameAssign + AssignSep + StatusAssign, WhereId);
    PlaceholdersAppend(DeleteFrom, WhereId);
    PlaceholdersAppend(UpdateSet, WhereId);
  }

  /** The statement of `GET /todos`: the status filter is added only for a
      truthy `status`, and then binds it. */
  function ListStatement(status: JsValue): (st: Statement)
    ensures WellBound(st) && st.text in Templates
    ensures Truthy(status) ==> st.text == "SELECT * FROM to_do WHERE status = ?"
    ensures !Truthy(status) ==> st.text == "SELECT * FROM to_do"
    ensures st.params == if Truthy(status) then [status] else []
  {
    TemplatePlaceholders();
    ReadTemplatesSpelledOut();
    if Truthy(status) then Statement(ListByStatusText, [status])
    else Statement(ListAllText, [])
  }

  /** The list query as the handler grows it: a base text, then an appended
      filter and a pushed parameter when `status` is truthy. */
  method BuildListQuery(status: JsValue) returns (query: string, params: seq<JsValue>)
    ensures Truthy(status) ==> query == "SELECT * FROM to_do WHERE status = ?" && params == [status]
    ensures !Truthy(status) ==> query == "SELECT * FROM to_do" && params == []
    ensures Statement(query, params) == ListStatement(status)
  {
    query := SelectAll;
    params := [];
    if Truthy(status) {
      query := query + WhereStatus;
      params := params + [status];
    }
    ReadTemplatesSpelledOut();
  }

  /** The statement of `PUT /todos/:id` for every combination of supplied
      fields: one assignment per truthy field, `name` before `status`, then the
      id. With neither field truthy the SET list is empty and the text is not
      a well-formed template. */
  function UpdateStatement(id: string, name: JsValue, status: JsValue): (st: Statement)
    ensures WellBound(st)
    ensures st.text in Templates <==> Truthy(name) || Truthy(status)
    ensures st.params ==
      (if Truthy(name) then [name] else []) + (if Truthy(status) then [status] else []) + [Str(id)]
    ensures Truthy(name) && Truthy(status) ==>
      st.text == "UPDATE to_do SET name = ?, status = ? WHERE id = ?"
    ensures Truthy(name) && !Truthy(status) ==> st.text == "UPDATE to_do SET name = ? WHERE id = ?"
    ensures !Truthy(name) && Truthy(status) ==> st.text == "UPDATE to_do SET status = ? WHERE id = ?"
    ensures !Truthy(name) && !Truthy(status) ==> st.text == "UPDATE to_do SET  WHERE id = ?"
  {
    TemplatePlaceholders();
    EmptySetListIsMalformed();
    UpdateTemplatesSpelledOut();
    if Truthy(name) && Truthy(status) then Statement(UpdateBothText, [name, status, Str(id)])
    else if Truthy(name) then Statement(UpdateNameText, [name, Str(id)])
    else if Truthy(status) then Statement(UpdateStatusText, [status, Str(id)])
    else Statement(UpdateSet + WhereId, [Str(id)])
  }

  /** The update query as the handler grows it: an assignment and a parameter
      are pushed for each truthy field, the assignments are joined with ", ",
      and the id is pushed last. */
  method BuildUpdateQuery(id: string, name: JsValue, status: JsValue)
    returns (query: string, params: seq<JsValue>)
    ensures Placeholders(query) == |params|
    ensures Statement(query, params) == UpdateStatement(id, name, status)
  {
    query := UpdateSet;
    var updates: seq<string> := [];
    params := [];
    if Truthy(name) {
      updates := updates + [NameAssign];
      params := params + [name];
    }
    if Truthy(status) {
      updates := updates + [StatusAssign];
      params := params + [status];
    }
    SetListPlaceholders(updates);
    SetListText(id, name, status, updates);
    query := query + Join(updates, AssignSep) + WhereId;
    params := params + [Str(id)];
  }

  /** The SET lists the update builder can push: one assignment per truthy
      field, `name` before `status`. */
  function SetList(name: JsValue, status: JsValue): (updates: seq<string>)
    ensures |updates| == (if Truthy(name) then 1 else 0) + (if Truthy(status) then 1 else 0)
    ensures forall i :: 0 <= i < |updates| ==> updates[i] in {NameAssign, StatusAssign}
    ensures NameAssign in updates <==> Truthy(name)
    ensures StatusAssign in updates <==> Truthy(status)
    ensures |updates| == 2 ==> updates == [NameAssign, StatusAssign]
  {
    (if Truthy(name) then [NameAssign] else []) + (if Truthy(status) then [StatusAssign] else [])
  }

  /** An update text whose SET list joins assignments of one placeholder each
      carries one placeholder per assignment, plus the id's. */
  lemma SetListPlaceholders(updates: seq<string>)
    requires forall i :: 0 <= i < |updates| ==> updates[i] in {NameAssign, StatusAssign}
    ensures Placeholders(UpdateSet + Join(updates, AssignSep) + WhereId) == |updates| + 1
  {
    AssignFragments();
    UnmarkedFragments();
    WhereFragments();
    JoinPlaceholders(updates, AssignSep);
    PlaceholdersAppend(UpdateSet, Join(updates, AssignSep));
    PlaceholdersAppend(UpdateSet + Join(updates, AssignSep), WhereId);
  }

  /** Pushing the truthy fields' assignments and joining them gives the text
      of the specified update statement. */
  lemma SetListText(id: string, name: JsValue, status: JsValue, updates: seq<string>)
    requires updates == SetList(name, status)
    ensures UpdateSet + Join(updates, AssignSep) + WhereId == UpdateStatement(id, name, status).text
  {
    if Truthy(name) && Truthy(status) {
      JoinPush([NameAssign], StatusAssign, AssignSep);
      assert updates == [NameAssign] + [StatusAssign];
      assert UpdateSet + (NameAssign + AssignSep + StatusAssign) + WhereId == UpdateBothText;
    } else if Truthy(name) {
      assert updates == [NameAssign];
    } else if Truthy(status) {
      assert updates == [StatusAssign];
    } else {
      assert updates == [];
    }
  }

  /** The statement of `GET /todos/:id`. */
  function SelectByIdStatement(id: string): (st: Statement)
    ensures WellBound(st) && st.text in Templates
    ensures st.text == "SELECT * FROM to_do WHERE id = ?"
    ensures st.params == [Str(id)]
  {
    TemplatePlaceholders();
    ReadTemplatesSpelledOut();
    Statement(SelectByIdText, [Str(id)])
  }

  /** The statement of `POST /todos`: name first, then status. */
  function InsertStatement(name: JsValue, status: JsValue): (st: Statement)
    ensures WellBound(st) && st.text in Templates
    ensures st.text == "INSERT INTO to_do (name, status) VALUES (?, ?)"
    ensures st.params == [name, status]
  {
    TemplatePlaceholders();
    InsertDeleteTemplatesSpelledOut();
    Statement(InsertText, [name, status])
  }

  /** The statement of `PATCH /todos/:id/status`: status first, then the id. */
  function UpdateStatusStatement(status: JsValue, id: string): (st: Statement)
    ensures WellBound(st) && st.text in Templates
    ensures st.text == "UPDATE to_do SET status = ? WHERE id = ?"
    ensures st.params == [status, Str(id)]
  {
    TemplatePlaceholders();
    UpdateTemplatesSpelledOut();
    Statement(UpdateStatusText, [status, Str(id)])
  }

  /** The statement of `DELETE /todos/:id`. */
  function DeleteByIdStatement(id: string): (st: Statement)
    ensures WellBound(st) && st.text in Templates
    ensures st.text == "DELETE FROM to_do WHERE id = ?"
    ensures st.params == [Str(id)]
  {
    TemplatePlaceholders();
    InsertDeleteTemplatesSpelledOut();
    Statement(DeleteText, [Str(id)])
  }

  /** No request value is interpolated into a statement text: the text depends
      on the request only through the truthiness of its optional fields, and
      for the fixed statements not at all. */
  lemma TextIgnoresValues(id1: string, id2: string, n1: JsValue, n2: JsValue, s1: JsValue, s2: JsValue)
    requires Truthy(n1) == Truthy(n2) && Truthy(s1) == Truthy(s2)
    ensures ListStatement(s1).text == ListStatement(s2).text
    ensures UpdateStatement(id1, n1, s1).text == UpdateStatement(id2, n2, s2).text
    ensures SelectByIdStatement(id1).text == SelectByIdStatement(id2).text
    ensures InsertStatement(n1, s1).text == InsertStatement(n2, s2).text
    ensures UpdateStatusStatement(s1, id1).text == UpdateStatusStatement(s2, id2).text
    ensures DeleteByIdStatement(id1).text == DeleteByIdStatement(id2).text
  {
  }

  /** A status-only update through PUT issues exactly the statement PATCH issues. */
  lemma StatusOnlyUpdateIsPatch(id: string, name: JsValue, status: JsValue)
    requires !Truthy(name) && Truthy(status)
    ensures UpdateStatement(id, name, status) == UpdateStatusStatement(status, id)
  {
  }
}
