/** The table of subscribers, and what a statement does to it once its placeholders are bound. */
module SqlTable {
  import opened Options
  import opened Subscribers
  import opened Stores
  import opened SqlText
  import opened SqlStatements

  datatype Value = Null | Text(s: string) | Flag(b: bool)

  type Row = map<string, Value>

  type Table = seq<Row>

  /** Placeholders count from 1 in the order they are written; one that was not bound is NULL. */
  type Parameters = map<nat, Value>

  function Param(params: Parameters, i: nat): Value {
    if i in params then params[i] else Null
  }

  /** The parameters after binding the values in order. */
  function Bound(values: seq<Value>): (params: Parameters)
    ensures forall i: nat :: i in params <==> 1 <= i <= |values|
    ensures forall i: nat :: i in params ==> params[i] == values[i - 1]
  {
    if values == [] then map[] else Bound(values[..|values| - 1])[|values| := values[|values| - 1]]
  }

  function IndexOf(columns: seq<string>, c: string): (i: nat)
    requires c in columns
    ensures i < |columns| && columns[i] == c && forall j :: 0 <= j < i ==> columns[j] != c
  {
    if columns[0] == c then 0 else IndexOf(columns[1..], c) + 1
  }

  // ---- Execution --------------------------------------------------------------------------------------------

  /** NULL equals nothing. */
  predicate Matches(row: Row, column: string, v: Value) {
    column in row && v != Null && row[column] == v
  }

  predicate Known(columns: seq<string>) {
    forall i :: 0 <= i < |columns| ==> columns[i] in ALL_COLUMNS
  }

  function Select(t: Table, column: string, v: Value): Table {
    if t == [] then []
    else
      var last := t[|t| - 1];
      Select(t[..|t| - 1], column, v) + (if Matches(last, column, v) then [last] else [])
  }

  function Delete(t: Table, column: string, v: Value): Table {
    if t == [] then []
    else
      var last := t[|t| - 1];
      Delete(t[..|t| - 1], column, v) + (if Matches(last, column, v) then [] else [last])
  }

  function InsertedRow(columns: seq<string>, params: Parameters): Row {
    map c | c in ALL_COLUMNS :: if c in columns then Param(params, IndexOf(columns, c) + 1) else Null
  }

  function UpdatedRow(row: Row, columns: seq<string>, params: Parameters): Row {
    map c | c in row :: if c in columns then Param(params, IndexOf(columns, c) + 1) else row[c]
  }

  function Update(t: Table, columns: seq<string>, params: Parameters, key: string): Table {
    seq(|t|, i requires 0 <= i < |t| =>
      if Matches(t[i], key, Param(params, |columns| + 1)) then UpdatedRow(t[i], columns, params) else t[i])
  }

  /** The table after a statement that changes it; None is an error, which changes nothing. The key is unique. */
  function Execute(st: Statement, params: Parameters, t: Table): Option<Table> {
    match st
    case InsertRow(table, columns, marks) =>
      var row := InsertedRow(columns, params);
      if table != TABLE || !Known(columns) || marks != |columns| || Select(t, "id", row["id"]) != [] then None
          else Some(t + [row])
    case UpdateRows(table, columns, key) =>
      if table != TABLE || !Known(columns) || key !in ALL_COLUMNS then None else Some(Update(t, columns, params, key))
    case DeleteRows(table, key, v) =>
      if table != TABLE || key !in ALL_COLUMNS then None else Some(Delete(t, key, Text(v)))
    case SelectRows(_, _, _) => None
  }

  /** The rows a select delivers; None is an error. */
  function Query(st: Statement, t: Table): Option<Table> {
    match st
    case SelectRows(columns, table, condition) =>
      if table != TABLE || !Known(columns) || (condition.Some? && condition.value.0 !in ALL_COLUMNS) then None
      else if condition.None? then Some(t)
      else Some(Select(t, condition.value.0, Text(condition.value.1)))
    case _ => None
  }

  // ---- Rows and records -------------------------------------------------------------------------------------

  function Cell(o: Option<string>): Value {
    match o
    case None => Null
    case Some(v) => Text(v)
  }

  function TextOf(v: Value): Option<string> {
    match v
    case Text(s) => Some(s)
    case _ => None
  }

  function MakeRow(id: Value, endTo: Value, notifyTo: Value, mode: Value, expires: Value, filter: Value,
      renewed: Value): Row {
    map["id" := id, "end_to" := endTo, "notify_to" := notifyTo, "delivery_mode" := mode, "expires" := expires,
        "filter" := filter,
        "renewed" := renewed]
  }

  lemma MakeRowReads(id: Value, endTo: Value, notifyTo: Value, mode: Value, expires: Value, filter: Value,
      renewed: Value)
    ensures var row := MakeRow(id, endTo, notifyTo, mode, expires, filter, renewed);
            && HasColumns(row) && row["id"] == id && row["end_to"] == endTo && row["notify_to"] == notifyTo
            && row["delivery_mode"] == mode && row["expires"] == expires && row["filter"] == filter
                  && row["renewed"] == renewed
  {
  }

  /** The row of a subscriber: one column for each field that the table keeps. */
  function RowOf(s: Record): Row {
    MakeRow(Cell(s.id), Cell(Address(s.endTo)), Cell(Address(s.notifyTo)), Cell(s.deliveryMode), Cell(s.expires),
        Cell(s.filter),
            Flag(s.renewed))
  }

  predicate HasColumns(row: Row) {
    row.Keys == {"id", "end_to", "notify_to", "delivery_mode", "expires", "filter", "renewed"}
  }

  predicate WellTyped(row: Row) {
    && HasColumns(row)
    && row["id"].Text? && !row["end_to"].Flag? && !row["notify_to"].Flag? && !row["delivery_mode"].Flag?
    && !row["expires"].Flag? && !row["filter"].Flag? && row["renewed"].Flag?
  }

  function Key(row: Row): string
    requires WellTyped(row)
  {
    row["id"].s
  }

  /** The subscriber that is rebuilt from a row. */
  function FromRow(row: Row): Record
    requires WellTyped(row)
  {
    Record(TextOf(row["id"]), Some(EndpointRef(TextOf(row["end_to"]))), Some(EndpointRef(TextOf(row["notify_to"]))),
           TextOf(row["delivery_mode"]), TextOf(row["expires"]), TextOf(row["filter"]), None, row["renewed"].b)
  }

  predicate Keyed(t: Table) {
    && (forall i :: 0 <= i < |t| ==> WellTyped(t[i]))
    && (forall i, j :: 0 <= i < j < |t| ==> Key(t[i]) != Key(t[j]))
  }

  /** The table as a store. */
  function StoreOf(t: Table): Store
    requires Keyed(t)
  {
    if t == [] then map[]
    else
      var last := t[|t| - 1];
      StoreOf(t[..|t| - 1])[Key(last) := FromRow(last)]
  }

  // ---- The present fields -----------------------------------------------------------------------------------

  function Given(column: string, field: Option<string>): seq<string> {
    if field.Some? then [column] else []
  }

  function GivenValue(field: Option<string>): seq<Value> {
    if field.Some? then [Text(field.value)] else []
  }

  /** The optional columns of the fields that are present, in the order in which they are printed and bound. */
  function Columns(s: Record): seq<string> {
    Given("end_to", Address(s.endTo)) + (Given("notify_to", Address(s.notifyTo))
    + (Given("delivery_mode", s.deliveryMode) + (Given("expires", s.expires) + Given("filter", s.filter))))
  }

  function Values(s: Record): seq<Value> {
    GivenValue(Address(s.endTo)) + (GivenValue(Address(s.notifyTo))
    + (GivenValue(s.deliveryMode) + (GivenValue(s.expires) + GivenValue(s.filter))))
  }

  function InsertParameters(s: Record): Parameters
    requires s.id.Some?
  {
    Bound([Text(s.id.value)] + Values(s) + [Flag(s.renewed)])
  }

  function UpdateParameters(s: Record): Parameters
    requires s.id.Some?
  {
    Bound(Values(s) + [Flag(s.renewed), Text(s.id.value)])
  }

  /** The value bound for a column, if the column is listed. */
  function ValueAt(columns: seq<string>, values: seq<Value>, c: string): Option<Value>
    requires |columns| <= |values|
  {
    if c in columns then Some(values[IndexOf(columns, c)]) else None
  }

  lemma IndexOfAppends(a: seq<string>, b: seq<string>, c: string)
    requires c in a + b
    ensures IndexOf(a + b, c) == if c in a then IndexOf(a, c) else |a| + IndexOf(b, c)
  {
    var i := IndexOf(a + b, c);
    if c in a {
      var k := IndexOf(a, c);
      assert (a + b)[k] == c && (i < |a| ==> a[i] == (a + b)[i]);
    } else {
      var k := IndexOf(b, c);
      assert (a + b)[|a| + k] == c && (i >= |a| ==> b[i - |a|] == (a + b)[i]);
    }
  }

  lemma ValueAtAppends(a: seq<string>, va: seq<Value>, b: seq<string>, vb: seq<Value>, c: string)
    requires |a| == |va| && |b| <= |vb|
    ensures ValueAt(a + b, va + vb, c) == ValueAt(a, va, c).OrElse(ValueAt(b, vb, c))
  {
    if c in a + b {
      IndexOfAppends(a, b, c);
    }
  }

  /** What a field contributes to the value of a column. */
  function Contribution(column: string, field: Option<string>, c: string): Option<Value> {
    if c == column && field.Some? then Some(Text(field.value)) else None
  }

  lemma ValueAtGiven(column: string, field: Option<string>, b: seq<string>, vb: seq<Value>, c: string)
    requires |b| == |vb|
    ensures ValueAt(Given(column, field) + b, GivenValue(field) + vb, c)
        == Contribution(column, field, c).OrElse(ValueAt(b, vb, c))
    ensures |Given(column, field) + b| == |GivenValue(field) + vb|
  {
    ValueAtAppends(Given(column, field), GivenValue(field), b, vb, c);
  }

  /** The new value of a column, when the column is listed for the present fields. */
  function FieldValue(s: Record, c: string): Option<Value> {
    if c == "end_to" then Present(Address(s.endTo))
    else if c == "notify_to" then Present(Address(s.notifyTo))
    else if c == "delivery_mode" then Present(s.deliveryMode)
    else if c == "expires" then Present(s.expires)
    else if c == "filter" then Present(s.filter)
    else None
  }

  function Present(field: Option<string>): Option<Value> {
    if field.Some? then Some(Text(field.value)) else None
  }

  lemma SameLengths(s: Record)
    ensures |Columns(s)| == |Values(s)|
  {
  }

  /** Each column is bound to its own field, whatever other fields are present. */
  lemma ColumnsGetTheirValues(s: Record, c: string)
    requires |Columns(s)| == |Values(s)|
    ensures ValueAt(Columns(s), Values(s), c) == FieldValue(s, c)
  {
    var b4, v4 := Given("filter", s.filter), GivenValue(s.filter);
    var b3, v3 := Given("expires", s.expires) + b4, GivenValue(s.expires) + v4;
    var b2, v2 := Given("delivery_mode", s.deliveryMode) + b3, GivenValue(s.deliveryMode) + v3;
    var b1, v1 := Given("notify_to", Address(s.notifyTo)) + b2, GivenValue(Address(s.notifyTo)) + v2;
    assert ValueAt(b4, v4, c) == Contribution("filter", s.filter, c);
    ContributionsMakeFieldValue(s, c);
    hide *;
    ValueAtGiven("expires", s.expires, b4, v4, c);
    ValueAtGiven("delivery_mode", s.deliveryMode, b3, v3, c);
    ValueAtGiven("notify_to", Address(s.notifyTo), b2, v2, c);
    ValueAtGiven("end_to", Address(s.endTo), b1, v1, c);
  }

  lemma ContributionsMakeFieldValue(s: Record, c: string)
    ensures FieldValue(s, c) ==
            Contribution("end_to", Address(s.endTo), c).OrElse(Contribution("notify_to", Address(s.notifyTo), c)
            .OrElse(Contribution("delivery_mode", s.deliveryMode, c).OrElse(Contribution("expires", s.expires, c)
            .OrElse(Contribution("filter", s.filter, c)))))
  {
  }

  lemma ColumnsAreNames(s: Record)
    ensures Names(Columns(s)) && Known(Columns(s)) && "id" !in Columns(s) && "renewed" !in Columns(s)
  {
    assert IsWord("end_to") && IsWord("notify_to") && IsWord("delivery_mode") && IsWord("expires") && IsWord("filter");
    hide IsWord;
  }

  // ---- The abstract operations ------------------------------------------------------------------------------

  lemma {:induction false} StoreHolds(t: Table)
    requires Keyed(t)
    ensures forall id :: id in StoreOf(t) ==> exists i :: 0 <= i < |t| && Key(t[i]) == id
    ensures forall i :: 0 <= i < |t| ==> Key(t[i]) in StoreOf(t) && StoreOf(t)[Key(t[i])] == FromRow(t[i])
    decreases |t|
  {
    if t != [] {
      var init := t[..|t| - 1];
      hide WellTyped, FromRow;
      StoreHolds(init);
      assert forall i :: 0 <= i < |init| ==> init[i] == t[i];
    }
  }

  /** Selecting by id delivers the row of that id, if there is one. */
  lemma {:induction false} SelectById(t: Table, id: string)
    requires Keyed(t)
    ensures Select(t, "id", Text(id)) == [] <==> id !in StoreOf(t)
    ensures id in StoreOf(t) ==>
              var rows := Select(t, "id", Text(id));
              |rows| == 1 && rows[0] in t && WellTyped(rows[0]) && FromRow(rows[0]) == StoreOf(t)[id]
    decreases |t|
  {
    if t != [] {
      var init, last := t[..|t| - 1], t[|t| - 1];
      assert WellTyped(last);
      SelectById(init, id);
      hide FromRow;
      if Key(last) == id {
        StoreHolds(init);
        assert forall i :: 0 <= i < |init| ==> init[i] == t[i];
        assert id !in StoreOf(init);
      }
    }
  }

  lemma RowOfIsWellTyped(s: Record)
    requires s.id.Some?
    ensures WellTyped(RowOf(s)) && Key(RowOf(s)) == s.id.value && FromRow(RowOf(s)) == Kept(Sqlite, s)
  {
  }

  lemma InsertValueAt(s: Record, c: string)
    requires s.id.Some? && |Columns(s)| == |Values(s)|
    ensures ValueAt(["id"] + Columns(s) + ["renewed"], [Text(s.id.value)] + Values(s) + [Flag(s.renewed)], c)
         == (if c == "id" then Some(Text(s.id.value)) else if c == "renewed" then Some(Flag(s.renewed))
             else FieldValue(s, c))
  {
    ColumnsAreNames(s);
    ColumnsGetTheirValues(s, c);
    assert FieldValue(s, "id") == FieldValue(s, "renewed") == None;
    ValueAtOne("id", Text(s.id.value), c);
    ValueAtOne("renewed", Flag(s.renewed), c);
    hide *;
    ValueAtAppends(["id"] + Columns(s), [Text(s.id.value)] + Values(s), ["renewed"], [Flag(s.renewed)], c);
    ValueAtAppends(["id"], [Text(s.id.value)], Columns(s), Values(s), c);
  }

  lemma ValueAtOne(column: string, v: Value, c: string)
    ensures ValueAt([column], [v], c) == if c == column then Some(v) else None
  {
  }

  lemma RowOfByField(s: Record, c: string)
    requires c in ALL_COLUMNS && s.id.Some?
    ensures c in RowOf(s)
    ensures Some(RowOf(s)[c]) == if c == "id" then Some(Text(s.id.value))
        else if c == "renewed" then Some(Flag(s.renewed))
                                 else FieldValue(s, c).OrElse(Some(Null))
  {
  }

  lemma ParamIsValueAt(columns: seq<string>, values: seq<Value>, c: string)
    requires |columns| <= |values|
    ensures (if c in columns then Param(Bound(values), IndexOf(columns, c) + 1) else Null)
        == ValueAt(columns, values, c).GetOr(Null)
  {
  }

  /** The insert statement with its bound values builds the row of the subscriber: every column has its own field. */
  lemma InsertBuildsRow(s: Record)
    requires s.id.Some?
    ensures InsertedRow(["id"] + Columns(s) + ["renewed"], InsertParameters(s)) == RowOf(s)
  {
    var columns, values := ["id"] + Columns(s) + ["renewed"], [Text(s.id.value)] + Values(s) + [Flag(s.renewed)];
    SameLengths(s);
    InsertedRowReads(columns, InsertParameters(s));
    RowOfIsWellTyped(s);
    assert |columns| == |values| && InsertParameters(s) == Bound(values);
    assert forall c :: c in ALL_COLUMNS ==> c in RowOf(s);
    hide InsertedRow, InsertParameters, RowOf, Columns, Values, HasColumns, WellTyped, ValueAt, FieldValue, Bound,
        Param, Kept, FromRow;
    SameRow(InsertedRow(columns, Bound(values)), RowOf(s)) by {
      forall c | c in ALL_COLUMNS ensures InsertedRow(columns, Bound(values))[c] == RowOf(s)[c] {
        ParamIsValueAt(columns, values, c);
        InsertValueAt(s, c);
        RowOfByField(s, c);
      }
    }
  }

  lemma InsertedRowReads(columns: seq<string>, params: Parameters)
    ensures var row := InsertedRow(columns, params);
            && HasColumns(row)
            && forall c :: c in ALL_COLUMNS ==>
                  c in row && row[c] == if c in columns then Param(params, IndexOf(columns, c) + 1) else Null
  {
  }

  lemma SameRow(a: Row, b: Row)
    requires HasColumns(a) && HasColumns(b)
    requires forall c :: c in ALL_COLUMNS ==> c in a && c in b && a[c] == b[c]
    ensures a == b
  {
    assert forall c :: c in a <==> c in ALL_COLUMNS;
  }

  lemma StoreOfLast(t: Table)
    requires Keyed(t) && t != []
    ensures var init, last := t[..|t| - 1], t[|t| - 1];
            && WellTyped(last) && Keyed(init) && StoreOf(t) == StoreOf(init)[Key(last) := FromRow(last)]
                  && Key(last) !in StoreOf(init)
  {
    hide WellTyped, FromRow;
    StoreHolds(t[..|t| - 1]);
  }

  lemma StoreOfAppended(t: Table, row: Row)
    requires Keyed(t) && WellTyped(row) && Key(row) !in StoreOf(t)
    ensures Keyed(t + [row]) && StoreOf(t + [row]) == StoreOf(t)[Key(row) := FromRow(row)]
  {
    hide WellTyped, FromRow;
    StoreHolds(t);
    assert (t + [row])[..|t|] == t;
  }

  lemma InsertStatement(s: Record)
    requires s.id.Some?
    ensures Parse(InsertText(Columns(s))) == Some(InsertRow(TABLE, ["id"] + Columns(s) + ["renewed"], |Columns(s)| + 2))
    ensures Known(["id"] + Columns(s) + ["renewed"])
  {
    ColumnsAreNames(s);
    InsertTextSays(Columns(s));
    hide Parse, InsertText, Columns, Names;
  }

  lemma ExecuteInsert(columns: seq<string>, marks: nat, params: Parameters, t: Table, row: Row)
    requires Known(columns) && marks == |columns| && InsertedRow(columns, params) == row && "id" in row
    ensures Execute(InsertRow(TABLE, columns, marks), params, t) == if Select(t, "id", row["id"]) != [] then None
        else Some(t + [row])
  {
  }

  /** Running the printed insert with its bound values adds exactly the row of the subscriber, and fails exactly when
      the id is taken: the insert of the abstract store. */
  lemma InsertRefines(t: Table, s: Record)
    requires Keyed(t) && s.id.Some?
    ensures Parse(InsertText(Columns(s))).Some?
    ensures var r := Execute(Parse(InsertText(Columns(s))).value, InsertParameters(s), t);
            && r == (if s.id.value in StoreOf(t) then None else Some(t + [RowOf(s)]))
            && Keyed(r.GetOr(t)) && StoreOf(r.GetOr(t)) == Insert(Sqlite, StoreOf(t), s)
  {
    var columns := ["id"] + Columns(s) + ["renewed"];
    assert |columns| == |Columns(s)| + 2;
    InsertStatement(s);
    InsertBuildsRow(s);
    RowOfIsWellTyped(s);
    hide Parse, InsertText, InsertParameters, InsertedRow, Columns, RowOf, FromRow, Names, Known, Kept, Execute;
    SelectById(t, s.id.value);
    ExecuteInsert(columns, |columns|, InsertParameters(s), t, RowOf(s));
    hide WellTyped, HasColumns, Select;
    if s.id.value !in StoreOf(t) {
      StoreOfAppended(t, RowOf(s));
    }
  }

  /** A row after an update: the present fields are replaced, the absent ones are kept. */
  function MergedRow(row: Row, s: Record): Row
    requires WellTyped(row)
  {
    MakeRow(row["id"], Replaced(Address(s.endTo), row["end_to"]), Replaced(Address(s.notifyTo), row["notify_to"]),
            Replaced(s.deliveryMode, row["delivery_mode"]), Replaced(s.expires, row["expires"]),
                Replaced(s.filter, row["filter"]),
            Flag(s.renewed))
  }

  function Replaced(field: Option<string>, old_value: Value): Value {
    match field
    case None => old_value
    case Some(v) => Text(v)
  }

  lemma MergedRowIsWellTyped(row: Row, s: Record)
    requires WellTyped(row)
    ensures WellTyped(MergedRow(row, s)) && Key(MergedRow(row, s)) == Key(row)
    ensures FromRow(MergedRow(row, s)) == Merged(Sqlite, FromRow(row), s)
  {
    MakeRowReads(row["id"], Replaced(Address(s.endTo), row["end_to"]), Replaced(Address(s.notifyTo), row["notify_to"]),
                 Replaced(s.deliveryMode, row["delivery_mode"]), Replaced(s.expires, row["expires"]),
                     Replaced(s.filter, row["filter"]),
                 Flag(s.renewed));
    hide MakeRow, HasColumns;
  }

  lemma UpdateValueAt(s: Record, c: string)
    requires s.id.Some? && |Columns(s)| == |Values(s)|
    ensures ValueAt(Columns(s) + ["renewed"], Values(s) + [Flag(s.renewed), Text(s.id.value)], c)
         == (if c == "renewed" then Some(Flag(s.renewed)) else FieldValue(s, c))
  {
    ColumnsGetTheirValues(s, c);
    assert FieldValue(s, "renewed") == None;
    assert ValueAt(["renewed"], [Flag(s.renewed), Text(s.id.value)], c) == if c
        == "renewed" then Some(Flag(s.renewed)) else None;
    hide *;
    ValueAtAppends(Columns(s), Values(s), ["renewed"], [Flag(s.renewed), Text(s.id.value)], c);
  }

  lemma MergedRowByField(row: Row, s: Record, c: string)
    requires WellTyped(row) && c in row
    ensures c in MergedRow(row, s)
    ensures MergedRow(row, s)[c] == (if c == "renewed" then Some(Flag(s.renewed)) else FieldValue(s, c)).GetOr(row[c])
  {
  }

  lemma UpdateMergesRow(row: Row, s: Record)
    requires s.id.Some? && WellTyped(row)
    ensures UpdatedRow(row, Columns(s) + ["renewed"], UpdateParameters(s)) == MergedRow(row, s)
  {
    var columns, values := Columns(s) + ["renewed"], Values(s) + [Flag(s.renewed), Text(s.id.value)];
    SameLengths(s);
    assert |columns| <= |values|;
    UpdatedRowReads(row, columns, UpdateParameters(s));
    MergedRowIsWellTyped(row, s);
    hide UpdatedRow, MergedRow, Columns, Values, HasColumns;
    SameRow(UpdatedRow(row, columns, Bound(values)), MergedRow(row, s)) by {
      forall c | c in ALL_COLUMNS ensures UpdatedRow(row, columns, Bound(values))[c] == MergedRow(row, s)[c] {
        UpdatedParam(row, columns, values, c);
        UpdateValueAt(s, c);
        MergedRowByField(row, s, c);
        hide ValueAt, FieldValue, Bound;
      }
    }
  }

  lemma UpdatedParam(row: Row, columns: seq<string>, values: seq<Value>, c: string)
    requires |columns| <= |values| && c in row
    ensures (if c in columns then Param(Bound(values), IndexOf(columns, c) + 1) else row[c])
        == ValueAt(columns, values, c).GetOr(row[c])
  {
  }

  lemma UpdatedRowReads(row: Row, columns: seq<string>, params: Parameters)
    requires HasColumns(row)
    ensures var updated := UpdatedRow(row, columns, params);
            && HasColumns(updated)
            && forall c :: c in ALL_COLUMNS ==>
                 c in row && c in updated && updated[c] == if c in columns then Param(params, IndexOf(columns, c) + 1)
                     else row[c]
  {
  }

  lemma ChangedRowKeepsKeys(t: Table, u: Table, s: Record)
    requires Keyed(t) && |u| == |t| && s.id.Some?
    requires forall i :: 0 <= i < |t| ==> u[i] == if Key(t[i]) == s.id.value then MergedRow(t[i], s) else t[i]
    ensures Keyed(u) && forall i :: 0 <= i < |t| ==> Key(u[i]) == Key(t[i])
  {
    forall i | 0 <= i < |t| ensures WellTyped(u[i]) && Key(u[i]) == Key(t[i]) {
      MergedRowIsWellTyped(t[i], s);
    }
    hide WellTyped, MergedRow;
  }

  lemma UpdateOfOne(m: Store, k: string, r: Record, s: Record)
    requires s.id.Some? && k !in m
    ensures Stores.Update(Sqlite, m[k := r], s) ==
            if k == s.id.value then Stores.Update(Sqlite, m, s)[k := Merged(Sqlite, r, s)]
                else Stores.Update(Sqlite, m, s)[k := r]
  {
    hide Merged;
  }

  lemma RemoveOfOne(m: Store, k: string, r: Record, id: string)
    ensures Remove(m[k := r], id) == if k == id then Remove(m, id) else Remove(m, id)[k := r]
  {
  }

  lemma {:induction false} StoreOfChangedRow(t: Table, u: Table, s: Record)
    requires Keyed(t) && Keyed(u) && |u| == |t| && s.id.Some?
    requires forall i :: 0 <= i < |t| ==>
        u[i] == (if Key(t[i]) == s.id.value then MergedRow(t[i], s) else t[i]) && Key(u[i]) == Key(t[i])
    ensures StoreOf(u) == Stores.Update(Sqlite, StoreOf(t), s)
    decreases |t|
  {
    if t != [] {
      var n := |t| - 1;
      hide WellTyped, FromRow, MergedRow, Merged;
      KeyedInit(t);
      KeyedInit(u);
      StoreOfChangedRow(t[..n], u[..n], s);
      MergedRowIsWellTyped(t[n], s);
      StoreOfLast(t);
      StoreOfLast(u);
      UpdateOfOne(StoreOf(t[..n]), Key(t[n]), FromRow(t[n]), s);
      hide Keyed, StoreOf, Key, Stores.Update;
      assert u[n] == if Key(t[n]) == s.id.value then MergedRow(t[n], s) else t[n];
    }
  }

  lemma KeyedInit(t: Table)
    requires Keyed(t) && t != []
    ensures Keyed(t[..|t| - 1])
  {
    hide WellTyped;
  }

  lemma IdMatches(row: Row, id: string)
    requires WellTyped(row)
    ensures Matches(row, "id", Text(id)) <==> Key(row) == id
  {
  }

  /** Running the printed update with its bound values merges the present fields into the row with the id, changes no
      other row and creates none: the update of the abstract store. */
  lemma UpdateRefines(t: Table, s: Record)
    requires Keyed(t) && s.id.Some?
    ensures Parse(UpdateText(Columns(s))).Some?
    ensures var r := Execute(Parse(UpdateText(Columns(s))).value, UpdateParameters(s), t);
            && r.Some? && |r.value| == |t|
            && (forall i :: 0 <= i < |t| ==> r.value[i] == if Key(t[i]) == s.id.value then MergedRow(t[i], s) else t[i])
            && Keyed(r.value) && StoreOf(r.value) == Stores.Update(Sqlite, StoreOf(t), s)
  {
    UpdateStatement(s);
    var columns, params := Columns(s) + ["renewed"], UpdateParameters(s);
    assert Param(params, |columns| + 1) == Text(s.id.value) by { SameLengths(s); }
    hide Parse, UpdateText, UpdateParameters, Columns, Known, UpdatedRow, MergedRow, FromRow, Matches, WellTyped,
        StoreOf, Param;
    var u := Update(t, columns, params, "id");
    forall i | 0 <= i < |t| ensures u[i] == if Key(t[i]) == s.id.value then MergedRow(t[i], s) else t[i] {
      UpdateMergesRow(t[i], s);
      IdMatches(t[i], s.id.value);
    }
    ChangedRowKeepsKeys(t, u, s);
    StoreOfChangedRow(t, u, s);
  }

  lemma UpdateStatement(s: Record)
    ensures Parse(UpdateText(Columns(s))) == Some(UpdateRows(TABLE, Columns(s) + ["renewed"], "id"))
    ensures Known(Columns(s) + ["renewed"])
  {
    ColumnsAreNames(s);
    UpdateTextSays(Columns(s));
    hide Parse, UpdateText, Columns, Names;
  }

  lemma {:induction false} DeleteKeepsOthers(t: Table, id: string)
    requires Keyed(t)
    ensures var d := Delete(t, "id", Text(id));
            Keyed(d) && (forall i :: 0 <= i < |d| ==> d[i] in t && Key(d[i]) != id)
    decreases |t|
  {
    if t != [] {
      var init, last := t[..|t| - 1], t[|t| - 1];
      assert WellTyped(last);
      DeleteKeepsOthers(init, id);
      hide Delete;
      var d := Delete(init, "id", Text(id));
      forall i | 0 <= i < |d| ensures Key(d[i]) != Key(last) {
        assert d[i] in init;
      }
    }
  }

  lemma {:induction false} DeleteById(t: Table, id: string)
    requires Keyed(t) && Keyed(Delete(t, "id", Text(id)))
    ensures StoreOf(Delete(t, "id", Text(id))) == Remove(StoreOf(t), id)
    decreases |t|
  {
    if t != [] {
      var init, last := t[..|t| - 1], t[|t| - 1];
      hide WellTyped, Matches, FromRow;
      IdMatches(last, id);
      var d := Delete(init, "id", Text(id));
      assert Delete(t, "id", Text(id)) == if Key(last) == id then d else d + [last];
      hide Delete;
      StoreOfLast(t);
      DeleteKeepsOthers(init, id);
      DeleteById(init, id);
      if Key(last) != id {
        assert (d + [last])[..|d|] == d;
        StoreOfLast(d + [last]);
      }
      RemoveOfOne(StoreOf(init), Key(last), FromRow(last), id);
      hide Keyed, StoreOf, Key, Remove;
    }
  }

  /** Running the remove statement for an id without a quote removes the row with that id and no other. */
  lemma RemoveRefines(t: Table, id: string)
    requires Keyed(t) && '\'' !in id
    ensures Parse(RemoveText(id)).Some?
    ensures var r := Execute(Parse(RemoveText(id)).value, map[], t);
            r == Some(Delete(t, "id", Text(id))) && Keyed(r.value) && StoreOf(r.value) == Remove(StoreOf(t), id)
  {
    RemoveTextSays(id);
    DeleteKeepsOthers(t, id);
    DeleteById(t, id);
    hide Parse, RemoveText, Delete, StoreOf, Keyed;
  }
}
