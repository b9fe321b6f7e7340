/** The SQLite subscription manager: statements are printed field by field, then bound by a running counter. */
module SqliteManager {
  import opened Options
  import opened Subscribers
  import opened Stores
  import opened SqlText
  import opened SqlStatements
  import opened SqlTable
  import opened SqliteCallbacks

  // ---- Printing ---------------------------------------------------------------------------------------------

  function Fragment(field: Option<string>, text: string): string {
    if field.Some? then text else ""
  }

  /** One optional field of a statement that is being printed. */
  method AddField(text: string, counter: nat, fragment: string, field: Option<string>)
      returns (longer: string, count: nat)
    ensures longer == text + Fragment(field, fragment) && count == counter + |GivenValue(field)|
  {
    longer, count := text, counter;
    if field.Some? {
      longer := text + fragment;
      count := counter + 1;
    }
  }

  lemma EachGiven(column: string, field: Option<string>, before: string, after: string, rest: seq<string>)
    ensures Each(Given(column, field) + rest, before, after) == Fragment(field, before + column + after)
        + Each(rest, before, after)
  {
    if field.Some? {
      assert ([column] + rest)[1..] == rest;
    } else {
      assert Given(column, field) + rest == rest;
    }
  }

  /** The fields one after another are the list of the present columns. */
  lemma FieldsPrintColumns(s: Record, before: string, after: string)
    ensures Each(Columns(s), before, after) ==
            Fragment(Address(s.endTo), before + "end_to" + after)
                + (Fragment(Address(s.notifyTo), before + "notify_to" + after)
            + (Fragment(s.deliveryMode, before + "delivery_mode" + after)
                + (Fragment(s.expires, before + "expires" + after)
            + (Fragment(s.filter, before + "filter" + after) + ""))))
  {
    var b4 := Given("filter", s.filter);
    assert b4 + [] == b4 && Each([], before, after) == "";
    hide Each, Given, Fragment;
    EachGiven("filter", s.filter, before, after, []);
    EachGiven("expires", s.expires, before, after, b4);
    EachGiven("delivery_mode", s.deliveryMode, before, after, Given("expires", s.expires) + b4);
    EachGiven("notify_to", Address(s.notifyTo), before, after, Given("delivery_mode", s.deliveryMode)
        + (Given("expires", s.expires) + b4));
    EachGiven("end_to", Address(s.endTo), before, after,
              Given("notify_to", Address(s.notifyTo))
                  + (Given("delivery_mode", s.deliveryMode) + (Given("expires", s.expires) + b4)));
  }

  lemma Regroup(start: string, a: string, b: string, c: string, d: string, e: string)
    ensures start + a + b + c + d + e == start + (a + (b + (c + (d + (e + "")))))
  {
  }

  /** The text of an insert, as it is printed. */
  method PrintInsert(s: Subscriber) returns (text: string)
    ensures text == InsertText(Columns(s.Value()))
  {
    ghost var r := s.Value();
    hide InsertStart, InsertValues, Each, Repeat, Columns;
    var counter: nat := 1;
    text := InsertStart();
    text, counter := AddField(text, counter, ",end_to", Address(s.endTo));
    text, counter := AddField(text, counter, ",notify_to", Address(s.notifyTo));
    text, counter := AddField(text, counter, ",delivery_mode", s.deliveryMode);
    text, counter := AddField(text, counter, ",expires", s.expires);
    text, counter := AddField(text, counter, ",filter", s.filter);
    PrintedColumns(r);
    assert text == InsertStart() + Each(Columns(r), ",", "");
    CountColumns(r);
    assert counter == |Columns(r)| + 1;
    hide Fragment, GivenValue;
    text := text + ",renewed";
    text := text + InsertValues();
    text := AddMarks(text, counter);
    text := text + ");";
  }

  /** As many further placeholders as were counted. */
  method AddMarks(text: string, counter: nat) returns (longer: string)
    ensures longer == text + Repeat(counter, ",?")
  {
    longer := text;
    var i := 0;
    while i < counter
      invariant 0 <= i <= counter
      invariant longer == text + Repeat(i, ",?")
    {
      RepeatNext(i, ",?");
      longer := longer + ",?";
      i := i + 1;
    }
  }

  lemma PrintedColumns(r: Record)
    ensures InsertStart() + Fragment(Address(r.endTo), ",end_to") + Fragment(Address(r.notifyTo), ",notify_to")
            + Fragment(r.deliveryMode, ",delivery_mode") + Fragment(r.expires, ",expires")
                + Fragment(r.filter, ",filter")
         == InsertStart() + Each(Columns(r), ",", "")
  {
    ColumnLiterals();
    hide *;
    FieldsPrintColumns(r, ",", "");
    Regroup(InsertStart(), Fragment(Address(r.endTo), ",end_to"), Fragment(Address(r.notifyTo), ",notify_to"),
            Fragment(r.deliveryMode, ",delivery_mode"), Fragment(r.expires, ",expires"), Fragment(r.filter, ",filter"));
  }

  lemma ColumnLiterals()
    ensures "," + "end_to" + "" == ",end_to" && "," + "notify_to" + "" == ",notify_to"
        && "," + "delivery_mode" + "" == ",delivery_mode"
    ensures "," + "expires" + "" == ",expires" && "," + "filter" + "" == ",filter"
  {
  }

  lemma CountColumns(r: Record)
    ensures |Columns(r)| == |GivenValue(Address(r.endTo))| + |GivenValue(Address(r.notifyTo))|
        + |GivenValue(r.deliveryMode)|
                            + |GivenValue(r.expires)| + |GivenValue(r.filter)|
  {
  }

  lemma {:induction false} RepeatNext(n: nat, s: string)
    ensures Repeat(n + 1, s) == Repeat(n, s) + s
  {
    if n > 0 {
      RepeatNext(n - 1, s);
      assert s + (Repeat(n - 1, s) + s) == (s + Repeat(n - 1, s)) + s;
    } else {
      assert Repeat(1, s) == s + "" == "" + s;
    }
  }

  /** The text of an update, as it is printed. */
  method PrintUpdate(s: Subscriber) returns (text: string)
    ensures text == UpdateText(Columns(s.Value()))
  {
    ghost var r := s.Value();
    hide UpdateStart, UpdateWhere, Each, Columns;
    var counter: nat := 1;
    text := UpdateStart();
    text, counter := AddField(text, counter, "end_to=?, ", Address(s.endTo));
    text, counter := AddField(text, counter, "notify_to=?, ", Address(s.notifyTo));
    text, counter := AddField(text, counter, "delivery_mode=?, ", s.deliveryMode);
    text, counter := AddField(text, counter, "expires=?, ", s.expires);
    text, counter := AddField(text, counter, "filter=?, ", s.filter);
    PrintedAssignments(r);
    hide Fragment, GivenValue;
    text := text + UpdateWhere();
  }

  lemma PrintedAssignments(r: Record)
    ensures UpdateStart() + Fragment(Address(r.endTo), "end_to=?, ") + Fragment(Address(r.notifyTo), "notify_to=?, ")
            + Fragment(r.deliveryMode, "delivery_mode=?, ") + Fragment(r.expires, "expires=?, ")
                + Fragment(r.filter, "filter=?, ")
         == UpdateStart() + Each(Columns(r), "", "=?, ")
  {
    AssignmentLiterals();
    hide *;
    FieldsPrintColumns(r, "", "=?, ");
    Regroup(UpdateStart(), Fragment(Address(r.endTo), "end_to=?, "), Fragment(Address(r.notifyTo), "notify_to=?, "),
            Fragment(r.deliveryMode, "delivery_mode=?, "), Fragment(r.expires, "expires=?, "),
                Fragment(r.filter, "filter=?, "));
  }

  lemma AssignmentLiterals()
    ensures "" + "end_to" + "=?, " == "end_to=?, " && "" + "notify_to" + "=?, " == "notify_to=?, "
    ensures "" + "delivery_mode" + "=?, " == "delivery_mode=?, "
    ensures "" + "expires" + "=?, " == "expires=?, " && "" + "filter" + "=?, " == "filter=?, "
  {
  }

  // ---- Binding ----------------------------------------------------------------------------------------------

  /** The number of placeholders of a prepared statement. */
  function Marks(st: Option<SqlStatements.Statement>): nat {
    match st
    case Some(InsertRow(_, _, marks)) => marks
    case Some(UpdateRows(_, columns, _)) => |columns| + 1
    case _ => 0
  }

  class Prepared {
    const statement: Option<SqlStatements.Statement>
    var params: Parameters

    constructor (text: string)
      ensures statement == Parse(text) && params == map[]
    {
      statement, params := Parse(text), map[];
    }

    /** Binding a placeholder that the statement does not have is an error, which the manager only logs. */
    method Bind(i: nat, v: Value)
      modifies this
      ensures params == if 1 <= i <= Marks(statement) then old(params)[i := v] else old(params)
    {
      if 1 <= i <= Marks(statement) {
        params := params[i := v];
      }
    }

    /** The next placeholder is bound if the field is present. */
    method BindField(counter: nat, field: Option<string>, ghost bound: seq<Value>) returns (count: nat)
      requires params == Bound(bound) && counter == |bound| && |bound + GivenValue(field)| <= Marks(statement)
      modifies this
      ensures params == Bound(bound + GivenValue(field)) && count == |bound + GivenValue(field)|
    {
      count := counter;
      assert field.None? ==> bound + GivenValue(field) == bound;
      if field.Some? {
        count := counter + 1;
        BoundNext(bound, Text(field.value));
        Bind(count, Text(field.value));
      }
    }

    /** The last two placeholders of an update. */
    method BindRenewedAndId(s: Subscriber, counter: nat)
      requires s.id.Some? && params == Bound(Values(s.Value()))
          && counter == |Values(s.Value())| == Marks(statement) - 2
      modifies this
      ensures params == UpdateParameters(s.Value())
    {
      UpdateParametersNext(s.Value());
      hide Values, Bound, UpdateParameters, Marks;
      Bind(counter + 1, Flag(s.renewed));
      Bind(counter + 2, Text(s.id.value));
    }

    /** The five optional fields. */
    method BindFields(s: Subscriber, counter: nat, ghost bound: seq<Value>) returns (count: nat)
      requires params == Bound(bound) && counter == |bound| && |bound + Values(s.Value())| <= Marks(statement)
      modifies this
      ensures params == Bound(bound + Values(s.Value())) && count == |bound + Values(s.Value())|
    {
      hide Bound, GivenValue, Address;
      var e, n := Address(s.endTo), Address(s.notifyTo);
      ghost var b1 := bound + GivenValue(e);
      ghost var b2 := b1 + GivenValue(n);
      ghost var b3 := b2 + GivenValue(s.deliveryMode);
      ghost var b4 := b3 + GivenValue(s.expires);
      assert bound + Values(s.Value()) == b4 + GivenValue(s.filter);
      count := BindField(counter, e, bound);
      count := BindField(count, n, b1);
      count := BindField(count, s.deliveryMode, b2);
      count := BindField(count, s.expires, b3);
      count := BindField(count, s.filter, b4);
    }
  }

  lemma BoundNext(bound: seq<Value>, v: Value)
    ensures Bound(bound + [v]) == Bound(bound)[|bound| + 1 := v]
  {
    assert (bound + [v])[..|bound|] == bound;
  }

  // ---- Delivered rows ---------------------------------------------------------------------------------------

  function Shown(v: Value): Option<string> {
    match v
    case Null => None
    case Text(s) => Some(s)
    case Flag(b) => Some(if b then "1" else "0")
  }

  /** A row of a select over all columns, as the callback is given it. */
  function Show(row: Row): Delivered
    requires WellTyped(row)
  {
    [Column("id", Shown(row["id"])), Column("end_to", Shown(row["end_to"])),
        Column("notify_to", Shown(row["notify_to"])),
     Column("delivery_mode", Shown(row["delivery_mode"])), Column("expires", Shown(row["expires"])),
     Column("filter", Shown(row["filter"])), Column("renewed", Shown(row["renewed"]))]
  }

  function ShowAll(t: Table): seq<Delivered>
    requires forall i :: 0 <= i < |t| ==> WellTyped(t[i])
  {
    seq(|t|, i requires 0 <= i < |t| => Show(t[i]))
  }

  lemma FlagIsRead(b: bool)
    ensures IsSet(Shown(Flag(b))) == b
  {
    assert Atoi("1") == Atoi("", 1) == 1 && Atoi("0") == Atoi("", 0) == 0;
  }

  lemma SetSeven(s: Record, row: Row)
    requires WellTyped(row) && s.filterDialect.None?
    ensures WithRow(s, Show(row)) == FromRow(row)
  {
    var cells := Show(row);
    FlagIsRead(row["renewed"].b);
    var s1 := WithColumn(s, cells[0]);
    var s2 := WithColumn(s1, cells[1]);
    var s3 := WithColumn(s2, cells[2]);
    var s4 := WithColumn(s3, cells[3]);
    var s5 := WithColumn(s4, cells[4]);
    var s6 := WithColumn(s5, cells[5]);
    assert WithColumn(s6, cells[6]) == FromRow(row);
    hide WithColumn, Show;
    RowOfSeven(s, cells);
  }

  lemma RowOfSeven(s: Record, c: Delivered)
    requires |c| == 7
    ensures WithRow(s, c) ==
            WithColumn(WithColumn(WithColumn(WithColumn(WithColumn(WithColumn(WithColumn(s, c[0]), c[1]), c[2]),
                c[3]), c[4]), c[5]), c[6])
  {
    hide WithColumn;
    assert c[..7] == c;
    WithRowNext(s, c, 0); WithRowNext(s, c, 1); WithRowNext(s, c, 2); WithRowNext(s, c, 3);
    WithRowNext(s, c, 4); WithRowNext(s, c, 5); WithRowNext(s, c, 6);
    assert WithRow(s, c[..0]) == s;
    hide WithRow;
  }

  lemma WithRowNext(s: Record, c: Delivered, k: nat)
    requires k < |c|
    ensures WithRow(s, c[..k + 1]) == WithColumn(WithRow(s, c[..k]), c[k])
  {
    assert c[..k + 1][..k] == c[..k];
  }

  lemma ShownIsComplete(row: Row)
    requires WellTyped(row)
    ensures Complete(Show(row))
  {
    var c := Show(row);
    assert c[0].name == "id" && c[1].name == "end_to" && c[2].name == "notify_to" && c[3].name == "delivery_mode";
    assert c[4].name == "expires" && c[5].name == "filter" && c[6].name == "renewed";
    hide Show;
  }

  // ---- What an execution may answer -------------------------------------------------------------------------

  predicate TypedRows(t: Table) {
    forall i :: 0 <= i < |t| ==> WellTyped(t[i])
  }

  /** The rows that the table has for a select; None if the text is not a select of this table. */
  function Answer(text: string, t: Table): Option<seq<Delivered>>
  {
    var st :- Parse(text);
    var found :- Query(st, t);
    if TypedRows(found) then Some(ShowAll(found)) else None
  }

  /** Every execution delivers rows of seven columns, and one that ends well delivers what the table has. */
  ghost predicate Honest(e: Executions, text: string, t: Table) {
    && HonestAttempt(e.first, text, t)
    && forall i :: HonestAttempt(e.again(i), text, t)
  }

  ghost predicate HonestAttempt(a: Attempt, text: string, t: Table) {
    AllComplete(a.rows) && (a.code == Ok ==> Answer(text, t) == Some(a.rows))
  }

  lemma {:induction false} RowsOfHonest(e: Executions, text: string, t: Table, n: nat)
    requires Honest(e, text, t)
    ensures AllComplete(RowsOf(e.again, n))
  {
    hide Complete;
    if n > 0 {
      RowsOfHonest(e, text, t, n - 1);
      assert HonestAttempt(e.again(n - 1), text, t);
    }
  }

  lemma HonestRows(e: Executions, text: string, t: Table)
    requires Honest(e, text, t)
    ensures AllComplete(EarlierRows(e)) && HonestAttempt(Last(e), text, t)
  {
    hide Complete, RetriesFrom;
    if Retries(e) > 0 {
      RowsOfHonest(e, text, t, Retries(e) - 1);
    }
  }

  /** The condition of the two retrieve statements. */
  function Condition(filter: Option<string>): Option<(string, string)> {
    if filter.Some? then Some(("filter", filter.value)) else None
  }

  function Found(t: Table, condition: Option<(string, string)>): Table {
    if condition.None? then t else Select(t, condition.value.0, Text(condition.value.1))
  }

  /** A retrieve statement whose value holds no quote is answered with the rows that have the value. */
  lemma SelectIsAnswered(t: Table, condition: Option<(string, string)>)
    requires Keyed(t) && (condition.Some? ==> condition.value.0 in ["id", "filter"] && '\'' !in condition.value.1)
    ensures TypedRows(Found(t, condition)) && Answer(SelectText(condition), t) == Some(ShowAll(Found(t, condition)))
  {
    if condition.Some? {
      SelectedRows(t, condition.value.0, Text(condition.value.1));
      assert forall r :: r in t ==> WellTyped(r);
    }
    assert IsWord("id") && IsWord("filter");
    SelectTextSays(condition);
    hide Parse, SelectText, WellTyped, Select, IsWord;
  }

  lemma RetrieveFindsRow(t: Table, id: string)
    requires Keyed(t) && '\'' !in id
    ensures var rows := Answer(SelectText(Some(("id", id))), t);
            && rows.Some? && (rows.value == [] <==> id !in StoreOf(t))
            && (id in StoreOf(t) ==> AfterRows(RetrieveOne, NOTHING, rows.value).one == Some(StoreOf(t)[id]))
  {
    SelectIsAnswered(t, Some(("id", id)));
    SelectById(t, id);
    hide SelectText, Answer, Select, StoreOf;
    if id in StoreOf(t) {
      var row := Found(t, Some(("id", id)))[0];
      var rows := ShowAll(Found(t, Some(("id", id))));
      assert rows == [Show(row)];
      ShownIsComplete(row);
      hide Show, Complete, FromRow, WellTyped, WithRow;
      LastRowDecides(NOTHING, rows);
      SetSeven(BLANK, row);
    }
  }

  function Rebuilt(t: Table): seq<Record>
    requires TypedRows(t)
  {
    seq(|t|, i requires 0 <= i < |t| => FromRow(t[i]))
  }

  lemma ListIsRebuilt(t: Table)
    requires TypedRows(t)
    ensures EachRow(ShowAll(t)) == Rebuilt(t) && AllComplete(ShowAll(t))
  {
    forall i | 0 <= i < |t| ensures WithRow(BLANK, Show(t[i])) == FromRow(t[i]) && Complete(Show(t[i])) {
      assert WellTyped(t[i]);
      hide Show, Complete, FromRow, WellTyped, WithRow;
      SetSeven(BLANK, t[i]);
      ShownIsComplete(t[i]);
    }
    hide Show, Complete, FromRow, WellTyped, WithRow;
  }

  function Ids(t: Table): seq<string>
    requires TypedRows(t)
  {
    seq(|t|, i requires 0 <= i < |t| => Key(t[i]))
  }

  lemma {:induction false} SelectedRows(t: Table, column: string, v: Value)
    ensures forall r :: r in Select(t, column, v) <==> r in t && Matches(r, column, v)
    decreases |t|
  {
    hide Matches;
    if t != [] {
      var init, last := t[..|t| - 1], t[|t| - 1];
      SelectedRows(init, column, v);
      assert t == init + [last];
    }
  }

  lemma {:induction false} SelectedAreKeyed(t: Table, column: string, v: Value)
    requires Keyed(t)
    ensures Keyed(Select(t, column, v))
    decreases |t|
  {
    hide WellTyped, Matches;
    if t != [] {
      var init, last := t[..|t| - 1], t[|t| - 1];
      SelectedAreKeyed(init, column, v);
      SelectedRows(init, column, v);
      var rows := Select(init, column, v);
      forall i | 0 <= i < |rows| ensures Key(rows[i]) != Key(last) {
        assert rows[i] in init;
      }
    }
  }

  lemma FilterMatches(row: Row, f: string)
    requires WellTyped(row)
    ensures Matches(row, "filter", Text(f)) <==> FromRow(row).filter == Some(f)
  {
  }

  /** The rows found are the rows of the table whose subscriber has the filter. */
  lemma FoundRows(t: Table, filter: Option<string>)
    requires Keyed(t)
    ensures var rows := Found(t, Condition(filter));
            && Keyed(rows)
            && (forall i :: 0 <= i < |rows| ==> rows[i] in t && (filter.Some? ==> FromRow(rows[i]).filter == filter))
            && (forall i :: 0 <= i < |t| && (filter.Some? ==> FromRow(t[i]).filter == filter) ==> t[i] in rows)
  {
    if filter.Some? {
      SelectedRows(t, "filter", Text(filter.value));
      SelectedAreKeyed(t, "filter", Text(filter.value));
      forall r | r in t ensures WellTyped(r)
          && (Matches(r, "filter", Text(filter.value)) <==> FromRow(r).filter == filter) {
        FilterMatches(r, filter.value);
      }
      hide Select, Matches, FromRow, WellTyped;
    }
  }

  lemma FoundAreFiltered(t: Table, filter: Option<string>)
    requires Keyed(t) && Keyed(Found(t, Condition(filter)))
    ensures var rows, m := Found(t, Condition(filter)), Filtered(StoreOf(t), filter);
            && (forall i :: 0 <= i < |rows| ==> Ids(rows)[i] in m && Rebuilt(rows)[i] == m[Ids(rows)[i]])
            && (forall k :: k in m ==> k in Ids(rows))
  {
    hide Found, FromRow, WellTyped;
    FoundRows(t, filter);
    StoreHolds(t);
    var rows, m := Found(t, Condition(filter)), Filtered(StoreOf(t), filter);
    hide Keyed, StoreOf;
    forall i | 0 <= i < |rows| ensures Ids(rows)[i] in m && Rebuilt(rows)[i] == m[Ids(rows)[i]] {
      assert rows[i] in t;
    }
    forall k | k in m ensures k in Ids(rows) {
      var i :| 0 <= i < |t| && Key(t[i]) == k;
      var j :| 0 <= j < |rows| && rows[j] == t[i];
      assert Ids(rows)[j] == k;
    }
  }

  /** The rows with a filter, in the order of the table, are the subscribers of the store with that filter, each
      once. */
  lemma FoundIsFiltered(t: Table, filter: Option<string>)
    requires Keyed(t)
    ensures var rows := Found(t, Condition(filter));
            TypedRows(rows) && EnumeratesBy(Rebuilt(rows), Filtered(StoreOf(t), filter), Ids(rows))
  {
    FoundRows(t, filter);
    hide Found, FromRow, WellTyped, StoreOf, Filtered;
    FoundAreFiltered(t, filter);
  }

  lemma AnswerIsFiltered(t: Table, filter: Option<string>)
    requires Keyed(t) && (filter.Some? ==> '\'' !in filter.value)
    ensures var rows := Answer(SelectText(Condition(filter)), t);
            rows.Some? && Enumerates(EachRow(rows.value), Filtered(StoreOf(t), filter))
  {
    SelectIsAnswered(t, Condition(filter));
    hide SelectText, Answer, StoreOf, Keyed, Found, Rebuilt, TypedRows, Filtered, EnumeratesBy;
    FoundIsFiltered(t, filter);
    ListIsRebuilt(Found(t, Condition(filter)));
  }

  /** What the list callback has gathered when the select has been run. */
  lemma ListAnswers(t: Table, filter: Option<string>, e: Executions)
    requires Keyed(t) && Honest(e, SelectText(Condition(filter)), t)
    ensures AfterRows(FindAll, NOTHING, EarlierRows(e) + Last(e).rows).list.GetOr([]) == EachRow(EarlierRows(e))
        + EachRow(Last(e).rows)
    ensures Last(e).code == Ok && (filter.Some? ==> '\'' !in filter.value) ==>
        Enumerates(EachRow(Last(e).rows), Filtered(StoreOf(t), filter))
  {
    HonestRows(e, SelectText(Condition(filter)), t);
    hide SelectText, Answer, StoreOf, Keyed, Filtered, Enumerates, Last, EarlierRows, Named, EachRow, AfterRows, Honest;
    CompleteIsNotEmpty(EarlierRows(e));
    CompleteIsNotEmpty(Last(e).rows);
    hide Complete;
    ListIsLastAttempt(e);
    if filter.Some? ==> '\'' !in filter.value {
      AnswerIsFiltered(t, filter);
    }
  }

  lemma CompleteIsNotEmpty(rows: seq<Delivered>)
    requires AllComplete(rows)
    ensures forall i :: 0 <= i < |rows| ==> rows[i] != []
  {
    forall i | 0 <= i < |rows| ensures rows[i] != [] {
      assert Complete(rows[i]) && Named(rows[i], "id");
    }
  }

  // ---- The manager ------------------------------------------------------------------------------------------

  class Manager {
    /** The table in the database file. */
    var rows: Table

    ghost predicate Valid()
      reads this
    {
      Keyed(rows)
    }

    ghost function Store(): Store
      reads this
      requires Valid()
    {
      StoreOf(rows)
    }

    constructor ()
      ensures Valid() && Store() == map[]
    {
      rows := [];
    }

    /** connected: the database could be opened; done: nothing outside the statement keeps its step from completing. */
    method Insert(s: Subscriber, connected: bool, done: bool) returns (status: Status)
      requires Valid() && s.id.Some?
      modifies this
      ensures Valid()
      ensures status == Success <==> connected && done && s.id.value !in old(Store())
      ensures rows == if status == Success then old(rows) + [RowOf(s.Value())] else old(rows)
      ensures Store() == if connected && done then Stores.Insert(Sqlite, old(Store()), s.Value()) else old(Store())
    {
      if !connected {
        return Failure;
      }
      ghost var r := s.Value();
      var query := PrepareInsert(s);
      InsertRefines(rows, r);
      hide Parse, InsertText, InsertParameters, Execute, Keyed, RowOf, Columns, StoreOf;
      var stepped := if done && query.statement.Some? then Execute(query.statement.value, query.params, rows) else None;
      match stepped {
        case None => status := Failure;
        case Some(after) =>
          rows := after;
          status := Success;
      }
    }

    /** An update of an id that is not there is a success that changes nothing. */
    method Update(s: Subscriber, connected: bool, done: bool) returns (status: Status)
      requires Valid() && s.id.Some?
      modifies this
      ensures Valid()
      ensures status == Success <==> connected && done
      ensures Store() == if status == Success then Stores.Update(Sqlite, old(Store()), s.Value()) else old(Store())
      ensures |rows| == |old(rows)|
      ensures forall i :: 0 <= i < |rows| ==>
                rows[i] == if status == Success
                    && Key(old(rows[i])) == s.id.value then MergedRow(old(rows[i]), s.Value()) else old(rows[i])
    {
      if !connected {
        return Failure;
      }
      ghost var r := s.Value();
      var query := PrepareUpdate(s);
      UpdateRefines(rows, r);
      hide Parse, UpdateText, UpdateParameters, Execute, Columns, StoreOf, MergedRow, WellTyped;
      var stepped := if done && query.statement.Some? then Execute(query.statement.value, query.params, rows) else None;
      match stepped {
        case None => status := Failure;
        case Some(after) =>
          rows := after;
          status := Success;
      }
    }

    /** The removal inside a transaction: whatever becomes of the COMMIT, a delete that was executed is a success. */
    method Remove(id: string, connected: bool, begin: Executions, delete: Executions, commit: Executions)
        returns (status: Status)
      requires Valid()
      requires Last(delete).code == Ok ==>
          Parse(RemoveText(id)).Some? && Execute(Parse(RemoveText(id)).value, map[], rows).Some?
      modifies this
      ensures '\'' !in id ==> Valid()
      ensures status == Success <==> connected && Last(delete).code == Ok
      ensures var kept := Last(begin).code == Ok && Last(commit).code != Ok;
              && (status == Failure || kept ==> rows == old(rows))
              && ('\'' !in id && status == Success && !kept ==>
                    rows == Delete(old(rows), "id", Text(id)) && Store() == Stores.Remove(old(Store()), id))
    {
      if !connected {
        return Failure;
      }
      if '\'' !in id {
        RemoveRefines(rows, id);
      }
      hide Parse, RemoveText, Execute, Delete, Keyed, StoreOf, Last;
      var began := RunQuietly(begin);
      var text := RemoveText(id);
      var ended := RunQuietly(delete);
      if ended != Ok {
        return Failure;
      }
      var after := Execute(Parse(text).value, map[], rows).value;
      if began != Ok {
        rows := after;
      }
      var committed := RunQuietly(commit);
      if began == Ok && committed == Ok {
        rows := after;
      }
      status := Success;
    }

    /** The subscriber with the id; an execution that fails, or finds none, answers NULL. */
    method Retrieve(id: string, connected: bool, e: Executions) returns (s: Subscriber?)
      requires Valid() && Honest(e, SelectText(Some(("id", id))), rows)
      ensures s != null ==> connected && Last(e).code == Ok
      ensures connected && Last(e).code == Ok && '\'' !in id && id in Store() ==> s != null && s.Value() == Store()[id]
      ensures connected && Last(e).code == Ok && '\'' !in id && id !in Store() && Fresh(e) ==> s == null
    {
      s := null;
      if !connected {
        return;
      }
      var args := new Args();
      var text := SelectText(Some(("id", id)));
      var code := args.Run(RetrieveOne, e);
      if code != Ok {
        return;
      }
      s := args.subscriber;
      if '\'' !in id {
        RetrieveFindsRow(rows, id);
        HonestRows(e, text, rows);
        hide Parse, SelectText, Answer, StoreOf, Keyed, Honest, AfterRows, Complete;
        RetrieveIsLastAttempt(e);
      }
    }

    /** The subscribers with the filter, or all of them; a failing execution answers NULL. */
    method RetrieveAll(filter: Option<string>, connected: bool, e: Executions) returns (list: Option<seq<Subscriber>>)
      requires Valid() && Honest(e, SelectText(Condition(filter)), rows)
      ensures list.Some? <==> connected && Last(e).code == Ok
      ensures list.Some? ==> Records(list.value) == EachRow(EarlierRows(e)) + EachRow(Last(e).rows)
      ensures list.Some? && (filter.Some? ==> '\'' !in filter.value) ==>
                Enumerates(EachRow(Last(e).rows), Filtered(Store(), filter))
    {
      list := None;
      if !connected {
        return;
      }
      ListAnswers(rows, filter, e);
      hide SelectText, StoreOf, Keyed, Enumerates, AfterRows, Honest, EachRow, Filtered;
      var args := new Args();
      var code := args.Run(FindAll, e);
      var found := args.list.GetOr([]);
      if code != Ok {
        return;
      }
      list := Some(found);
    }
  }

  /** A statement without a callback. */
  method RunQuietly(e: Executions) returns (code: Code)
    ensures code == Last(e).code
  {
    hide Last, AfterRows, EarlierRows;
    var args := new Args();
    code := args.Run(NoCallback, e);
  }

  method PrepareInsert(s: Subscriber) returns (query: Prepared)
    requires s.id.Some?
    ensures query.statement == Parse(InsertText(Columns(s.Value()))) && query.params == InsertParameters(s.Value())
  {
    ghost var r := s.Value();
    var text := PrintInsert(s);
    InsertStatement(r);
    SameLengths(r);
    query := new Prepared(text);
    hide Parse, InsertText, Columns, Values, Bound;
    var counter: nat := 1;
    BindId(query, s.id.value);
    counter := query.BindFields(s, counter, [Text(s.id.value)]);
    counter := counter + 1;
    BoundNext([Text(s.id.value)] + Values(r), Flag(s.renewed));
    query.Bind(counter, Flag(s.renewed));
  }

  method PrepareUpdate(s: Subscriber) returns (query: Prepared)
    requires s.id.Some?
    ensures query.statement == Parse(UpdateText(Columns(s.Value()))) && query.params == UpdateParameters(s.Value())
  {
    var text := PrintUpdate(s);
    UpdateMarks(s.Value());
    query := new Prepared(text);
    hide Parse, UpdateText, Columns, Values, Bound, UpdateParameters, Marks;
    var counter := query.BindFields(s, 0, []);
    query.BindRenewedAndId(s, counter);
  }

  lemma UpdateMarks(r: Record)
    ensures Marks(Parse(UpdateText(Columns(r)))) == |Values(r)| + 2
    ensures Bound([]) == map[] && [] + Values(r) == Values(r)
  {
    UpdateStatement(r);
    SameLengths(r);
    hide Parse, UpdateText, Columns, Values;
  }

  lemma UpdateParametersNext(r: Record)
    requires r.id.Some?
    ensures UpdateParameters(r)
        == Bound(Values(r))[|Values(r)| + 1 := Flag(r.renewed)][|Values(r)| + 2 := Text(r.id.value)]
  {
    var flagged := Values(r) + [Flag(r.renewed)];
    BoundNext(Values(r), Flag(r.renewed));
    BoundNext(flagged, Text(r.id.value));
    assert Values(r) + [Flag(r.renewed), Text(r.id.value)] == flagged + [Text(r.id.value)];
  }

  /** The id is bound first. */
  method BindId(query: Prepared, id: string)
    requires query.params == map[] && Marks(query.statement) >= 1
    modifies query
    ensures query.params == Bound([Text(id)])
  {
    BoundNext([], Text(id));
    assert [] + [Text(id)] == [Text(id)];
    query.Bind(1, Text(id));
  }
}
