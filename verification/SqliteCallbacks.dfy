/** Running one statement with its row callback, again and again while the database is busy. */
module SqliteCallbacks {
  import opened Options
  import opened Subscribers

  // ---- Rows as they are delivered ---------------------------------------------------------------------------

  /** One column of a delivered row: its name and its text. */
  datatype Column = Column(name: string, text: Option<string>)

  type Delivered = seq<Column>

  predicate Digit(c: char) {
    '0' <= c <= '9'
  }

  /** The number at the start of a text. */
  function Atoi(text: string, sofar: nat := 0): nat
    decreases |text|
  {
    if text == "" || !Digit(text[0]) then sofar else Atoi(text[1..], 10 * sofar + (text[0] as int - '0' as int))
  }

  function IsSet(text: Option<string>): bool {
    text.Some? && Atoi(text.value) != 0
  }

  /** A text is a number other than zero exactly if, after any zeros, it goes on with another digit. */
  lemma {:induction false} IsSetExactly(text: string)
    ensures IsSet(Some(text)) <==>
              exists n :: 0 <= n < |text| && '1' <= text[n] <= '9' && forall k :: 0 <= k < n ==> text[k] == '0'
    ensures !IsSet(None)
    decreases |text|
  {
    if text != "" && text[0] == '0' {
      var rest := text[1..];
      IsSetExactly(rest);
      if n :| 0 <= n < |rest| && '1' <= rest[n] <= '9' && forall k :: 0 <= k < n ==> rest[k] == '0' {
        assert text[n + 1] == rest[n] && forall k :: 0 <= k < n + 1 ==> text[k] == '0';
      }
      if n :| 0 <= n < |text| && '1' <= text[n] <= '9' && forall k :: 0 <= k < n ==> text[k] == '0' {
        assert rest[n - 1] == text[n] && forall k :: 0 <= k < n - 1 ==> rest[k] == text[k + 1];
      }
    } else if text != "" && Digit(text[0]) {
      AtoiGrows(text[1..], text[0] as int - '0' as int);
      assert '1' <= text[0] <= '9';
    }
  }

  lemma {:induction false} AtoiGrows(text: string, sofar: nat)
    ensures Atoi(text, sofar) >= sofar
    decreases |text|
  {
    if text != "" && Digit(text[0]) {
      AtoiGrows(text[1..], 10 * sofar + (text[0] as int - '0' as int));
    }
  }

  /** A subscriber after one column: the field of that name is set, whatever it was. */
  function WithColumn(s: Record, c: Column): Record {
    if c.name == "id" then s.(id := c.text)
    else if c.name == "end_to" then s.(endTo := Some(EndpointRef(c.text)))
    else if c.name == "notify_to" then s.(notifyTo := Some(EndpointRef(c.text)))
    else if c.name == "delivery_mode" then s.(deliveryMode := c.text)
    else if c.name == "expires" then s.(expires := c.text)
    else if c.name == "filter" then s.(filter := c.text)
    else if c.name == "renewed" then s.(renewed := IsSet(c.text))
    else s
  }

  function WithRow(s: Record, row: Delivered): Record {
    if row == [] then s else WithColumn(WithRow(s, row[..|row| - 1]), row[|row| - 1])
  }

  /** What the last column of the given name holds. */
  function TextIn(row: Delivered, name: string): Option<Option<string>> {
    if row == [] then None
    else if row[|row| - 1].name == name then Some(row[|row| - 1].text)
    else TextIn(row[..|row| - 1], name)
  }

  function ReferenceIn(row: Delivered, name: string): Option<Option<EndpointRef>> {
    var text :- TextIn(row, name);
    Some(Some(EndpointRef(text)))
  }

  /** A row sets exactly the fields of the columns it has. */
  lemma {:induction false} RowSetsItsColumns(s: Record, row: Delivered)
    ensures WithRow(s, row) == Record(
      TextIn(row, "id").GetOr(s.id), ReferenceIn(row, "end_to").GetOr(s.endTo),
          ReferenceIn(row, "notify_to").GetOr(s.notifyTo),
      TextIn(row, "delivery_mode").GetOr(s.deliveryMode), TextIn(row, "expires").GetOr(s.expires),
      TextIn(row, "filter").GetOr(s.filter), s.filterDialect,
      if TextIn(row, "renewed").Some? then IsSet(TextIn(row, "renewed").value) else s.renewed)
    decreases |row|
  {
    if row != [] {
      RowSetsItsColumns(s, row[..|row| - 1]);
    }
  }

  /** The seven columns, each once, in any order. */
  predicate Complete(row: Delivered) {
    && (forall i, j :: 0 <= i < j < |row| ==> row[i].name != row[j].name)
    && Named(row, "id") && Named(row, "end_to") && Named(row, "notify_to") && Named(row, "delivery_mode")
    && Named(row, "expires") && Named(row, "filter") && Named(row, "renewed")
  }

  predicate Named(row: Delivered, name: string) {
    exists i :: 0 <= i < |row| && row[i].name == name
  }

  lemma {:induction false} NamedIsFound(row: Delivered, name: string)
    ensures Named(row, name) <==> TextIn(row, name).Some?
    ensures TextIn(row, name).Some? ==> Column(name, TextIn(row, name).value) in row
    decreases |row|
  {
    if row != [] {
      var init := row[..|row| - 1];
      NamedIsFound(init, name);
      if Named(row, name) && row[|row| - 1].name != name {
        var i :| 0 <= i < |row| && row[i].name == name;
        assert init[i].name == name;
      }
    }
  }

  /** A complete row decides every stored field: nothing of an earlier row is left. */
  lemma CompleteRowDecides(s: Record, s': Record, row: Delivered)
    requires Complete(row) && s.filterDialect == s'.filterDialect
    ensures WithRow(s, row) == WithRow(s', row)
  {
    NamedIsFound(row, "id");
    NamedIsFound(row, "end_to");
    NamedIsFound(row, "notify_to");
    NamedIsFound(row, "delivery_mode");
    NamedIsFound(row, "expires");
    NamedIsFound(row, "filter");
    NamedIsFound(row, "renewed");
    hide Named, TextIn, WithRow;
    RowSetsItsColumns(s, row);
    RowSetsItsColumns(s', row);
  }

  /** The order of the columns does not matter. */
  lemma ColumnOrderDoesNotMatter(s: Record, row: Delivered, other: Delivered)
    requires Complete(row) && Complete(other) && forall c :: c in row <==> c in other
    ensures WithRow(s, row) == WithRow(s, other)
  {
    forall name | Named(row, name) && Named(other, name) ensures TextIn(row, name) == TextIn(other, name) {
      NamedIsFound(row, name);
      NamedIsFound(other, name);
      var c := Column(name, TextIn(other, name).value);
      var i :| 0 <= i < |row| && row[i] == c;
      var j :| 0 <= j < |row| && row[j] == Column(name, TextIn(row, name).value);
      assert row[i].name == row[j].name;
    }
    RowSetsItsColumns(s, row);
    RowSetsItsColumns(s, other);
    hide TextIn, WithRow, Named;
  }

  // ---- The callback argument --------------------------------------------------------------------------------

  datatype Callback = NoCallback | RetrieveOne | FindAll

  /** What the callbacks have gathered: one subscriber, or a list of them. */
  datatype Data = Data(one: Option<Record>, list: Option<seq<Record>>)

  const NOTHING := Data(None, None)

  function AfterRow(callback: Callback, d: Data, row: Delivered): Data {
    match callback
    case NoCallback => d
    case RetrieveOne => d.(one := if row == [] then None else Some(WithRow(d.one.GetOr(BLANK), row)))
    case FindAll => d.(list := if row == [] then None else Some(d.list.GetOr([]) + [WithRow(BLANK, row)]))
  }

  function AfterRows(callback: Callback, d: Data, rows: seq<Delivered>): Data {
    if rows == [] then d else AfterRow(callback, AfterRows(callback, d, rows[..|rows| - 1]), rows[|rows| - 1])
  }

  lemma {:induction false} AfterRowsAppends(callback: Callback, d: Data, a: seq<Delivered>, b: seq<Delivered>)
    ensures AfterRows(callback, d, a + b) == AfterRows(callback, AfterRows(callback, d, a), b)
    decreases |b|
  {
    if b == [] {
      assert a + b == a;
    } else {
      assert (a + b)[..|a + b| - 1] == a + b[..|b| - 1] && (a + b)[|a + b| - 1] == b[|b| - 1];
      AfterRowsAppends(callback, d, a, b[..|b| - 1]);
    }
  }

  /** A row without columns drops what was gathered. */
  lemma EmptyRowDrops(d: Data, rows: seq<Delivered>)
    ensures AfterRows(RetrieveOne, d, rows + [[]]).one == None
    ensures AfterRows(FindAll, d, rows + [[]]).list == None
    ensures AfterRows(NoCallback, d, []) == d
  {
    assert (rows + [[]])[..|rows|] == rows;
  }

  // ---- Attempts ---------------------------------------------------------------------------------------------

  datatype Code = Ok | Busy | Error

  /** One execution of a statement: the rows it delivers before it ends, and how it ends. */
  datatype Attempt = Attempt(code: Code, rows: seq<Delivered>)

  /** How the executions of one statement will go: the first, and the ones in the busy handler. */
  datatype Executions = Executions(first: Attempt, again: nat -> Attempt)

  const MAX_RETRIES: nat := 512

  /** How often the busy handler executes the statement, after i times and a result. */
  function RetriesFrom(again: nat -> Attempt, i: nat, code: Code): (n: nat)
    requires i <= MAX_RETRIES
    ensures i <= n <= MAX_RETRIES
    decreases MAX_RETRIES - i
  {
    if code == Busy && i < MAX_RETRIES then RetriesFrom(again, i + 1, again(i).code) else i
  }

  /** What the callbacks have gathered after n repetitions. */
  function Gathered(callback: Callback, again: nat -> Attempt, n: nat, start: Data): Data {
    AfterRows(callback, start, RowsOf(again, n))
  }

  /** How the statement has ended after n repetitions. */
  function CodeAfter(again: nat -> Attempt, n: nat, code: Code): Code {
    if n == 0 then code else again(n - 1).code
  }

  lemma NextRetry(again: nat -> Attempt, i: nat, code: Code)
    ensures i < MAX_RETRIES ==> RetriesFrom(again, i, Busy) == RetriesFrom(again, i + 1, again(i).code)
    ensures RowsOf(again, i + 1) == RowsOf(again, i) + again(i).rows && CodeAfter(again, i + 1, code) == again(i).code
  {
  }

  lemma NoRetriesYet(callback: Callback, again: nat -> Attempt, code: Code, d: Data)
    ensures Gathered(callback, again, 0, d) == d && CodeAfter(again, 0, code) == code
  {
  }

  /** The repetitions go on exactly as long as the statement is busy, and end at the limit. */
  lemma {:induction false} RepeatedWhileBusy(again: nat -> Attempt, i: nat, code: Code)
    requires i <= MAX_RETRIES
    ensures var n := RetriesFrom(again, i, code);
            && (n < MAX_RETRIES ==> (if n == i then code else again(n - 1).code) != Busy)
            && (i < n ==> code == Busy && forall j: nat :: i <= j < n - 1 ==> again(j).code == Busy)
    decreases MAX_RETRIES - i
  {
    if code == Busy && i < MAX_RETRIES {
      RepeatedWhileBusy(again, i + 1, again(i).code);
    }
  }

  function Retries(e: Executions): nat {
    RetriesFrom(e.again, 0, e.first.code)
  }

  function Last(e: Executions): Attempt {
    if Retries(e) == 0 then e.first else e.again(Retries(e) - 1)
  }

  lemma NoMoreRetries(again: nat -> Attempt, i: nat, code: Code)
    requires i <= MAX_RETRIES
    ensures code != Busy || i == MAX_RETRIES ==> RetriesFrom(again, i, code) == i
  {
  }

  function RowsOf(again: nat -> Attempt, n: nat): seq<Delivered> {
    if n == 0 then [] else RowsOf(again, n - 1) + again(n - 1).rows
  }

  /** The rows of all attempts but the last. */
  function EarlierRows(e: Executions): seq<Delivered> {
    if Retries(e) == 0 then [] else e.first.rows + RowsOf(e.again, Retries(e) - 1)
  }

  /** The statement ends as busy exactly when its first execution and all 512 repetitions do. */
  lemma BusyOnlyAfterAll(e: Executions)
    ensures Retries(e) <= 512
    ensures Last(e).code == Busy <==> e.first.code == Busy && forall i: nat :: i < 512 ==> e.again(i).code == Busy
    ensures Last(e).code == Busy ==> Retries(e) == 512
  {
    RepeatedWhileBusy(e.again, 0, e.first.code);
    hide RetriesFrom;
  }

  /** The single subscriber that is handed out is the last attempt's, whatever busy attempts delivered, if the last
      attempt has a row or none has. */
  predicate Fresh(e: Executions) {
    Last(e).rows == [] ==> EarlierRows(e) == []
  }

  predicate AllComplete(rows: seq<Delivered>) {
    forall i :: 0 <= i < |rows| ==> Complete(rows[i])
  }

  lemma {:induction false} LastRowDecides(d: Data, rows: seq<Delivered>)
    requires AllComplete(rows) && (d.one.Some? ==> d.one.value.filterDialect == None)
    ensures AfterRows(RetrieveOne, d, rows).list == d.list
    ensures AfterRows(RetrieveOne, d, rows).one == if rows == [] then d.one else Some(WithRow(BLANK, rows[|rows| - 1]))
    decreases |rows|
  {
    if rows != [] {
      var init, row := rows[..|rows| - 1], rows[|rows| - 1];
      LastRowDecides(d, init);
      if init != [] {
        RowSetsItsColumns(BLANK, init[|init| - 1]);
      }
      assert Complete(row);
      var was := AfterRows(RetrieveOne, d, init).one.GetOr(BLANK);
      assert was.filterDialect == None;
      CompleteRowDecides(was, BLANK, row);
      assert row != [] by { assert Named(row, "id"); }
    }
  }

  /** Retrieving one subscriber answers what the last attempt delivered exactly when no earlier attempt delivered a row
      that the last one did not replace. */
  lemma RetrieveIsLastAttempt(e: Executions)
    requires AllComplete(EarlierRows(e)) && AllComplete(Last(e).rows)
    ensures var gathered := AfterRows(RetrieveOne, NOTHING, EarlierRows(e) + Last(e).rows);
            gathered == AfterRows(RetrieveOne, NOTHING, Last(e).rows) <==> Fresh(e)
  {
    var early, late := EarlierRows(e), Last(e).rows;
    LastRowDecides(NOTHING, early + late);
    LastRowDecides(NOTHING, late);
    if late != [] {
      assert (early + late)[|early + late| - 1] == late[|late| - 1];
    }
  }

  function EachRow(rows: seq<Delivered>): seq<Record> {
    seq(|rows|, i requires 0 <= i < |rows| => WithRow(BLANK, rows[i]))
  }

  lemma {:induction false} ListIsConcatenation(d: Data, rows: seq<Delivered>)
    requires forall i :: 0 <= i < |rows| ==> rows[i] != []
    ensures AfterRows(FindAll, d, rows) == if rows == [] then d else d.(list := Some(d.list.GetOr([]) + EachRow(rows)))
    decreases |rows|
  {
    if rows != [] {
      var init := rows[..|rows| - 1];
      hide WithRow;
      ListIsConcatenation(d, init);
      assert EachRow(rows) == EachRow(init) + [WithRow(BLANK, rows[|rows| - 1])];
      assert init == [] ==> d.list.GetOr([]) + EachRow(init) == d.list.GetOr([]);
      assert d.list.GetOr([]) + EachRow(init) + [WithRow(BLANK, rows[|rows| - 1])] == d.list.GetOr([]) + EachRow(rows);
    }
  }

  /** Retrieving a list gathers the rows of all attempts, so it is the last attempt's exactly when no busy attempt
      delivered any. */
  lemma ListIsLastAttempt(e: Executions)
    requires forall i :: 0 <= i < |EarlierRows(e)| ==> EarlierRows(e)[i] != []
    requires forall i :: 0 <= i < |Last(e).rows| ==> Last(e).rows[i] != []
    ensures var early, late := EarlierRows(e), Last(e).rows;
            && AfterRows(FindAll, NOTHING, early + late).list.GetOr([]) == EachRow(early) + EachRow(late)
            && (AfterRows(FindAll, NOTHING, early + late) == AfterRows(FindAll, NOTHING, late) <==> early == [])
  {
    hide WithRow;
    var early, late := EarlierRows(e), Last(e).rows;
    assert EachRow(early + late) == EachRow(early) + EachRow(late);
    assert |EachRow(early)| == |early|;
    ListIsConcatenation(NOTHING, early + late);
    ListIsConcatenation(NOTHING, late);
    hide AfterRows, EachRow, RetriesFrom, RowsOf;
    assert [] + EachRow(early + late) == EachRow(early + late) && [] + EachRow(late) == EachRow(late);
    if early == [] {
      assert early + late == late;
    }
  }

  /** The structure behind the callbacks' void pointer. */
  class Args {
    var subscriber: Subscriber?
    var list: Option<seq<Subscriber>>

    constructor ()
      ensures subscriber == null && list == None && Value() == NOTHING
    {
      subscriber, list := null, None;
    }

    function Value(): Data
      reads this, subscriber, list.GetOr([])
    {
      Data(if subscriber == null then None else Some(subscriber.Value()), if list.None? then None
          else Some(Records(list.value)))
    }

    /** The fields of a delivered row, one by one. */
    static method Fill(s: Subscriber, row: Delivered)
      modifies s
      ensures s.Value() == WithRow(old(s.Value()), row)
    {
      var i := 0;
      while i < |row|
        invariant 0 <= i <= |row|
        invariant s.Value() == WithRow(old(s.Value()), row[..i])
      {
        ghost var before := s.Value();
        var name, text := row[i].name, row[i].text;
        if name == "id" { s.id := text; }
        if name == "end_to" { s.endTo := Some(EndpointRef(text)); }
        if name == "notify_to" { s.notifyTo := Some(EndpointRef(text)); }
        if name == "delivery_mode" { s.deliveryMode := text; }
        if name == "expires" { s.expires := text; }
        if name == "filter" { s.filter := text; }
        if name == "renewed" { s.renewed := IsSet(text); }
        assert s.Value() == WithColumn(before, row[i]);
        assert row[..i + 1][..i] == row[..i];
        i := i + 1;
      }
      assert row[..|row|] == row;
    }

    /** savan_sqlite_subs_mgr_subs_retrieve_callback. */
    method RetrieveCallback(row: Delivered)
      requires list == None
      modifies this, subscriber
      ensures list == None && (subscriber == null || subscriber == old(subscriber) || fresh(subscriber))
      ensures Value() == AfterRow(RetrieveOne, old(Value()), row)
    {
      if |row| < 1 {
        subscriber := null;
        return;
      }
      if subscriber == null {
        subscriber := new Subscriber();
      }
      Fill(subscriber, row);
    }

    /** savan_sqlite_subs_mgr_subscriber_find_callback. */
    method FindCallback(row: Delivered)
      requires subscriber == null
      modifies this
      ensures subscriber == null
      ensures Value() == AfterRow(FindAll, old(Value()), row)
    {
      if |row| < 1 {
        list := None;
        return;
      }
      var s := new Subscriber();
      Fill(s, row);
      var before := list.GetOr([]);
      list := Some(before + [s]);
      assert Records(before + [s]) == old(Records(before)) + [s.Value()];
    }

    /** A row is passed to the callback, if there is one. */
    method Deliver(callback: Callback, row: Delivered)
      requires Fits(callback)
      modifies this, subscriber
      ensures Fits(callback) && (subscriber == null || subscriber == old(subscriber) || fresh(subscriber))
      ensures Value() == AfterRow(callback, old(Value()), row)
    {
      match callback
      case NoCallback =>
      case RetrieveOne => RetrieveCallback(row);
      case FindAll => FindCallback(row);
    }

    /** One statement uses the pointer in one way. */
    predicate Fits(callback: Callback)
      reads this
    {
      (callback == RetrieveOne ==> list == None) && (callback == FindAll ==> subscriber == null)
    }

    /** sqlite3_exec: one attempt. */
    method Exec(callback: Callback, attempt: Attempt) returns (code: Code)
      requires Fits(callback)
      modifies this, subscriber
      ensures Fits(callback) && (subscriber == null || subscriber == old(subscriber) || fresh(subscriber))
      ensures Value() == AfterRows(callback, old(Value()), attempt.rows)
      ensures code == attempt.code
    {
      var i := 0;
      while i < |attempt.rows|
        invariant 0 <= i <= |attempt.rows|
        invariant Fits(callback) && (subscriber == null || subscriber == old(subscriber) || fresh(subscriber))
        invariant Value() == AfterRows(callback, old(Value()), attempt.rows[..i])
      {
        Deliver(callback, attempt.rows[i]);
        assert attempt.rows[..i + 1][..i] == attempt.rows[..i];
        i := i + 1;
      }
      assert attempt.rows[..|attempt.rows|] == attempt.rows;
      code := attempt.code;
    }

    /** savan_sqlite_subs_mgr_busy_handler: at most 512 more attempts, as long as they end as busy. */
    method BusyHandler(callback: Callback, again: nat -> Attempt, code: Code) returns (end: Code)
      requires Fits(callback)
      modifies this, subscriber
      ensures Fits(callback) && (subscriber == null || subscriber == old(subscriber) || fresh(subscriber))
      ensures var n := RetriesFrom(again, 0, code);
              Value() == Gathered(callback, again, n, old(Value())) && end == CodeAfter(again, n, code)
    {
      end := code;
      var counter: nat := 0;
      ghost var start := Value();
      NoRetriesYet(callback, again, code, start);
      hide AfterRow, AfterRows, RowsOf, RetriesFrom, CodeAfter, Value, Fits, WithRow, Records, Gathered;
      while end == Busy && counter < MAX_RETRIES
        invariant counter <= MAX_RETRIES
        invariant Fits(callback) && (subscriber == null || subscriber == old(subscriber) || fresh(subscriber))
        invariant RetriesFrom(again, 0, code) == RetriesFrom(again, counter, end)
            && end == CodeAfter(again, counter, code)
        invariant Value() == Gathered(callback, again, counter, start)
      {
        end := Retry(callback, again, counter, code, start);
        counter := counter + 1;
      }
      NoMoreRetries(again, counter, end);
    }

    /** One repetition. */
    method Retry(callback: Callback, again: nat -> Attempt, counter: nat, ghost code: Code, ghost start: Data)
        returns (end: Code)
      requires Fits(callback) && counter < MAX_RETRIES && Value() == Gathered(callback, again, counter, start)
      modifies this, subscriber
      ensures Fits(callback) && (subscriber == null || subscriber == old(subscriber) || fresh(subscriber))
      ensures Value() == Gathered(callback, again, counter + 1, start) && end == CodeAfter(again, counter + 1, code)
      ensures RetriesFrom(again, counter, Busy) == RetriesFrom(again, counter + 1, end)
    {
      NextRetry(again, counter, code);
      AfterRowsAppends(callback, start, RowsOf(again, counter), again(counter).rows);
      hide AfterRow, AfterRows, RowsOf, RetriesFrom, CodeAfter, Value, Fits, WithRow, Records;
      end := Exec(callback, again(counter));
    }

    /** A statement: executed once, and by the busy handler if that was busy. */
    method Run(callback: Callback, e: Executions) returns (code: Code)
      requires Fits(callback)
      modifies this, subscriber
      ensures Fits(callback) && (subscriber == null || subscriber == old(subscriber) || fresh(subscriber))
      ensures code == Last(e).code
      ensures Value() == AfterRows(callback, old(Value()), EarlierRows(e) + Last(e).rows)
    {
      ghost var start := Value();
      AllRows(e);
      AfterRowsAppends(callback, start, e.first.rows, RowsOf(e.again, Retries(e)));
      NoMoreRetries(e.again, 0, e.first.code);
      NoRetriesYet(callback, e.again, e.first.code, AfterRows(callback, start, e.first.rows));
      assert Last(e).code == CodeAfter(e.again, Retries(e), e.first.code);
      assert Retries(e) == RetriesFrom(e.again, 0, e.first.code);
      hide AfterRow, AfterRows, RowsOf, RetriesFrom, CodeAfter, Last, EarlierRows, Retries, Value, Fits, WithRow,
          Records;
      code := Exec(callback, e.first);
      if code == Busy {
        code := BusyHandler(callback, e.again, code);
      }
    }
  }

  lemma AllRows(e: Executions)
    ensures EarlierRows(e) + Last(e).rows == e.first.rows + RowsOf(e.again, Retries(e))
  {
    var n := Retries(e);
    hide RetriesFrom, Retries;
    if n > 0 {
      var earlier := RowsOf(e.again, n - 1);
      assert RowsOf(e.again, n) == earlier + e.again(n - 1).rows;
      hide RowsOf;
      assert e.first.rows + earlier + Last(e).rows == e.first.rows + (earlier + Last(e).rows);
    } else {
      assert [] + e.first.rows == e.first.rows + [];
    }
  }
}
