/** The four statements of the SQLite manager: the text it prints, and what that text says. */
module SqlStatements {
  import opened Options
  import opened SqlText

  const TABLE := "subscriber"
  const ALL_COLUMNS: seq<string> := ["id", "end_to", "notify_to", "delivery_mode", "expires", "filter", "renewed"]

  // ---- Grammar ----------------------------------------------------------------------------------------------

  datatype Statement =
    | InsertRow(table: string, columns: seq<string>, marks: nat)
    | UpdateRows(table: string, columns: seq<string>, key: string)
    | DeleteRows(table: string, key: string, value: string)
    | SelectRows(columns: seq<string>, table: string, condition: Option<(string, string)>)

  /** name {, name} */
  function ParseNames(ts: seq<Token>): Option<(seq<string>, seq<Token>)>
    decreases |ts|
  {
    if ts == [] || !ts[0].Word? then None
    else if |ts| > 1 && ts[1] == Sym(',') then
      var (names, rest) :- ParseNames(ts[2..]);
      Some(([ts[0].w] + names, rest))
    else Some(([ts[0].w], ts[1..]))
  }

  /** ? {, ?} */
  function ParseMarks(ts: seq<Token>): Option<(nat, seq<Token>)>
    decreases |ts|
  {
    if ts == [] || ts[0] != Sym('?') then None
    else if |ts| > 1 && ts[1] == Sym(',') then
      var (n, rest) :- ParseMarks(ts[2..]);
      Some((n + 1, rest))
    else Some((1, ts[1..]))
  }

  /** name = ? {, name = ?} */
  function ParseAssignments(ts: seq<Token>): Option<(seq<string>, seq<Token>)>
    decreases |ts|
  {
    if |ts| < 3 || !ts[0].Word? || ts[1] != Sym('=') || ts[2] != Sym('?') then None
    else if |ts| > 3 && ts[3] == Sym(',') then
      var (names, rest) :- ParseAssignments(ts[4..]);
      Some(([ts[0].w] + names, rest))
    else Some(([ts[0].w], ts[3..]))
  }

  /** insert into t(names) values(marks); */
  function ParseInsert(ts: seq<Token>): Option<Statement> {
    if |ts| < 4 || ts[0] != Word("insert") || ts[1] != Word("into") || !ts[2].Word? || ts[3] != Sym('(') then None
    else
      var (names, rest) :- ParseNames(ts[4..]);
      if |rest| < 3 || rest[..3] != [Sym(')'), Word("values"), Sym('(')] then None
      else
        var (marks, end) :- ParseMarks(rest[3..]);
        if end == [Sym(')'), Sym(';')] then Some(InsertRow(ts[2].w, names, marks)) else None
  }

  /** update t set assignments where name=?; */
  function ParseUpdate(ts: seq<Token>): Option<Statement> {
    if |ts| < 3 || ts[0] != Word("update") || !ts[1].Word? || ts[2] != Word("set") then None
    else
      var (names, rest) :- ParseAssignments(ts[3..]);
      if |rest| == 5 && rest[0] == Word("where") && rest[1].Word? && rest[2..] == [Sym('='), Sym('?'), Sym(';')]
      then Some(UpdateRows(ts[1].w, names, rest[1].w)) else None
  }

  /** delete from t where name='value' */
  function ParseDelete(ts: seq<Token>): Option<Statement> {
    if |ts| == 7 && ts[0] == Word("delete") && ts[1] == Word("from") && ts[2].Word? && ts[3] == Word("where")
       && ts[4].Word? && ts[5] == Sym('=') && ts[6].Str?
    then Some(DeleteRows(ts[2].w, ts[4].w, ts[6].v)) else None
  }

  /** select names from t; or select names from t where name='value'; */
  function ParseSelect(ts: seq<Token>): Option<Statement> {
    if ts == [] || ts[0] != Word("select") then None
    else
      var (names, rest) :- ParseNames(ts[1..]);
      if |rest| < 3 || rest[0] != Word("from") || !rest[1].Word? then None
      else if rest[2..] == [Sym(';')] then Some(SelectRows(names, rest[1].w, None))
      else if |rest| == 7 && rest[2] == Word("where") && rest[3].Word? && rest[4] == Sym('=') && rest[5].Str?
          && rest[6] == Sym(';')
      then Some(SelectRows(names, rest[1].w, Some((rest[3].w, rest[5].v)))) else None
  }

  function Parse(text: string): Option<Statement> {
    var ts :- Tokens(text);
    ParseTokens(ts)
  }

  function ParseTokens(ts: seq<Token>): Option<Statement> {
    if ts == [] then None
    else if ts[0] == Word("insert") then ParseInsert(ts)
    else if ts[0] == Word("update") then ParseUpdate(ts)
    else if ts[0] == Word("delete") then ParseDelete(ts)
    else ParseSelect(ts)
  }

  // ---- Texts ------------------------------------------------------------------------------------------------

  function InsertStart(): string { "insert into subscriber(id" }

  function InsertValues(): string { ") values(?" }

  function UpdateStart(): string { "update subscriber set " }

  function UpdateWhere(): string { "renewed=? where id=?;" }

  function RemoveStart(): string { "delete from subscriber where id='" }

  function SelectFirst(): string { "select id, end_to, notify_to, delivery_mode, " }

  function SelectSecond(): string { "expires, filter, renewed from subscriber" }

  /** One fragment for each name, in order. */
  function Each(names: seq<string>, before: string, after: string): string {
    if names == [] then "" else before + names[0] + after + Each(names[1..], before, after)
  }

  function Repeat(n: nat, s: string): string {
    if n == 0 then "" else s + Repeat(n - 1, s)
  }

  /** The insert statement for the optional columns that are present; there are always "id" and "renewed". */
  function InsertText(columns: seq<string>): string {
    InsertStart() + Each(columns, ",", "") + ",renewed" + InsertValues() + Repeat(|columns| + 1, ",?") + ");"
  }

  function UpdateText(columns: seq<string>): string {
    UpdateStart() + Each(columns, "", "=?, ") + UpdateWhere()
  }

  function RemoveText(id: string): string {
    RemoveStart() + id + "'"
  }

  function SelectText(condition: Option<(string, string)>): string {
    match condition
    case None => SelectFirst() + SelectSecond() + ";"
    case Some((column, value)) => SelectFirst() + SelectSecond() + " where " + column + "='" + value + "';"
  }

  // ---- The same texts as pieces -----------------------------------------------------------------------------

  function W(w: string): Piece { T(Word(w)) }

  function S(c: char): Piece { T(Sym(c)) }

  function CommaNames(names: seq<string>): seq<Piece> {
    if names == [] then [] else [S(','), W(names[0])] + CommaNames(names[1..])
  }

  function CommaMarks(n: nat): seq<Piece> {
    if n == 0 then [] else [S(','), S('?')] + CommaMarks(n - 1)
  }

  function Assignments(names: seq<string>): seq<Piece> {
    if names == [] then [] else [W(names[0]), S('='), S('?'), S(','), Space] + Assignments(names[1..])
  }

  predicate Names(names: seq<string>) {
    forall i :: 0 <= i < |names| ==> IsWord(names[i])
  }

  function InsertHead(): seq<Piece> { [W("insert"), Space, W("into"), Space, W("subscriber"), S('('), W("id")] }

  function InsertMiddle(): seq<Piece> { [S(')'), Space, W("values"), S('('), S('?')] }

  function InsertEnd(): seq<Piece> { [S(')'), S(';')] }

  function UpdateHead(): seq<Piece> { [W("update"), Space, W("subscriber"), Space, W("set"), Space] }

  function UpdateTail(): seq<Piece> { [W("renewed"), S('='), S('?'), Space, W("where"), Space, W("id"), S('='),
      S('?'), S(';')] }

  function RemoveHead(): seq<Piece> { [W("delete"), Space, W("from"), Space, W("subscriber"), Space, W("where"),
      Space, W("id"), S('=')] }


  function InsertPieces(columns: seq<string>): seq<Piece> {
    Join(InsertHead(), Join(CommaNames(columns + ["renewed"]),
        Join(InsertMiddle(), Join(CommaMarks(|columns| + 1), InsertEnd()))))
  }

  function UpdatePieces(columns: seq<string>): seq<Piece> {
    Join(UpdateHead(), Join(Assignments(columns), UpdateTail()))
  }

  lemma PrintOne(p: Piece)
    ensures Print([p]) == PrintPiece(p) && TokensIn([p]) == (if p.Space? then [] else [p.t])
  {
    assert [p][1..] == [];
    assert PrintPiece(p) + "" == PrintPiece(p);
  }

  lemma PrintFour(p: Piece, q: Piece, r: Piece, s: Piece)
    ensures Print([p, q, r, s]) == PrintPiece(p) + PrintPiece(q) + PrintPiece(r) + PrintPiece(s)
  {
    PrintTwo(p, q);
    PrintTwo(r, s);
    hide Print, PrintPiece, TokensIn;
    PrintAppends([p, q], [r, s]);
    assert [p, q, r, s] == [p, q] + [r, s];
  }

  lemma PrintTwo(p: Piece, q: Piece)
    ensures Print([p, q]) == PrintPiece(p) + PrintPiece(q)
    ensures p.T? && q.T? ==> TokensIn([p, q]) == [p.t, q.t]
  {
    assert [p, q][1..] == [q];
    PrintOne(q);
  }

  lemma SpacedAppends(a: seq<Piece>, b: seq<Piece>)
    requires Spaced(a) && Spaced(b) && (a != [] && b != [] ==> Apart(a[|a| - 1], b[0]))
    ensures Spaced(a + b)
  {
    hide Printable;
    var c := a + b;
    forall i | 0 < i < |c| ensures Apart(c[i - 1], c[i]) {
      if i > |a| {
        assert c[i - 1] == b[i - |a| - 1] && c[i] == b[i - |a|];
      }
    }
  }

  predicate EndsInWord(ps: seq<Piece>) {
    ps != [] && ps[|ps| - 1].T? && ps[|ps| - 1].t.Word?
  }

  function NameTokens(names: seq<string>): seq<Token> {
    if names == [] then [] else [Sym(','), Word(names[0])] + NameTokens(names[1..])
  }

  function MarkTokens(n: nat): seq<Token> {
    if n == 0 then [] else [Sym(','), Sym('?')] + MarkTokens(n - 1)
  }

  function AssignmentTokens(names: seq<string>): seq<Token> {
    if names == [] then [] else [Word(names[0]), Sym('='), Sym('?'), Sym(',')] + AssignmentTokens(names[1..])
  }

  lemma NamePrints(name: string)
    requires IsWord(name)
    ensures var ps := [S(','), W(name)];
            Print(ps) == "," + name + "" && TokensIn(ps) == [Sym(','), Word(name)] && Spaced(ps)
  {
    var ps := [S(','), W(name)];
    PrintTwo(S(','), W(name));
  }

  lemma {:induction false} CommaNamesPrint(names: seq<string>)
    requires Names(names)
    ensures Print(CommaNames(names)) == Each(names, ",", "") && TokensIn(CommaNames(names)) == NameTokens(names)
    ensures Spaced(CommaNames(names))
    ensures names != [] ==> CommaNames(names)[0] == S(',') && EndsInWord(CommaNames(names))
    decreases |names|
  {
    if names != [] {
      hide Spaced, Print, TokensIn, IsWord;
      CommaNamesPrint(names[1..]);
      NamePrints(names[0]);
      PrintAppends([S(','), W(names[0])], CommaNames(names[1..]));
      SpacedAppends([S(','), W(names[0])], CommaNames(names[1..]));
    } else {
      assert Spaced([]);
    }
  }

  lemma MarkPrints()
    ensures var ps := [S(','), S('?')]; Print(ps) == ",?" && TokensIn(ps) == [Sym(','), Sym('?')] && Spaced(ps)
  {
    PrintTwo(S(','), S('?'));
  }

  lemma {:induction false} CommaMarksPrint(n: nat)
    ensures Print(CommaMarks(n)) == Repeat(n, ",?") && TokensIn(CommaMarks(n)) == MarkTokens(n)
    ensures Spaced(CommaMarks(n))
    ensures n > 0 ==> CommaMarks(n)[0] == S(',') && CommaMarks(n)[|CommaMarks(n)| - 1] == S('?')
  {
    if n > 0 {
      hide Spaced, Print, TokensIn;
      MarkPrints();
      CommaMarksPrint(n - 1);
      PrintAppends([S(','), S('?')], CommaMarks(n - 1));
      SpacedAppends([S(','), S('?')], CommaMarks(n - 1));
    } else {
      assert Spaced([]);
    }
  }

  lemma AssignmentSpaced(name: string)
    requires IsWord(name)
    ensures Spaced([W(name), S('='), S('?'), S(','), Space])
  {
    hide IsWord;
  }

  lemma AssignmentPrints(name: string)
    ensures Print([W(name), S('='), S('?'), S(','), Space]) == "" + name + "=?, "
  {
    PrintFour(W(name), S('='), S('?'), S(','));
    PrintOne(Space);
    hide Print, TokensIn;
    PrintAppends([W(name), S('='), S('?'), S(',')], [Space]);
    assert [W(name), S('='), S('?'), S(','), Space] == [W(name), S('='), S('?'), S(',')] + [Space];
    assert "=" + "?" + "," + " " == "=?, ";
    assert name + "=" + "?" + "," + " " == "" + name + ("=" + "?" + "," + " ");
  }

  lemma AssignmentReads(name: string)
    ensures TokensIn([W(name), S('='), S('?'), S(','), Space]) == [Word(name), Sym('='), Sym('?'), Sym(',')]
  {
    var ps := [W(name), S('='), S('?'), S(','), Space];
    assert ps[1..][1..] == ps[2..] && ps[2..][1..] == ps[3..] && ps[3..][1..] == ps[4..] && ps[4..][1..] == [];
    assert TokensIn(ps[4..]) == [];
    assert TokensIn(ps[3..]) == [Sym(',')];
    assert TokensIn(ps[2..]) == [Sym('?'), Sym(',')];
    assert TokensIn(ps[1..]) == [Sym('='), Sym('?'), Sym(',')];
  }

  lemma {:induction false} AssignmentsPrint(names: seq<string>)
    requires Names(names)
    ensures Print(Assignments(names)) == Each(names, "", "=?, ")
        && TokensIn(Assignments(names)) == AssignmentTokens(names)
    ensures Spaced(Assignments(names))
    ensures names != [] ==> Assignments(names)[|Assignments(names)| - 1] == Space
    decreases |names|
  {
    if names != [] {
      hide Spaced, Print, TokensIn, IsWord;
      AssignmentsPrint(names[1..]);
      AssignmentPrints(names[0]);
      AssignmentReads(names[0]);
      AssignmentSpaced(names[0]);
      var one := [W(names[0]), S('='), S('?'), S(','), Space];
      PrintAppends(one, Assignments(names[1..]));
      SpacedAppends(one, Assignments(names[1..]));
    } else {
      assert Spaced([]);
    }
  }

  // ---- Parsing lists back -----------------------------------------------------------------------------------

  lemma {:induction false} ParseNamesOf(first: string, names: seq<string>, tail: seq<Token>)
    requires tail == [] || tail[0] != Sym(',')
    ensures ParseNames([Word(first)] + NameTokens(names) + tail) == Some(([first] + names, tail))
    decreases |names|
  {
    var ts := [Word(first)] + NameTokens(names) + tail;
    if names == [] {
      assert ts[1..] == tail && [first] + names == [first];
    } else {
      ParseNamesOf(names[0], names[1..], tail);
      assert ts[2..] == [Word(names[0])] + NameTokens(names[1..]) + tail;
      assert [first] + ([names[0]] + names[1..]) == [first] + names;
    }
  }

  lemma {:induction false} ParseMarksOf(n: nat, tail: seq<Token>)
    requires tail == [] || tail[0] != Sym(',')
    ensures ParseMarks([Sym('?')] + MarkTokens(n) + tail) == Some((n + 1, tail))
  {
    var ts := [Sym('?')] + MarkTokens(n) + tail;
    if n == 0 {
      assert ts[1..] == tail;
    } else {
      ParseMarksOf(n - 1, tail);
      assert ts[2..] == [Sym('?')] + MarkTokens(n - 1) + tail;
    }
  }

  lemma {:induction false} ParseAssignmentsOf(names: seq<string>, last: string, tail: seq<Token>)
    requires tail == [] || tail[0] != Sym(',')
    ensures ParseAssignments(AssignmentTokens(names) + [Word(last), Sym('='), Sym('?')] + tail)
        == Some((names + [last], tail))
    decreases |names|
  {
    var ts := AssignmentTokens(names) + [Word(last), Sym('='), Sym('?')] + tail;
    if names == [] {
      assert ts[3..] == tail && names + [last] == [last];
    } else {
      ParseAssignmentsOf(names[1..], last, tail);
      assert ts[4..] == AssignmentTokens(names[1..]) + [Word(last), Sym('='), Sym('?')] + tail;
      assert [names[0]] + (names[1..] + [last]) == names + [last];
    }
  }

  // ---- Each text says what its statement says ---------------------------------------------------------------

  predicate StartsFreely(ps: seq<Piece>) {
    ps != [] && (ps[0].Space? || ps[0].t.Sym?)
  }

  predicate EndsWithSpace(ps: seq<Piece>) {
    ps != [] && ps[|ps| - 1].Space?
  }

  lemma FixedWords()
    ensures IsWord("insert") && IsWord("into") && IsWord("values") && IsWord("update") && IsWord("set")
        && IsWord("where")
    ensures IsWord("subscriber") && IsWord("id") && IsWord("renewed") && IsWord("delete") && IsWord("from")
        && IsWord("select")
  {
  }

  lemma InsertHeadPrints()
    ensures Print(InsertHead()) == InsertStart()
  {
    PrintFour(W("insert"), Space, W("into"), Space);
    PrintTwo(W("subscriber"), S('('));
    PrintOne(W("id"));
    hide Print, TokensIn;
    PrintAppends([W("subscriber"), S('(')], [W("id")]);
    PrintAppends([W("insert"), Space, W("into"), Space], [W("subscriber"), S('(')] + [W("id")]);
    assert InsertHead() == [W("insert"), Space, W("into"), Space] + ([W("subscriber"), S('(')] + [W("id")]);
    InsertStartWords();
  }

  lemma InsertStartWords()
    ensures InsertStart() == "insert" + " " + "into" + " " + ("subscriber" + "(" + "id")
  {
  }

  lemma InsertHeadReads()
    ensures Spaced(InsertHead()) && EndsInWord(InsertHead())
    ensures TokensIn(InsertHead()) == [Word("insert"), Word("into"), Word("subscriber"), Sym('('), Word("id")]
  {
    FixedWords();
    hide IsWord;
  }

  lemma InsertMiddlePrints()
    ensures Print(InsertMiddle()) == InsertValues()
  {
    PrintFour(S(')'), Space, W("values"), S('('));
    PrintOne(S('?'));
    hide Print, TokensIn;
    PrintAppends([S(')'), Space, W("values"), S('(')], [S('?')]);
    assert InsertMiddle() == [S(')'), Space, W("values"), S('(')] + [S('?')];
    assert InsertValues() == ")" + " " + "values" + "(" + "?";
  }

  lemma InsertMiddleReads()
    ensures Spaced(InsertMiddle()) && StartsFreely(InsertMiddle())
    ensures TokensIn(InsertMiddle()) == [Sym(')'), Word("values"), Sym('('), Sym('?')]
  {
    FixedWords();
    hide IsWord;
  }

  lemma InsertEndReads()
    ensures Print(InsertEnd()) == ");" && Spaced(InsertEnd()) && StartsFreely(InsertEnd())
    ensures TokensIn(InsertEnd()) == [Sym(')'), Sym(';')]
  {
  }

  lemma UpdateHeadPrints()
    ensures Print(UpdateHead()) == UpdateStart()
  {
    PrintFour(W("update"), Space, W("subscriber"), Space);
    PrintTwo(W("set"), Space);
    hide Print, TokensIn;
    PrintAppends([W("update"), Space, W("subscriber"), Space], [W("set"), Space]);
    assert UpdateHead() == [W("update"), Space, W("subscriber"), Space] + [W("set"), Space];
    UpdateStartWords();
  }

  lemma UpdateStartWords()
    ensures UpdateStart() == "update" + " " + "subscriber" + " " + ("set" + " ")
  {
  }

  lemma UpdateHeadReads()
    ensures Spaced(UpdateHead()) && EndsWithSpace(UpdateHead())
    ensures TokensIn(UpdateHead()) == [Word("update"), Word("subscriber"), Word("set")]
  {
    FixedWords();
    hide IsWord;
  }

  lemma UpdateTailPrints()
    ensures Print(UpdateTail()) == UpdateWhere()
  {
    PrintFour(W("renewed"), S('='), S('?'), Space);
    PrintFour(W("where"), Space, W("id"), S('='));
    PrintTwo(S('?'), S(';'));
    hide Print, TokensIn;
    PrintAppends([W("where"), Space, W("id"), S('=')], [S('?'), S(';')]);
    PrintAppends([W("renewed"), S('='), S('?'), Space], [W("where"), Space, W("id"), S('=')] + [S('?'), S(';')]);
    assert UpdateTail() == [W("renewed"), S('='), S('?'), Space]
        + ([W("where"), Space, W("id"), S('=')] + [S('?'), S(';')]);
    UpdateWhereWords();
  }

  lemma UpdateWhereWords()
    ensures UpdateWhere() == "renewed" + "=" + "?" + " " + ("where" + " " + "id" + "=" + ("?" + ";"))
  {
  }

  lemma UpdateTailSpaced()
    ensures Spaced(UpdateTail())
  {
    FixedWords();
    hide IsWord;
  }

  lemma UpdateTailReads()
    ensures TokensIn(UpdateTail())
        == [Word("renewed"), Sym('='), Sym('?'), Word("where"), Word("id"), Sym('='), Sym('?'), Sym(';')]
  {
    assert TokensIn([W("renewed"), S('='), S('?'), Space, W("where"), Space, W("id"), S('='), S('?'), S(';')])
        == [Word("renewed"), Sym('='), Sym('?'), Word("where"), Word("id"), Sym('='), Sym('?'), Sym(';')];
  }

  function Join<X>(a: seq<X>, b: seq<X>): seq<X> { a + b }

  lemma TwoParts(a: seq<Piece>, b: seq<Piece>)
    requires Spaced(a) && Spaced(b) && (StartsFreely(b) || EndsWithSpace(a) || a == [])
    ensures Spaced(Join(a, b)) && Print(Join(a, b)) == Join(Print(a), Print(b))
    ensures TokensIn(Join(a, b)) == Join(TokensIn(a), TokensIn(b))
    ensures StartsFreely(a) ==> StartsFreely(Join(a, b))
  {
    PrintAppends(a, b);
    SpacedAppends(a, b);
  }

  lemma {:induction false} EachAppends(a: seq<string>, b: seq<string>, before: string, after: string)
    ensures Each(a + b, before, after) == Each(a, before, after) + Each(b, before, after)
    decreases |a|
  {
    if a == [] {
      assert a + b == b;
    } else {
      assert (a + b)[0] == a[0] && (a + b)[1..] == a[1..] + b;
      EachAppends(a[1..], b, before, after);
    }
  }

  lemma InsertTextPrints(columns: seq<string>)
    requires Names(columns)
    ensures Spaced(InsertPieces(columns)) && Print(InsertPieces(columns)) == InsertText(columns)
    ensures TokensIn(InsertPieces(columns)) == InsertTokens(columns)
  {
    var names, n := columns + ["renewed"], |columns| + 1;
    RenewedIsName(columns);
    InsertHeadPrints();
    InsertHeadReads();
    InsertMiddlePrints();
    InsertMiddleReads();
    InsertEndReads();
    CommaNamesPrint(names);
    CommaMarksPrint(n);
    assert StartsFreely(CommaNames(names)) && StartsFreely(CommaMarks(n));
    InsertTextJoins(columns);
    hide InsertHead, InsertMiddle, InsertEnd, InsertStart, InsertValues, InsertText, Print, TokensIn, Spaced,
        CommaNames, CommaMarks, Join;
    hide Each, Repeat, IsWord, NameTokens, MarkTokens;
    TwoParts(CommaMarks(n), InsertEnd());
    TwoParts(InsertMiddle(), Join(CommaMarks(n), InsertEnd()));
    TwoParts(CommaNames(names), Join(InsertMiddle(), Join(CommaMarks(n), InsertEnd())));
    TwoParts(InsertHead(), Join(CommaNames(names), Join(InsertMiddle(), Join(CommaMarks(n), InsertEnd()))));
  }

  lemma InsertTextJoins(columns: seq<string>)
    ensures InsertText(columns) ==
            Join(InsertStart(), Join(Each(columns + ["renewed"], ",", ""),
                Join(InsertValues(), Join(Repeat(|columns| + 1, ",?"), ");"))))
  {
    RenewedIsLast(columns);
    hide InsertStart, InsertValues, Each, Repeat;
    Regroup(InsertStart(), Each(columns, ",", ""), ",renewed", InsertValues(), Repeat(|columns| + 1, ",?"), ");");
  }

  lemma Regroup(a: string, b: string, c: string, d: string, e: string, f: string)
    ensures a + b + c + d + e + f == Join(a, Join(b + c, Join(d, Join(e, f))))
  {
  }

  function InsertTokens(columns: seq<string>): seq<Token> {
    Join([Word("insert"), Word("into"), Word("subscriber"), Sym('('), Word("id")],
         Join(NameTokens(columns + ["renewed"]),
              Join([Sym(')'), Word("values"), Sym('('), Sym('?')],
                  Join(MarkTokens(|columns| + 1), [Sym(')'), Sym(';')]))))
  }

  lemma RenewedIsName(columns: seq<string>)
    requires Names(columns)
    ensures Names(columns + ["renewed"])
  {
    assert IsWord("renewed");
  }

  lemma RenewedIsLast(columns: seq<string>)
    ensures Each(columns + ["renewed"], ",", "") == Each(columns, ",", "") + ",renewed"
  {
    EachAppends(columns, ["renewed"], ",", "");
    assert ["renewed"][1..] == [];
    assert Each(["renewed"], ",", "") == "," + "renewed" + "" + "" == ",renewed";
  }

  /** Whatever optional columns are present, the text printed for an insert is an insert of those columns between
      "id" and "renewed", with as many placeholders as columns. */
  lemma InsertTextSays(columns: seq<string>)
    requires Names(columns)
    ensures Parse(InsertText(columns)) == Some(InsertRow(TABLE, ["id"] + columns + ["renewed"], |columns| + 2))
  {
    InsertTextPrints(columns);
    PrintedTextReads(InsertPieces(columns));
    InsertTokensParse(columns);
    assert InsertTokens(columns)[0] == Word("insert");
  }

  lemma InsertTokensParse(columns: seq<string>)
    ensures ParseInsert(InsertTokens(columns)) == Some(InsertRow(TABLE, ["id"] + columns + ["renewed"], |columns| + 2))
  {
    var names, n := columns + ["renewed"], |columns| + 1;
    var marks := [Sym('?')] + MarkTokens(n) + [Sym(')'), Sym(';')];
    var tail := [Sym(')'), Word("values"), Sym('(')] + marks;
    assert ["id"] + names == ["id"] + columns + ["renewed"];
    hide NameTokens, MarkTokens, ParseNames, ParseMarks;
    assert InsertTokens(columns)[4..] == [Word("id")] + NameTokens(names) + tail;
    assert InsertTokens(columns)[..4] == [Word("insert"), Word("into"), Word("subscriber"), Sym('(')];
    assert tail[..3] == [Sym(')'), Word("values"), Sym('(')] && tail[3..] == marks;
    hide InsertTokens;
    ParseNamesOf("id", names, tail);
    ParseMarksOf(n, [Sym(')'), Sym(';')]);
    InsertParses(InsertTokens(columns), ["id"] + names, tail, n + 1);
  }

  lemma InsertParses(ts: seq<Token>, names: seq<string>, tail: seq<Token>, marks: nat)
    requires |ts| >= 4 && ts[..4] == [Word("insert"), Word("into"), Word("subscriber"), Sym('(')]
    requires |tail| >= 3 && tail[..3] == [Sym(')'), Word("values"), Sym('(')]
    requires ParseNames(ts[4..]) == Some((names, tail)) && ParseMarks(tail[3..]) == Some((marks, [Sym(')'), Sym(';')]))
    ensures ParseInsert(ts) == Some(InsertRow(TABLE, names, marks))
  {
    hide ParseNames, ParseMarks;
    var head := ts[..4];
    assert ts[0] == head[0] && ts[1] == head[1] && ts[2] == head[2] && ts[3] == head[3];
  }

  function UpdateTokens(columns: seq<string>): seq<Token> {
    Join([Word("update"), Word("subscriber"), Word("set")],
         Join(AssignmentTokens(columns),
              [Word("renewed"), Sym('='), Sym('?'), Word("where"), Word("id"), Sym('='), Sym('?'), Sym(';')]))
  }

  lemma UpdateTextPrints(columns: seq<string>)
    requires Names(columns)
    ensures UpdateText(columns) == Print(UpdatePieces(columns)) && Spaced(UpdatePieces(columns))
    ensures TokensIn(UpdatePieces(columns)) == UpdateTokens(columns)
  {
    hide UpdateHead, UpdateTail, Print, TokensIn, Spaced, Assignments, Each, IsWord, AssignmentTokens;
    UpdateHeadPrints();
    UpdateHeadReads();
    UpdateTailPrints();
    UpdateTailSpaced();
    UpdateTailReads();
    AssignmentsPrint(columns);
    TwoParts(Assignments(columns), UpdateTail()) by {
      EmptyAssignments(columns);
    }
    TwoParts(UpdateHead(), Join(Assignments(columns), UpdateTail()));
  }

  lemma EmptyAssignments(columns: seq<string>)
    ensures columns == [] ==> Assignments(columns) == []
  {
  }

  /** The text printed for an update sets exactly the present columns and "renewed", for the row with the given id. */
  lemma UpdateTextSays(columns: seq<string>)
    requires Names(columns)
    ensures Parse(UpdateText(columns)) == Some(UpdateRows(TABLE, columns + ["renewed"], "id"))
  {
    UpdateTextPrints(columns);
    PrintedTextReads(UpdatePieces(columns));
    UpdateTokensParse(columns);
    assert UpdateTokens(columns)[0] == Word("update");
  }

  lemma UpdateTokensParse(columns: seq<string>)
    ensures ParseUpdate(UpdateTokens(columns)) == Some(UpdateRows(TABLE, columns + ["renewed"], "id"))
  {
    var tail := [Word("where"), Word("id"), Sym('='), Sym('?'), Sym(';')];
    ParseAssignmentsOf(columns, "renewed", tail);
    hide AssignmentTokens, ParseAssignments;
    assert UpdateTokens(columns)[3..] == AssignmentTokens(columns) + [Word("renewed"), Sym('='), Sym('?')] + tail;
    assert tail[2..] == [Sym('='), Sym('?'), Sym(';')];
  }

  lemma RemoveHeadPrints()
    ensures Print(RemoveHead()) + "'" == RemoveStart()
  {
    PrintFour(W("delete"), Space, W("from"), Space);
    PrintFour(W("subscriber"), Space, W("where"), Space);
    PrintTwo(W("id"), S('='));
    hide Print, TokensIn;
    PrintAppends([W("subscriber"), Space, W("where"), Space], [W("id"), S('=')]);
    PrintAppends([W("delete"), Space, W("from"), Space], [W("subscriber"), Space, W("where"), Space]
        + [W("id"), S('=')]);
    assert RemoveHead() == [W("delete"), Space, W("from"), Space]
        + ([W("subscriber"), Space, W("where"), Space] + [W("id"), S('=')]);
    RemoveStartWords();
  }

  lemma RemoveStartWords()
    ensures RemoveStart() == "delete" + " " + "from" + " " + ("subscriber" + " " + "where" + " " + ("id" + "=")) + "'"
  {
  }

  lemma RemoveHeadSpaced()
    ensures Spaced(RemoveHead()) && EndsWithSym(RemoveHead())
  {
    FixedWords();
    hide IsWord;
  }

  function RemoveTokens(): seq<Token> { [Word("delete"), Word("from"), Word("subscriber"), Word("where"), Word("id"),
      Sym('=')] }

  lemma RemoveHeadReads()
    ensures TokensIn(RemoveHead()) == RemoveTokens()
  {
    assert TokensIn([W("delete"), Space, W("from"), Space, W("subscriber"), Space, W("where"), Space, W("id"), S('=')])
        == [Word("delete"), Word("from"), Word("subscriber"), Word("where"), Word("id"), Sym('=')];
  }

  /** The remove statement names the row of its id exactly when the id holds no quote; minted ids hold none. */
  lemma RemoveTextSays(id: string)
    ensures Parse(RemoveText(id)) == Some(DeleteRows(TABLE, "id", id)) <==> '\'' !in id
  {
    RemoveHeadPrints();
    RemoveHeadSpaced();
    RemoveHeadReads();
    PastedValueReads(RemoveHead(), id, false);
    DeleteParses(Tokens(RemoveText(id)), id);
  }

  lemma DeleteParses(ts: Option<seq<Token>>, id: string)
    ensures ts.Some? && ParseTokens(ts.value) == Some(DeleteRows(TABLE, "id", id)) <==>
        ts == Some(RemoveTokens() + [Str(id)] + [])
  {
    var all := RemoveTokens() + [Str(id)] + [];
    hide ParseNames, ParseMarks, ParseAssignments;
    if ts.Some? && ParseTokens(ts.value) == Some(DeleteRows(TABLE, "id", id)) {
      assert ts.value == all;
    }
  }

  // ---- Select -----------------------------------------------------------------------------------------------

  function SpacedNames(names: seq<string>): seq<Piece> {
    if names == [] then [] else [S(','), Space, W(names[0])] + SpacedNames(names[1..])
  }

  lemma SpacedNamePrints(name: string)
    ensures Print([S(','), Space, W(name)]) == ", " + name + ""
    ensures TokensIn([S(','), Space, W(name)]) == [Sym(','), Word(name)]
  {
    PrintTwo(S(','), Space);
    PrintOne(W(name));
    PrintAppends([S(',')], [Space]);
    assert TokensIn([S(',')]) == [Sym(',')] && TokensIn([Space]) == [];
    hide Print, TokensIn;
    PrintAppends([S(','), Space], [W(name)]);
    assert [S(','), Space, W(name)] == [S(','), Space] + [W(name)];
    assert [S(','), Space] == [S(',')] + [Space];
  }

  lemma SpacedNameSpaced(name: string)
    requires IsWord(name)
    ensures var ps := [S(','), Space, W(name)]; Spaced(ps) && StartsFreely(ps) && EndsInWord(ps)
  {
    hide IsWord;
  }

  lemma {:induction false} SpacedNamesPrint(names: seq<string>)
    requires Names(names)
    ensures Print(SpacedNames(names)) == Each(names, ", ", "") && TokensIn(SpacedNames(names)) == NameTokens(names)
    ensures Spaced(SpacedNames(names))
    ensures names != [] ==> StartsFreely(SpacedNames(names)) && EndsInWord(SpacedNames(names))
    decreases |names|
  {
    if names != [] {
      hide Spaced, Print, TokensIn, IsWord;
      SpacedNamesPrint(names[1..]);
      SpacedNamePrints(names[0]);
      SpacedNameSpaced(names[0]);
      PrintAppends([S(','), Space, W(names[0])], SpacedNames(names[1..]));
      SpacedAppends([S(','), Space, W(names[0])], SpacedNames(names[1..]));
    } else {
      assert Spaced([]);
    }
  }

  function OtherColumns(): seq<string> { ["end_to", "notify_to", "delivery_mode", "expires", "filter", "renewed"] }

  lemma OtherColumnsAreNames()
    ensures Names(OtherColumns())
  {
    assert IsWord("end_to") && IsWord("notify_to") && IsWord("delivery_mode");
    assert IsWord("expires") && IsWord("filter") && IsWord("renewed");
    hide IsWord;
  }

  lemma OtherColumnsText()
    ensures Each(OtherColumns(), ", ", "") ==
            (", " + "end_to" + ", " + "notify_to" + ", " + "delivery_mode")
                + (", " + "expires" + ", " + "filter" + ", " + "renewed")
  {
    var a, b := ["end_to", "notify_to", "delivery_mode"], ["expires", "filter", "renewed"];
    assert OtherColumns() == a + b;
    hide *;
    EachAppends(a, b, ", ", "");
    EachThree("end_to", "notify_to", "delivery_mode");
    EachThree("expires", "filter", "renewed");
  }

  lemma EachThree(a: string, b: string, c: string)
    ensures Each([a, b, c], ", ", "") == ", " + a + ", " + b + ", " + c
  {
    assert [a, b, c][1..] == [b, c] && [b, c][1..] == [c] && [c][1..] == [];
    assert Each([c], ", ", "") == ", " + c;
    assert Each([b, c], ", ", "") == ", " + b + (", " + c);
  }

  lemma SelectFirstWords()
    ensures SelectFirst() == "select id" + ", " + "end_to" + ", " + "notify_to" + ", " + "delivery_mode" + ", "
  {
  }

  lemma SelectSecondWords()
    ensures SelectSecond() == "expires" + ", " + "filter" + ", " + "renewed" + " from subscriber"
  {
  }

  lemma RegroupColumns(a: string, s: string, c: string, d: string, e: string, f: string, g: string, h: string,
      t: string)
    ensures a + s + c + s + d + s + e + s + (f + s + g + s + h + t) == a
        + ((s + c + s + d + s + e) + (s + f + s + g + s + h)) + t
  {
  }

  lemma SelectWords()
    ensures SelectFirst() + SelectSecond() == "select id" + Each(OtherColumns(), ", ", "") + " from subscriber"
  {
    hide *;
    SelectFirstWords();
    SelectSecondWords();
    OtherColumnsText();
    RegroupColumns("select id", ", ", "end_to", "notify_to", "delivery_mode", "expires", "filter", "renewed",
        " from subscriber");
  }

  function SelectHead(): seq<Piece> { [W("select"), Space, W("id")] }

  function SelectTable(): seq<Piece> { [Space, W("from"), Space, W("subscriber")] }

  function SelectWhere(column: string): seq<Piece> { [Space, W("where"), Space, W(column), S('=')] }

  lemma SelectHeadReads()
    ensures Print(SelectHead()) == "select id" && TokensIn(SelectHead()) == [Word("select"), Word("id")]
  {
    assert Print([W("select"), Space, W("id")]) == "select id";
  }

  lemma SelectTableReads()
    ensures Print(SelectTable()) == " from subscriber" && TokensIn(SelectTable()) == [Word("from"), Word("subscriber")]
  {
    PrintFour(Space, W("from"), Space, W("subscriber"));
  }

  lemma SelectWhereReads(column: string)
    ensures Print(SelectWhere(column)) == " where " + column + "="
  {
    PrintFour(Space, W("where"), Space, W(column));
    PrintOne(S('='));
    PrintAppends([Space, W("where"), Space, W(column)], [S('=')]);
    assert SelectWhere(column) == [Space, W("where"), Space, W(column)] + [S('=')];
  }

  lemma SelectWhereTokens(column: string)
    ensures TokensIn(SelectWhere(column)) == [Word("where"), Word(column), Sym('=')]
  {
    var ps := SelectWhere(column);
    assert ps[1..][1..] == ps[2..] && ps[2..][1..] == ps[3..] && ps[3..][1..] == ps[4..] && ps[4..][1..] == [];
    assert TokensIn(ps[4..]) == [Sym('=')];
    assert TokensIn(ps[3..]) == [Word(column), Sym('=')];
    assert TokensIn(ps[2..]) == [Word(column), Sym('=')];
    assert TokensIn(ps[1..]) == [Word("where"), Word(column), Sym('=')];
  }

  lemma SelectPartsSpaced(column: string)
    requires IsWord(column)
    ensures Spaced(SelectHead()) && Spaced(SelectTable()) && Spaced(SelectWhere(column)) && Spaced([S(';')])
  {
    FixedWords();
    hide IsWord;
  }

  /** A select up to its last part: the end of the statement, or the condition. */
  function SelectPieces(last: seq<Piece>): seq<Piece> {
    Join(SelectHead(), Join(SpacedNames(OtherColumns()), Join(SelectTable(), last)))
  }

  function SelectTokens(last: seq<Token>): seq<Token> {
    Join([Word("select"), Word("id")], Join(NameTokens(OtherColumns()), Join([Word("from"), Word("subscriber")], last)))
  }

  lemma SelectPrints(last: seq<Piece>)
    requires Spaced(last) && StartsFreely(last)
    ensures Spaced(SelectPieces(last)) && Print(SelectPieces(last)) == SelectFirst() + SelectSecond() + Print(last)
    ensures TokensIn(SelectPieces(last)) == SelectTokens(TokensIn(last))
  {
    SelectPartsSpaced("id") by { FixedWords(); }
    SelectHeadReads();
    SelectTableReads();
    OtherColumnsAreNames();
    SpacedNamesPrint(OtherColumns());
    SelectWords();
    hide SpacedNames, OtherColumns, Print, TokensIn, Spaced, Each, IsWord, NameTokens, SelectFirst, SelectSecond,
        SelectHead, Join;
    assert StartsFreely(SelectTable());
    hide SelectTable;
    TwoParts(SelectTable(), last);
    TwoParts(SpacedNames(OtherColumns()), Join(SelectTable(), last));
    TwoParts(SelectHead(), Join(SpacedNames(OtherColumns()), Join(SelectTable(), last)));
    RegroupSelect("select id", Each(OtherColumns(), ", ", ""), " from subscriber", Print(last));
  }

  lemma RegroupSelect(a: string, b: string, c: string, d: string)
    ensures a + b + c + d == Join(a, Join(b, Join(c, d)))
  {
  }

  lemma SelectParses(ts: seq<Token>, last: seq<Token>)
    requires ts == SelectTokens(last)
    ensures ParseTokens(ts) == (
              if last == [Sym(';')] then Some(SelectRows(ALL_COLUMNS, TABLE, None))
              else if |last| == 5 && last[0] == Word("where") && last[1].Word? && last[2] == Sym('=') && last[3].Str?
                  && last[4] == Sym(';')
              then Some(SelectRows(ALL_COLUMNS, TABLE, Some((last[1].w, last[3].v)))) else None)
  {
    var tail := [Word("from"), Word("subscriber")] + last;
    ParseNamesOf("id", OtherColumns(), tail);
    assert ["id"] + OtherColumns() == ALL_COLUMNS;
    hide NameTokens, OtherColumns, ParseNames, ParseMarks, ParseAssignments;
    assert ts[0] == Word("select") && ts[1..] == [Word("id")] + NameTokens(OtherColumns()) + tail;
    assert tail[2..] == last;
  }

  /** The retrieve statements ask for all columns of the whole table, or of the rows with a value in one column; the
      value that is asked for is the one that was given exactly when it holds no quote. */
  lemma SelectTextSays(condition: Option<(string, string)>)
    requires condition.Some? ==> IsWord(condition.value.0)
    ensures Parse(SelectText(condition)) == Some(SelectRows(ALL_COLUMNS, TABLE, condition))
            <==> (condition.Some? ==> '\'' !in condition.value.1)
  {
    if condition.None? {
      SelectPartsSpaced("id") by { FixedWords(); }
      PrintOne(S(';'));
      SelectPrints([S(';')]);
      PrintedTextReads(SelectPieces([S(';')]));
      SelectParses(SelectTokens([Sym(';')]), [Sym(';')]);
    } else {
      SelectWhereSays(condition.value.0, condition.value.1);
    }
  }

  lemma SelectWhereSays(column: string, value: string)
    requires IsWord(column)
    ensures var c := Some((column, value));
            Parse(SelectText(c)) == Some(SelectRows(ALL_COLUMNS, TABLE, c)) <==> '\'' !in value
  {
    var ps := SelectPieces(SelectWhere(column));
    SelectPartsSpaced(column);
    SelectWhereReads(column);
    SelectWhereTokens(column);
    SelectPrints(SelectWhere(column));
    SelectEnds(column);
    SelectTextPrints(column, value);
    hide *;
    PastedValueReads(ps, value, true);
    PastedValueKeepsHead(ps, value, true);
    WhereParses(Tokens(SelectText(Some((column, value)))), column, value);
  }

  lemma SelectEnds(column: string)
    ensures EndsWithSym(SelectPieces(SelectWhere(column)))
  {
  }

  lemma SelectTextPrints(column: string, value: string)
    requires Print(SelectPieces(SelectWhere(column))) == SelectFirst() + SelectSecond() + Print(SelectWhere(column))
    ensures SelectText(Some((column, value))) == Print(SelectPieces(SelectWhere(column))) + "'" + value + EndText(true)
  {
    SelectWhereReads(column);
    hide Print, SelectFirst, SelectSecond, SelectPieces, SelectWhere;
    RegroupWhere(SelectFirst() + SelectSecond(), column, value);
  }

  lemma RegroupWhere(a: string, column: string, value: string)
    ensures a + " where " + column + "='" + value + "';" == a + (" where " + column + "=") + "'" + value + "';"
  {
  }

  lemma WhereParses(ts: Option<seq<Token>>, column: string, value: string)
    requires ts.Some? ==> SelectTokens([Word("where"), Word(column), Sym('=')]) <= ts.value
    ensures ts.Some? && ParseTokens(ts.value) == Some(SelectRows(ALL_COLUMNS, TABLE, Some((column, value))))
            <==> ts == Some(SelectTokens([Word("where"), Word(column), Sym('=')]) + [Str(value)] + EndTokens(true))
  {
    var last := [Word("where"), Word(column), Sym('=')];
    if ts.Some? {
      var rest := ts.value[|SelectTokens(last)|..];
      SelectTokensExtend(last, rest);
      hide SelectTokens, ParseTokens;
      assert ts.value == SelectTokens(last) + rest;
      SelectParses(ts.value, last + rest);
      assert SelectTokens(last) + [Str(value)] + EndTokens(true) == SelectTokens(last) + [Str(value), Sym(';')];
      assert |rest| == 2 ==> rest == [rest[0], rest[1]];
    }
  }

  lemma SelectTokensExtend(last: seq<Token>, rest: seq<Token>)
    ensures SelectTokens(last) + rest == SelectTokens(last + rest)
  {
  }
}
