/** The SQL that the manager's statements are written in: how their text is read, character by character. */
module SqlText {
  import opened Options

  datatype Token = Word(w: string) | Sym(c: char) | Str(v: string)

  // ---- Lexer ------------------------------------------------------------------------------------------------

  /** Quote: a quote was seen inside a literal; it ends the literal unless another quote follows. */
  datatype Mode = Plain | Literal(v: string) | Quote(v: string)

  datatype Lexer = Lexer(tokens: seq<Token>, word: string, mode: Mode)

  const START := Lexer([], "", Plain)

  predicate WordChar(c: char) {
    'a' <= c <= 'z' || 'A' <= c <= 'Z' || '0' <= c <= '9' || c == '_'
  }

  predicate IsWord(w: string) {
    w != "" && forall i :: 0 <= i < |w| ==> WordChar(w[i])
  }

  function Flush(l: Lexer): Lexer {
    if l.word == "" then l else l.(tokens := l.tokens + [Word(l.word)], word := "")
  }

  function PlainStep(l: Lexer, c: char): Lexer {
    if WordChar(c) then l.(word := l.word + [c])
    else
      var f := Flush(l);
      if c == ' ' then f
      else if c == '\'' then f.(mode := Literal(""))
      else f.(tokens := f.tokens + [Sym(c)])
  }

  function Step(l: Lexer, c: char): Lexer {
    match l.mode
    case Plain => PlainStep(l, c)
    case Literal(v) => if c == '\'' then l.(mode := Quote(v)) else l.(mode := Literal(v + [c]))
    case Quote(v) =>
      if c == '\'' then l.(mode := Literal(v + [c]))
      else PlainStep(l.(tokens := l.tokens + [Str(v)], mode := Plain), c)
  }

  function Feed(l: Lexer, s: string): Lexer
    decreases |s|
  {
    if s == "" then l else Feed(Step(l, s[0]), s[1..])
  }

  /** The tokens at the end of the text; a literal that does not end is an error. */
  function Final(l: Lexer): Option<seq<Token>> {
    match l.mode
    case Plain => Some(Flush(l).tokens)
    case Quote(v) => Some(l.tokens + [Str(v)])
    case Literal(_) => None
  }

  function Tokens(text: string): Option<seq<Token>> {
    Final(Feed(START, text))
  }

  lemma {:induction false} FeedAppends(l: Lexer, a: string, b: string)
    ensures Feed(l, a + b) == Feed(Feed(l, a), b)
    decreases |a|
  {
    if a == "" {
      assert a + b == b;
    } else {
      assert (a + b)[0] == a[0] && (a + b)[1..] == a[1..] + b;
      FeedAppends(Step(l, a[0]), a[1..], b);
    }
  }

  lemma {:induction false} FeedWord(l: Lexer, w: string)
    requires l.mode == Plain && forall i :: 0 <= i < |w| ==> WordChar(w[i])
    ensures Feed(l, w) == l.(word := l.word + w)
    decreases |w|
  {
    if w == "" {
      assert l.word + w == l.word;
    } else {
      FeedWord(Step(l, w[0]), w[1..]);
      assert l.word + [w[0]] + w[1..] == l.word + w;
    }
  }

  lemma {:induction false} FeedLiteral(l: Lexer, v: string)
    requires l.mode.Literal? && '\'' !in v
    ensures Feed(l, v) == l.(mode := Literal(l.mode.v + v))
    decreases |v|
  {
    if v == "" {
      assert l.mode.v + v == l.mode.v;
    } else {
      FeedLiteral(Step(l, v[0]), v[1..]);
      assert l.mode.v + [v[0]] + v[1..] == l.mode.v + v;
    }
  }

  // ---- Printing tokens --------------------------------------------------------------------------------------

  /** A token, or the space between two of them. */
  datatype Piece = Space | T(t: Token)

  function PrintPiece(p: Piece): string {
    match p
    case Space => " "
    case T(Word(w)) => w
    case T(Sym(c)) => [c]
    case T(Str(v)) => "'" + v + "'"
  }

  function Print(ps: seq<Piece>): string {
    if ps == [] then "" else PrintPiece(ps[0]) + Print(ps[1..])
  }

  function TokensIn(ps: seq<Piece>): seq<Token> {
    if ps == [] then [] else (if ps[0].Space? then [] else [ps[0].t]) + TokensIn(ps[1..])
  }

  predicate Printable(p: Piece) {
    match p
    case Space => true
    case T(Word(w)) => IsWord(w)
    case T(Sym(c)) => !WordChar(c) && c != ' ' && c != '\''
    case T(Str(v)) => '\'' !in v
  }

  /** Two words, or two literals, need something between them. */
  predicate Apart(p: Piece, q: Piece) {
    p.T? && q.T? ==> !(p.t.Word? && q.t.Word?) && !(p.t.Str? && q.t.Str?)
  }

  predicate Spaced(ps: seq<Piece>) {
    (forall i :: 0 <= i < |ps| ==> Printable(ps[i])) && (forall i :: 0 < i < |ps| ==> Apart(ps[i - 1], ps[i]))
  }

  lemma {:induction false} PrintAppends(a: seq<Piece>, b: seq<Piece>)
    ensures Print(a + b) == Print(a) + Print(b) && TokensIn(a + b) == TokensIn(a) + TokensIn(b)
    decreases |a|
  {
    if a == [] {
      assert a + b == b;
    } else {
      assert (a + b)[0] == a[0] && (a + b)[1..] == a[1..] + b;
      PrintAppends(a[1..], b);
    }
  }

  /** What the lexer has after a piece: a finished token, or one that the next piece finishes. */
  predicate After(l: Lexer, tokens: seq<Token>, p: Piece) {
    match p
    case T(Word(w)) => l == Lexer(tokens, w, Plain)
    case T(Str(v)) => l == Lexer(tokens, "", Quote(v))
    case T(Sym(c)) => l == Lexer(tokens + [Sym(c)], "", Plain)
    case Space => l == Lexer(tokens, "", Plain)
  }

  lemma FeedFirst(p: Piece)
    requires Printable(p)
    ensures After(Feed(START, PrintPiece(p)), [], p)
  {
    FeedAfter(START, [], Space, p);
  }

  /** Reading one more piece finishes the piece before it. */
  lemma FeedAfter(l: Lexer, tokens: seq<Token>, p: Piece, q: Piece)
    requires After(l, tokens, p) && Printable(p) && Printable(q) && Apart(p, q)
    ensures After(Feed(l, PrintPiece(q)), tokens + (if p.Space? then [] else [p.t]), q)
  {
    var before := tokens + (if p.Space? then [] else [p.t]);
    match q
    case Space => assert Feed(l, " ") == Step(l, ' ');
    case T(Sym(c)) => assert Feed(l, [c]) == Step(l, c);
    case T(Word(w)) =>
      assert w == [w[0]] + w[1..];
      FeedAppends(l, [w[0]], w[1..]);
      assert Feed(l, [w[0]]) == Step(l, w[0]) == Lexer(before, [w[0]], Plain);
      FeedWord(Step(l, w[0]), w[1..]);
    case T(Str(v)) =>
      FeedAppends(l, "'" + v, "'");
      FeedAppends(l, "'", v);
      var inside := Step(l, '\'');
      assert Feed(l, "'") == inside == Lexer(before, "", Literal(""));
      FeedLiteral(inside, v);
      assert "" + v == v;
      assert Feed(inside.(mode := Literal(v)), "'") == Step(inside.(mode := Literal(v)), '\'');
  }

  lemma {:induction false} FeedPrinted(ps: seq<Piece>)
    requires ps != [] && Spaced(ps)
    ensures After(Feed(START, Print(ps)), TokensIn(ps[..|ps| - 1]), ps[|ps| - 1])
    decreases |ps|
  {
    var init, q := ps[..|ps| - 1], ps[|ps| - 1];
    assert ps == init + [q];
    PrintAppends(init, [q]);
    assert Print([q]) == PrintPiece(q);
    if init == [] {
      assert Print(init) == "" && "" + PrintPiece(q) == PrintPiece(q);
      FeedFirst(q);
    } else {
      var before, p := init[..|init| - 1], init[|init| - 1];
      assert init == before + [p];
      TokensInOne(p);
      hide Print, TokensIn, Feed, After, Printable, Apart, PrintPiece;
      FeedPrinted(init);
      PrintAppends(before, [p]);
      FeedAppends(START, Print(init), PrintPiece(q));
      assert Printable(p) && Printable(q) && Apart(p, q);
      FeedAfter(Feed(START, Print(init)), TokensIn(before), p, q);
    }
  }

  lemma TokensInOne(p: Piece)
    ensures TokensIn([p]) == if p.Space? then [] else [p.t]
  {
  }

  lemma FinalAfter(l: Lexer, tokens: seq<Token>, p: Piece)
    requires After(l, tokens, p) && Printable(p)
    ensures Final(l) == Some(tokens + TokensIn([p]))
  {
    assert TokensIn([p]) == if p.Space? then [] else [p.t];
    match p
    case Space => assert Final(l) == Some(tokens) && tokens + [] == tokens;
    case T(Sym(c)) => assert Final(l) == Some(tokens + [Sym(c)]);
    case T(Word(w)) => assert Final(l) == Some(tokens + [Word(w)]);
    case T(Str(v)) => assert Final(l) == Some(tokens + [Str(v)]);
  }

  /** Text printed from pieces that are kept apart reads back as the tokens in them. */
  lemma PrintedTextReads(ps: seq<Piece>)
    requires Spaced(ps)
    ensures Tokens(Print(ps)) == Some(TokensIn(ps))
  {
    if ps != [] {
      var init, q := ps[..|ps| - 1], ps[|ps| - 1];
      FeedPrinted(ps);
      assert Printable(q);
      hide After, Final, Feed, Print, TokensIn, Printable;
      FinalAfter(Feed(START, Print(ps)), TokensIn(init), q);
      assert ps == init + [q];
      PrintAppends(init, [q]);
    }
  }

  // ---- Literals that hold a quote ---------------------------------------------------------------------------

  lemma {:induction false} TokensGrow(l: Lexer, s: string)
    ensures Final(Feed(l, s)).Some? ==> l.tokens <= Final(Feed(l, s)).value
    ensures l.tokens <= Feed(l, s).tokens
    decreases |s|
  {
    if s != "" {
      TokensGrow(Step(l, s[0]), s[1..]);
    }
  }

  /** If the rest of a text only finishes the literal at hand (and at most one more token follows), then the literal
      is shorter than that rest by its closing quote and that token; it is just that much shorter only when the rest
      begins with the literal's characters, none of them a quote. */
  lemma {:induction false} LiteralLength(l: Lexer, s: string, v: string, ext: seq<Token>)
    requires l.mode.Literal? && |ext| <= 1 && Final(Feed(l, s)) == Some(l.tokens + [Str(v)] + ext)
    ensures |v| - |l.mode.v| + 1 + |ext| <= |s|
    ensures |v| - |l.mode.v| + 1 + |ext| == |s| ==> 1 + |ext| <= |s| && '\'' !in s[..|s| - 1 - |ext|]
    decreases |s|
  {
    var v0 := l.mode.v;
    var all := l.tokens + [Str(v)] + ext;
    assert all[|l.tokens|] == Str(v);
    if s[0] != '\'' {
      LiteralLength(Step(l, s[0]), s[1..], v, ext);
      var n := |s| - 1 - |ext|;
      assert n > 0 ==> s[..n] == [s[0]] + s[1..][..n - 1];
    } else if |s| == 1 {
      assert Feed(l, s) == Step(l, s[0]);
      assert (l.tokens + [Str(v0)])[|l.tokens|] == Str(v0);
    } else if s[1] == '\'' {
      assert Feed(l, s) == Feed(Step(Step(l, s[0]), s[1]), s[2..]);
      LiteralLength(Step(Step(l, s[0]), s[1]), s[2..], v, ext);
    } else {
      var ended := Step(Step(l, s[0]), s[1]);
      assert s[1..][1..] == s[2..] && Feed(l, s) == Feed(ended, s[2..]);
      TokensGrow(ended, s[2..]);
      assert ended.tokens[|l.tokens|] == Str(v0);
    }
  }

  predicate EndsWithSym(ps: seq<Piece>) {
    ps != [] && ps[|ps| - 1].T? && ps[|ps| - 1].t.Sym?
  }

  /** A quote after printed text opens a literal. */
  lemma LiteralOpens(ps: seq<Piece>)
    requires Spaced(ps) && EndsWithSym(ps)
    ensures Feed(START, Print(ps) + "'") == Lexer(TokensIn(ps), "", Literal(""))
  {
    var init, q := ps[..|ps| - 1], ps[|ps| - 1];
    var l := Feed(START, Print(ps));
    assert Feed(l, "'") == Step(l, '\'') by {
      assert Feed(l, "'") == Feed(Step(l, '\''), "'"[1..]) && "'"[1..] == "";
    }
    TokensInOne(q);
    hide Print, TokensIn, Feed, Spaced;
    FeedPrinted(ps);
    assert ps == init + [q];
    PrintAppends(init, [q]);
    FeedAppends(START, Print(ps), "'");
  }

  /** The tokens of what follows the closing quote: nothing, or a semicolon. */
  function EndTokens(semicolon: bool): seq<Token> {
    if semicolon then [Sym(';')] else []
  }

  function EndText(semicolon: bool): string {
    if semicolon then "';" else "'"
  }

  lemma LiteralCloses(l: Lexer, semicolon: bool)
    requires l.mode.Literal? && l.word == ""
    ensures Final(Feed(l, EndText(semicolon))) == Some(l.tokens + [Str(l.mode.v)] + EndTokens(semicolon))
  {
    if semicolon {
      var q := Step(l, '\'');
      assert Feed(l, "';") == Feed(q, "';"[1..]) && "';"[1..] == ";";
      assert Feed(q, ";") == Step(q, ';');
    } else {
      assert Feed(l, "'") == Feed(Step(l, '\''), "'"[1..]) && "'"[1..] == "";
      assert EndTokens(false) == [] && l.tokens + [Str(l.mode.v)] + [] == l.tokens + [Str(l.mode.v)];
    }
  }

  /** A value pasted between quotes is read back as itself exactly when it holds no quote. */
  lemma PastedValueReads(ps: seq<Piece>, v: string, semicolon: bool)
    requires Spaced(ps) && EndsWithSym(ps)
    ensures var tokens := TokensIn(ps) + [Str(v)] + EndTokens(semicolon);
            Tokens(Print(ps) + "'" + v + EndText(semicolon)) == Some(tokens) <==> '\'' !in v
  {
    var head, rest := Print(ps) + "'", v + EndText(semicolon);
    LiteralOpens(ps);
    FeedAppends(START, head, rest);
    assert Print(ps) + "'" + v + EndText(semicolon) == head + rest;
    hide Print, TokensIn, Feed, Spaced, Final, EndTokens;
    var l := Lexer(TokensIn(ps), "", Literal(""));
    assert Tokens(head + rest) == Final(Feed(l, rest));
    if '\'' !in v {
      FeedLiteral(l, v);
      FeedAppends(l, v, EndText(semicolon));
      assert "" + v == v;
      LiteralCloses(l.(mode := Literal(v)), semicolon);
    } else {
      EndLengths(semicolon);
      assert rest[..|v|] == v;
      if Final(Feed(l, rest)) == Some(TokensIn(ps) + [Str(v)] + EndTokens(semicolon)) {
        LiteralLength(l, rest, v, EndTokens(semicolon));
      }
    }
  }

  lemma EndLengths(semicolon: bool)
    ensures |EndText(semicolon)| == 1 + |EndTokens(semicolon)| <= 2
  {
  }

  /** Whatever is pasted, the tokens before it stay. */
  lemma PastedValueKeepsHead(ps: seq<Piece>, v: string, semicolon: bool)
    requires Spaced(ps) && EndsWithSym(ps)
    ensures var ts := Tokens(Print(ps) + "'" + v + EndText(semicolon)); ts.Some? ==> TokensIn(ps) <= ts.value
  {
    var head, rest := Print(ps) + "'", v + EndText(semicolon);
    LiteralOpens(ps);
    FeedAppends(START, head, rest);
    assert Print(ps) + "'" + v + EndText(semicolon) == head + rest;
    TokensGrow(Feed(START, head), rest);
  }
}
