/**
 * Expressions as text (src/workflow/ExprEvaluator.cpp): the tokenizer, the
 * trimming entry point and the interpolation of ${{ }} in a string.
 *
 * Characters are ASCII; the value of a numeral and the text of a value are
 * arbitrary functions of what they are given.
 */
module ExprText {

  import opened Sequences
  import opened ExprEvaluator
  import ExprGrammar

  // ---------------------------------------------------------------- characters

  predicate IsSpace(c: char) { c == ' ' || '\t' <= c <= '\r' }

  predicate IsDigit(c: char) { '0' <= c <= '9' }

  predicate IsAlpha(c: char) { 'a' <= c <= 'z' || 'A' <= c <= 'Z' }

  predicate IsIdentStart(c: char) { IsAlpha(c) || c == '_' }

  predicate IsIdentChar(c: char) { IsAlpha(c) || IsDigit(c) || c == '_' || c == '-' }

  predicate IsNumeralChar(c: char) { IsDigit(c) || c == '.' }

  datatype CharClass = Space | Numeral | Ident

  predicate In(k: CharClass, c: char) {
    match k
    case Space => IsSpace(c)
    case Numeral => IsNumeralChar(c)
    case Ident => IsIdentChar(c)
  }

  /** How many characters at the front are in the class. */
  function Span(k: CharClass, s: string): (n: nat)
    ensures n <= |s|
  {
    if s == "" || !In(k, s[0]) then 0 else 1 + Span(k, s[1..])
  }

  lemma {:induction false} SpanIs(k: CharClass, a: string, rest: string)
    requires forall i :: 0 <= i < |a| ==> In(k, a[i])
    requires rest == "" || !In(k, rest[0])
    ensures Span(k, a + rest) == |a|
  {
    if a == "" {
      assert a + rest == rest;
    } else {
      assert (a + rest)[1..] == a[1..] + rest;
      SpanIs(k, a[1..], rest);
    }
  }

  // ---------------------------------------------------------------- the tokenizer

  /** The text up to the closing quote, and how many characters that and the quote take; a backslash keeps the next character. */
  function Quoted(s: string, quote: char): (r: (string, nat))
    ensures r.1 <= |s|
    decreases |s|
  {
    if s == "" then ("", 0)
    else if s[0] == quote then ("", 1)
    else
      var skip := if s[0] == '\\' && |s| > 1 then 1 else 0;
      var rest := Quoted(s[skip + 1..], quote);
      ([s[skip]] + rest.0, skip + 1 + rest.1)
  }

  function Keyword(id: string): Token {
    if id == "true" then TBool(true)
    else if id == "false" then TBool(false)
    else if id == "null" then TNull
    else TIdent(id)
  }

  predicate StartsNumber(s: string) {
    s != "" && (IsDigit(s[0]) || (s[0] == '-' && |s| > 1 && IsDigit(s[1])))
  }

  function NumberLength(s: string): (n: nat)
    requires StartsNumber(s)
    ensures 0 < n <= |s|
  {
    1 + Span(Numeral, s[1..])
  }

  function TwoChar(s: string): seq<Token> {
    if |s| < 2 then []
    else if s[..2] == "&&" then [TAnd]
    else if s[..2] == "||" then [TOr]
    else if s[..2] == "==" then [TCmp(Eq)]
    else if s[..2] == "!=" then [TCmp(Neq)]
    else if s[..2] == "<=" then [TCmp(Lte)]
    else if s[..2] == ">=" then [TCmp(Gte)]
    else []
  }

  function OneChar(c: char): seq<Token> {
    match c
    case '!' => [TNot]
    case '<' => [TCmp(Lt)]
    case '>' => [TCmp(Gt)]
    case '(' => [TLParen]
    case ')' => [TRParen]
    case ',' => [TComma]
    case '.' => [TDot]
    case _ => []
  }

  datatype Scanned = Scanned(found: Tokens, length: nat)

  /** The token at the front, or none for a space or an unknown character, and how far it reaches. */
  function Next(stod: string -> Number, s: string): (r: Scanned)
    requires s != ""
    ensures 0 < r.length <= |s| && TEof !in r.found
  {
    var c := s[0];
    if IsSpace(c) then Scanned([], 1)
    else if c == '\'' || c == '"' then
      var q := Quoted(s[1..], c);
      Scanned([TStr(q.0)], 1 + q.1)
    else if StartsNumber(s) then
      var n := NumberLength(s);
      Scanned([TNum(s[..n], stod(s[..n]))], n)
    else if TwoChar(s) != [] then Scanned(TwoChar(s), 2)
    else if OneChar(c) != [] then Scanned(OneChar(c), 1)
    else if IsIdentStart(c) then
      var n := 1 + Span(Ident, s[1..]);
      Scanned([Keyword(s[..n])], n)
    else Scanned([], 1)
  }

  function Scan(stod: string -> Number, s: string): seq<Token>
    decreases |s|
  {
    if s == "" then [] else Next(stod, s).found + Scan(stod, s[Next(stod, s).length..])
  }

  method Tokenize(stod: string -> Number, expr: string) returns (tokens: Tokens)
    ensures tokens == Scan(stod, expr) + [TEof] && Closed(tokens)
  {
    tokens := ScanLoop(NextOf(stod), expr);
    ScanFromStart(stod, expr);
    ScanIsClosed(stod, expr);
    tokens := tokens + [TEof];
  }

  function NextOf(stod: string -> Number): (next: string -> Scanned)
    ensures Moves(next)
  {
    s => if s == "" then Scanned([], 0) else Next(stod, s)
  }

  ghost predicate Moves(next: string -> Scanned) {
    forall s :: s != "" ==> 0 < next(s).length <= |s|
  }

  /** What is found from position i on, after what was found before. */
  ghost function ScanFrom(next: string -> Scanned, s: string, i: nat, before: Tokens): Tokens
    requires Moves(next)
    decreases |s| - i
  {
    if i >= |s| then before
    else ScanFrom(next, s, i + next(s[i..]).length, before + next(s[i..]).found)
  }

  /** The scanning loop, whatever recognizes the next token. */
  method ScanLoop(next: string -> Scanned, expr: string) returns (tokens: Tokens)
    requires Moves(next)
    ensures tokens == ScanFrom(next, expr, 0, [])
  {
    var i := 0;
    tokens := [];
    while i < |expr|
      invariant ScanFrom(next, expr, i, tokens) == ScanFrom(next, expr, 0, [])
    {
      var step := next(expr[i..]);
      tokens, i := tokens + step.found, i + step.length;
    }
  }

  ghost function ScanBy(next: string -> Scanned, s: string): Tokens
    requires Moves(next)
    decreases |s|
  {
    if s == "" then [] else next(s).found + ScanBy(next, s[next(s).length..])
  }

  lemma {:induction false} ScanFromIs(next: string -> Scanned, s: string, i: nat, before: Tokens)
    requires Moves(next) && i <= |s|
    ensures ScanFrom(next, s, i, before) == before + ScanBy(next, s[i..])
    decreases |s| - i
  {
    if i < |s| {
      var step := next(s[i..]);
      Later(s, i, step.length);
      ScanFromIs(next, s, i + step.length, before + step.found);
      Regroup(before, step.found, ScanBy(next, s[i + step.length..]));
    }
  }

  lemma {:induction false} ScanByIs(stod: string -> Number, s: string)
    ensures ScanBy(NextOf(stod), s) == Scan(stod, s)
    decreases |s|
  {
    if s != "" {
      ScanByIs(stod, s[Next(stod, s).length..]);
    }
  }

  lemma ScanFromStart(stod: string -> Number, s: string)
    ensures ScanFrom(NextOf(stod), s, 0, []) == Scan(stod, s)
  {
    ScanFromIs(NextOf(stod), s, 0, []);
    ScanByIs(stod, s);
    assert s[0..] == s;
  }

  lemma Later(s: string, i: nat, n: nat)
    requires i + n <= |s|
    ensures s[i..][n..] == s[i + n..]
  {
  }

  lemma {:induction false} ScanHasNoEof(stod: string -> Number, s: string)
    ensures TEof !in Scan(stod, s)
    decreases |s|
  {
    if s != "" {
      ScanHasNoEof(stod, s[Next(stod, s).length..]);
    }
  }

  /** Every text gives the parser a token list that ends in its only end mark. */
  lemma ScanIsClosed(stod: string -> Number, s: string)
    ensures Closed(Scan(stod, s) + [TEof])
  {
    ScanHasNoEof(stod, s);
    var ts := Scan(stod, s) + [TEof];
    assert forall i :: 0 <= i < |ts| - 1 ==> ts[i] == Scan(stod, s)[i] && ts[i] in Scan(stod, s);
  }

  // ---------------------------------------------------------------- spelling tokens

  function Escape(s: string): string {
    if s == "" then "" else EscapeChar(s[0]) + Escape(s[1..])
  }

  function Spelling(t: Token): string {
    match t
    case TStr(text) => "'" + Escape(text) + "'"
    case TNum(text, _) => text
    case TBool(b) => if b then "true" else "false"
    case TNull => "null"
    case TIdent(text) => text
    case TAnd => "&&"
    case TOr => "||"
    case TNot => "!"
    case TCmp(op) => (match op case Eq => "==" case Neq => "!=" case Lt => "<" case Lte => "<=" case Gt => ">" case Gte => ">=")
    case TLParen => "("
    case TRParen => ")"
    case TComma => ","
    case TDot => "."
    case TEof => ""
  }

  predicate IsName(s: string) {
    s != "" && IsIdentStart(s[0]) && forall i :: 0 <= i < |s| ==> IsIdentChar(s[i])
  }

  predicate IsNumeral(s: string) {
    StartsNumber(s) && forall i :: 1 <= i < |s| ==> IsNumeralChar(s[i])
  }

  /** A token that some text stands for. */
  predicate Spellable(stod: string -> Number, t: Token) {
    match t
    case TNum(text, num) => IsNumeral(text) && num == stod(text)
    case TIdent(text) => IsName(text) && Keyword(text) == t
    case TEof => false
    case _ => true
  }

  /** What follows a token's spelling does not become part of it. */
  predicate Stops(t: Token, rest: string) {
    || rest == ""
    || match t
       case TNum(_, _) => !IsNumeralChar(rest[0])
       case TIdent(_) => !IsIdentChar(rest[0])
       case TBool(_) => !IsIdentChar(rest[0])
       case TNull => !IsIdentChar(rest[0])
       case TNot => rest[0] != '='
       case TCmp(op) => (op == Lt || op == Gt) ==> rest[0] != '='
       case _ => true
  }

  function EscapeChar(c: char): string {
    if c == '\'' || c == '\\' then ['\\', c] else [c]
  }

  lemma QuotedChar(c: char, tail: string)
    ensures Quoted(EscapeChar(c) + tail, '\'') == ([c] + Quoted(tail, '\'').0, |EscapeChar(c)| + Quoted(tail, '\'').1)
  {
    var s := EscapeChar(c) + tail;
    assert s[|EscapeChar(c)|..] == tail;
  }

  lemma {:induction false} QuotedReads(s: string, rest: string)
    ensures Quoted(Escape(s) + ("'" + rest), '\'') == (s, |Escape(s)| + 1)
  {
    if s == "" {
      assert Escape(s) + ("'" + rest) == "'" + rest;
    } else {
      QuotedReads(s[1..], rest);
      QuotedChar(s[0], Escape(s[1..]) + ("'" + rest));
      Regroup(EscapeChar(s[0]), Escape(s[1..]), "'" + rest);
      assert [s[0]] + s[1..] == s;
    }
  }

  lemma NextIsString(stod: string -> Number, s: string, text: string, n: nat)
    requires s != "" && s[0] == '\'' && Quoted(s[1..], '\'') == (text, n)
    ensures Next(stod, s) == Scanned([TStr(text)], 1 + n)
  {
  }

  lemma AfterQuote(text: string, rest: string)
    ensures var s := "'" + Escape(text) + "'" + rest; s[0] == '\'' && s[1..] == Escape(text) + ("'" + rest)
  {
  }

  lemma StringReads(stod: string -> Number, text: string, rest: string)
    ensures Next(stod, Spelling(TStr(text)) + rest) == Scanned([TStr(text)], |Spelling(TStr(text))|)
  {
    QuotedReads(text, rest);
    AfterQuote(text, rest);
    NextIsString(stod, Spelling(TStr(text)) + rest, text, |Escape(text)| + 1);
  }

  lemma FrontOf(a: string, rest: string)
    ensures (a + rest)[..|a|] == a && (a + rest)[|a|..] == rest
    ensures a != "" ==> (a + rest)[0] == a[0] && (a + rest)[1..] == a[1..] + rest
  {
  }

  lemma NumberReads(stod: string -> Number, text: string, rest: string)
    requires IsNumeral(text) && (rest == "" || !IsNumeralChar(rest[0]))
    ensures Next(stod, text + rest) == Scanned([TNum(text, stod(text))], |text|)
  {
    FrontOf(text, rest);
    SpanIs(Numeral, text[1..], rest);
    if |text| > 1 {
      assert (text + rest)[1] == text[1];
    }
  }

  lemma NameReads(stod: string -> Number, text: string, rest: string)
    requires IsName(text) && (rest == "" || !IsIdentChar(rest[0]))
    ensures Next(stod, text + rest) == Scanned([Keyword(text)], |text|)
  {
    FrontOf(text, rest);
    SpanIs(Ident, text[1..], rest);
    assert !StartsNumber(text + rest);
    assert TwoChar(text + rest) == [] by {
      assert |text + rest| >= 2 ==> (text + rest)[..2][0] == text[0];
    }
  }

  predicate IsSign(t: Token) {
    t.TAnd? || t.TOr? || t.TNot? || t.TCmp? || t.TLParen? || t.TRParen? || t.TComma? || t.TDot?
  }

  lemma PairReads(t: Token, rest: string)
    requires IsSign(t) && Stops(t, rest)
    ensures TwoChar(Spelling(t) + rest) == if |Spelling(t)| == 2 then [t] else []
  {
    var s := Spelling(t) + rest;
    if |Spelling(t)| == 2 {
      assert s[..2] == Spelling(t);
    } else if |s| >= 2 {
      assert s[..2] == [s[0], rest[0]];
    }
  }

  lemma SignReads(stod: string -> Number, t: Token, rest: string)
    requires IsSign(t) && Stops(t, rest)
    ensures Next(stod, Spelling(t) + rest) == Scanned([t], |Spelling(t)|)
  {
    var s := Spelling(t) + rest;
    PairReads(t, rest);
    assert s[0] == Spelling(t)[0];
    assert |Spelling(t)| == 1 ==> OneChar(s[0]) == [t];
    assert !StartsNumber(s);
  }

  /** A spelled token is read back, and nothing more. */
  lemma TokenReads(stod: string -> Number, t: Token, rest: string)
    requires Spellable(stod, t) && Stops(t, rest)
    ensures Spelling(t) != "" && Next(stod, Spelling(t) + rest) == Scanned([t], |Spelling(t)|)
  {
    match t
    case TStr(text) => StringReads(stod, text, rest);
    case TNum(text, _) => NumberReads(stod, text, rest);
    case TIdent(text) => NameReads(stod, text, rest);
    case TBool(b) => NameReads(stod, if b then "true" else "false", rest);
    case TNull => NameReads(stod, "null", rest);
    case _ => SignReads(stod, t, rest);
  }

  // ---------------------------------------------------------------- a text of tokens

  /** A token and the white space after it. */
  datatype Piece = Piece(token: Token, gap: string)

  predicate Blank(s: string) {
    forall i :: 0 <= i < |s| ==> IsSpace(s[i])
  }

  function Text(ps: seq<Piece>): string {
    if ps == [] then "" else Spelling(ps[0].token) + (ps[0].gap + Text(ps[1..]))
  }

  function TokensOf(ps: seq<Piece>): seq<Token> {
    if ps == [] then [] else [ps[0].token] + TokensOf(ps[1..])
  }

  /** Any spacing that keeps neighbours apart. */
  predicate WellSpaced(stod: string -> Number, ps: seq<Piece>) {
    ps == [] ||
    (Spellable(stod, ps[0].token) && Blank(ps[0].gap) && Stops(ps[0].token, ps[0].gap + Text(ps[1..])) && WellSpaced(stod, ps[1..]))
  }

  lemma {:induction false} BlankIsSkipped(stod: string -> Number, gap: string, rest: string)
    requires Blank(gap)
    ensures Scan(stod, gap + rest) == Scan(stod, rest)
  {
    if gap == "" {
      assert gap + rest == rest;
    } else {
      FrontOf(gap, rest);
      BlankIsSkipped(stod, gap[1..], rest);
      SpaceIsSkipped(stod, gap + rest);
    }
  }

  lemma SpaceIsSkipped(stod: string -> Number, s: string)
    requires s != "" && IsSpace(s[0])
    ensures Scan(stod, s) == Scan(stod, s[1..])
  {
    assert Next(stod, s) == Scanned([], 1);
    assert [] + Scan(stod, s[1..]) == Scan(stod, s[1..]);
  }

  lemma ScanOne(stod: string -> Number, t: Token, rest: string)
    requires Spellable(stod, t) && Stops(t, rest)
    ensures Scan(stod, Spelling(t) + rest) == [t] + Scan(stod, rest)
  {
    TokenReads(stod, t, rest);
    FrontOf(Spelling(t), rest);
  }

  /** Whatever the spacing, the tokenizer reads back the tokens that were spelled. */
  lemma {:induction false} TextRoundTrip(stod: string -> Number, ps: seq<Piece>)
    requires WellSpaced(stod, ps)
    ensures Scan(stod, Text(ps)) == TokensOf(ps)
  {
    if ps != [] {
      ScanOne(stod, ps[0].token, ps[0].gap + Text(ps[1..]));
      BlankIsSkipped(stod, ps[0].gap, Text(ps[1..]));
      TextRoundTrip(stod, ps[1..]);
    }
  }

  // ---------------------------------------------------------------- evaluating a text

  function TrimStart(s: string): string {
    if s != "" && IsSpace(s[0]) then TrimStart(s[1..]) else s
  }

  function TrimEnd(s: string): string {
    if s != "" && IsSpace(s[|s| - 1]) then TrimEnd(s[..|s| - 1]) else s
  }

  /** A numeral of the text is given its value by the same conversion that strings are. */
  function EvaluateExpr(env: Env, expr: string): Out {
    var e := TrimEnd(TrimStart(expr));
    if e == "" then Done(Str(""), 0)
    else
      ScanIsClosed(env.toNumber, e);
      ParseOr(env, Scan(env.toNumber, e) + [TEof], 0)
  }

  lemma {:induction false} TrimStartPadded(lead: string, core: string)
    requires Blank(lead) && (core == "" || !IsSpace(core[0]))
    ensures TrimStart(lead + core) == core
  {
    if lead == "" {
      assert lead + core == core;
    } else {
      FrontOf(lead, core);
      TrimStartPadded(lead[1..], core);
    }
  }

  lemma {:induction false} TrimEndPadded(core: string, trail: string)
    requires Blank(trail) && core != "" && !IsSpace(core[|core| - 1])
    ensures TrimEnd(core + trail) == core
    decreases |trail|
  {
    if trail == "" {
      assert core + trail == core;
    } else {
      var s := core + trail;
      assert s[|s| - 1] == trail[|trail| - 1] && s[..|s| - 1] == core + trail[..|trail| - 1];
      TrimEndPadded(core, trail[..|trail| - 1]);
    }
  }

  predicate Trimmed(s: string) {
    s != "" && !IsSpace(s[0]) && !IsSpace(s[|s| - 1])
  }

  lemma TrimPadded(lead: string, core: string, trail: string)
    requires Blank(lead) && Blank(trail) && Trimmed(core)
    ensures TrimEnd(TrimStart(lead + (core + trail))) == core
  {
    FrontOf(core, trail);
    TrimStartPadded(lead, core + trail);
    TrimEndPadded(core, trail);
  }

  lemma SpellingIsTrimmed(stod: string -> Number, t: Token)
    requires Spellable(stod, t)
    ensures Trimmed(Spelling(t))
  {
  }

  lemma {:induction false} TextIsTrimmed(stod: string -> Number, ps: seq<Piece>)
    requires WellSpaced(stod, ps) && ps != [] && ps[|ps| - 1].gap == ""
    ensures Trimmed(Text(ps))
  {
    SpellingIsTrimmed(stod, ps[0].token);
    if |ps| == 1 {
      assert ps[0].gap + Text(ps[1..]) == "";
      assert Text(ps) == Spelling(ps[0].token) + "";
    } else {
      TextIsTrimmed(stod, ps[1..]);
      Ends(Spelling(ps[0].token), ps[0].gap, Text(ps[1..]));
    }
  }

  lemma Ends(word: string, gap: string, rest: string)
    requires Trimmed(word) && Trimmed(rest)
    ensures Trimmed(word + (gap + rest))
  {
    var all := word + (gap + rest);
    assert all[0] == word[0] && all[|all| - 1] == rest[|rest| - 1];
  }

  /**
   * From text to value: whatever the spacing and the padding, the text of an
   * expression evaluates to the expression's meaning.
   */
  lemma TextMeansDenotation(env: Env, e: ExprGrammar.Expr, ps: seq<Piece>, lead: string, trail: string)
    requires TokensOf(ps) == ExprGrammar.Print(e, 0) && WellSpaced(env.toNumber, ps)
    requires ps != [] && ps[|ps| - 1].gap == "" && Blank(lead) && Blank(trail)
    ensures EvaluateExpr(env, lead + (Text(ps) + trail)) == Done(ExprGrammar.Denote(env, e), |ExprGrammar.Print(e, 0)|)
  {
    TextIsTrimmed(env.toNumber, ps);
    TrimPadded(lead, Text(ps), trail);
    TextRoundTrip(env.toNumber, ps);
    ExprGrammar.EvaluationMeansDenotation(env, e);
  }

  // ---------------------------------------------------------------- every expression has a text

  predicate PlainName(s: string) { IsName(s) && Keyword(s) == TIdent(s) }

  predicate PlainSegment(stod: string -> Number, g: ExprGrammar.Segment) {
    match g
    case Word(text) => PlainName(text)
    case Digits(text, num) => IsNumeral(text) && num == stod(text)
  }

  predicate PlainPath(stod: string -> Number, path: ExprGrammar.Path) {
    PlainName(path.head) && forall i :: 0 <= i < |path.rest| ==> PlainSegment(stod, path.rest[i])
  }

  /** Names are identifiers and no keywords, and number literals are spelled as numerals. */
  predicate Writable(stod: string -> Number, e: ExprGrammar.Expr)
    decreases e
  {
    match e
    case Lit(v, spelling) => v.Num? ==> IsNumeral(spelling) && v.n == stod(spelling)
    case Ref(path) => PlainPath(stod, path)
    case Call(path, args) => PlainPath(stod, path) && forall i :: 0 <= i < |args| ==> Writable(stod, args[i])
    case Not(x) => Writable(stod, x)
    case Bin(_, l, r) => Writable(stod, l) && Writable(stod, r)
  }

  predicate AllSpellable(stod: string -> Number, ts: Tokens) {
    forall i :: 0 <= i < |ts| ==> Spellable(stod, ts[i])
  }

  lemma {:induction false} SegmentsSpellable(stod: string -> Number, rest: seq<ExprGrammar.Segment>)
    requires forall i :: 0 <= i < |rest| ==> PlainSegment(stod, rest[i])
    ensures AllSpellable(stod, ExprGrammar.SegmentTokens(rest))
  {
    if rest != [] {
      SegmentsSpellable(stod, rest[1..]);
    }
  }

  lemma PathSpellable(stod: string -> Number, path: ExprGrammar.Path)
    requires PlainPath(stod, path)
    ensures AllSpellable(stod, ExprGrammar.PathTokens(path))
  {
    SegmentsSpellable(stod, path.rest);
  }

  lemma {:induction false} PrintSpellable(stod: string -> Number, e: ExprGrammar.Expr, level: nat)
    requires Writable(stod, e)
    ensures AllSpellable(stod, ExprGrammar.Print(e, level))
    decreases e, 1
  {
    BodySpellable(stod, e);
  }

  lemma {:induction false} BodySpellable(stod: string -> Number, e: ExprGrammar.Expr)
    requires Writable(stod, e)
    ensures AllSpellable(stod, ExprGrammar.Body(e))
    decreases e, 0
  {
    match e
    case Lit(_, _) =>
    case Ref(path) => PathSpellable(stod, path);
    case Call(path, args) =>
      PathSpellable(stod, path);
      ArgsSpellable(stod, args);
    case Not(x) => PrintSpellable(stod, x, 2);
    case Bin(op, l, r) =>
      PrintSpellable(stod, l, ExprGrammar.LeftLevel(op));
      PrintSpellable(stod, r, ExprGrammar.RightLevel(op));
  }

  lemma {:induction false} ArgsSpellable(stod: string -> Number, es: seq<ExprGrammar.Expr>)
    requires forall i :: 0 <= i < |es| ==> Writable(stod, es[i])
    ensures AllSpellable(stod, ExprGrammar.PrintArgs(es))
    decreases es, 2
  {
    if es != [] {
      PrintSpellable(stod, es[0], 0);
      ArgsSpellable(stod, es[1..]);
    }
  }

  /** A space after every token but the last. */
  function Spaced(ts: Tokens): seq<Piece> {
    if ts == [] then [] else [Piece(ts[0], if |ts| == 1 then "" else " ")] + Spaced(ts[1..])
  }

  lemma {:induction false} SpacedIsWellSpaced(stod: string -> Number, ts: Tokens)
    requires AllSpellable(stod, ts)
    ensures WellSpaced(stod, Spaced(ts)) && TokensOf(Spaced(ts)) == ts
    ensures ts != [] ==> Spaced(ts) != [] && Spaced(ts)[|Spaced(ts)| - 1].gap == ""
  {
    if ts != [] {
      var ps := Spaced(ts);
      SpacedIsWellSpaced(stod, ts[1..]);
      assert ps[1..] == Spaced(ts[1..]);
      if |ts| == 1 {
        assert ps[0].gap + Text(ps[1..]) == "";
      } else {
        SpaceStops(ts[0], Text(ps[1..]));
      }
    }
  }

  lemma SpaceStops(t: Token, rest: string)
    ensures Blank(" ") && Stops(t, " " + rest)
  {
  }

  /** Every expression with proper names and numerals has a text, and that text evaluates to its meaning. */
  lemma EveryExpressionHasAText(env: Env, e: ExprGrammar.Expr)
    requires Writable(env.toNumber, e)
    ensures var text := Text(Spaced(ExprGrammar.Print(e, 0)));
            EvaluateExpr(env, text) == Done(ExprGrammar.Denote(env, e), |ExprGrammar.Print(e, 0)|)
  {
    var ps, none := Spaced(ExprGrammar.Print(e, 0)), "";
    PrintSpellable(env.toNumber, e, 0);
    SpacedIsWellSpaced(env.toNumber, ExprGrammar.Print(e, 0));
    TextMeansDenotation(env, e, ps, none, none);
    assert none + (Text(ps) + none) == Text(ps);
  }

  /** An empty condition holds; the braces around a whole condition are stripped. */
  function EvaluateCondition(env: Env, expr: string): Out {
    if expr == "" then Done(Bool(true), 0)
    else if OpensAt(expr, 0) && expr[|expr| - 1] == '}' then
      EvaluateExpr(env, if |expr| >= 5 then expr[3..|expr| - 2] else expr[3..])
    else EvaluateExpr(env, expr)
  }

  /** A condition means the same with and without its braces. */
  lemma BracesAreStripped(env: Env, expr: string)
    requires expr != "" && !OpensAt(expr, 0)
    ensures EvaluateCondition(env, "${{" + expr + "}}") == EvaluateExpr(env, expr) == EvaluateCondition(env, expr)
  {
    var s := "${{" + expr + "}}";
    assert s[3..|s| - 2] == expr;
  }

  /** No condition at all holds; one of blanks only, with or without braces, is the empty text, which does not. */
  lemma BlankConditions(env: Env, blank: string)
    requires Blank(blank)
    ensures EvaluateCondition(env, "") == Done(Bool(true), 0)
    ensures EvaluateExpr(env, blank) == Done(Str(""), 0)
    ensures EvaluateCondition(env, "${{" + blank + "}}") == Done(Str(""), 0)
  {
    TrimStartPadded(blank, "");
    assert blank + "" == blank;
    var s := "${{" + blank + "}}";
    assert s[3..|s| - 2] == blank;
  }

  // ---------------------------------------------------------------- interpolation

  predicate OpensAt(s: string, i: nat) {
    i + 2 < |s| && s[i] == '$' && s[i + 1] == '{' && s[i + 2] == '{'
  }

  predicate ClosesAt(s: string, i: nat) {
    i + 1 < |s| && s[i] == '}' && s[i + 1] == '}'
  }

  /** The first closing braces, or the length. */
  function FindClose(s: string): (n: nat)
    ensures n <= |s| && (n < |s| ==> ClosesAt(s, n))
    ensures forall i: nat :: i < n ==> !ClosesAt(s, i)
  {
    if s == "" || ClosesAt(s, 0) then 0
    else
      var n := FindClose(s[1..]);
      assert forall i: nat :: 0 < i < n + 1 ==> ClosesAt(s, i) == ClosesAt(s[1..], i - 1);
      1 + n
  }

  /** What follows the closing braces of an expression of length n: nothing when they are missing. */
  function AfterHole(s: string, n: nat): string {
    if 3 + n + 2 <= |s| then s[3 + n + 2..] else ""
  }

  /** An opened expression that is never closed runs to the end of the string. */
  function Interpolated(eval: string -> string, s: string): string
    decreases |s|
  {
    if s == "" then ""
    else if OpensAt(s, 0) then
      var n := FindClose(s[3..]);
      eval(s[3..3 + n]) + Interpolated(eval, AfterHole(s, n))
    else [s[0]] + Interpolated(eval, s[1..])
  }

  method Interpolate(eval: string -> string, input: string) returns (result: string)
    ensures result == Interpolated(eval, input)
  {
    result := "";
    var i := 0;
    assert input[0..] == input;
    while i < |input|
      invariant i <= |input|
      invariant Interpolated(eval, input) == result + Interpolated(eval, input[i..])
    {
      var s := input[i..];
      if OpensAt(s, 0) {
        var n := SeekClose(s[3..]);
        PassHole(eval, input, i, result, n);
        result := result + eval(s[3..3 + n]);
        i := if 3 + n < |s| then i + 3 + n + 2 else |input|;
      } else {
        PassChar(eval, input, i, result);
        result := result + [s[0]];
        i := i + 1;
      }
    }
  }

  lemma HoleRuns(eval: string -> string, s: string, n: nat)
    requires OpensAt(s, 0) && n == FindClose(s[3..])
    ensures Interpolated(eval, s) == eval(s[3..3 + n]) + Interpolated(eval, AfterHole(s, n))
  {
  }

  lemma PassHole(eval: string -> string, input: string, i: nat, result: string, n: nat)
    requires i < |input| && OpensAt(input[i..], 0) && n == FindClose(input[i..][3..])
    ensures result + Interpolated(eval, input[i..]) ==
            (result + eval(input[i..][3..3 + n])) + Interpolated(eval, input[if 3 + n < |input| - i then i + 3 + n + 2 else |input|..])
  {
    var s := input[i..];
    HoleRuns(eval, s, n);
    HoleEnds(input, i, n);
    Regroup(result, eval(s[3..3 + n]), Interpolated(eval, AfterHole(s, n)));
  }

  lemma HoleEnds(input: string, i: nat, n: nat)
    requires i + 3 + n == |input| || i + 3 + n + 2 <= |input|
    ensures AfterHole(input[i..], n) == input[if 3 + n < |input| - i then i + 3 + n + 2 else |input|..]
  {
  }

  lemma PassChar(eval: string -> string, input: string, i: nat, result: string)
    requires i < |input| && !OpensAt(input[i..], 0)
    ensures result + Interpolated(eval, input[i..]) == (result + [input[i..][0]]) + Interpolated(eval, input[i + 1..])
  {
    Later(input, i, 1);
    Regroup(result, [input[i..][0]], Interpolated(eval, input[i + 1..]));
  }

  method SeekClose(s: string) returns (n: nat)
    ensures n == FindClose(s)
  {
    n := 0;
    while n < |s|
      invariant n <= |s| && forall i: nat :: i < n ==> !ClosesAt(s, i)
    {
      if ClosesAt(s, n) {
        break;
      }
      n := n + 1;
    }
    CloseIs(s, n);
  }

  lemma CloseIs(s: string, n: nat)
    requires n <= |s| && (n < |s| ==> ClosesAt(s, n)) && forall i: nat :: i < n ==> !ClosesAt(s, i)
    ensures FindClose(s) == n
  {
  }

  /** Literal text and the expression after it. */
  datatype Slot = Slot(before: string, inner: string)

  function Render(slots: seq<Slot>, tail: string): string {
    if slots == [] then tail else slots[0].before + ("${{" + (slots[0].inner + ("}}" + Render(slots[1..], tail))))
  }

  function Fill(eval: string -> string, slots: seq<Slot>, tail: string): string {
    if slots == [] then tail else slots[0].before + (eval(slots[0].inner) + Fill(eval, slots[1..], tail))
  }

  predicate Literal(s: string) {
    forall i: nat :: i < |s| ==> !OpensAt(s, i)
  }

  predicate Inner(s: string) {
    FindClose(s + "}}") == |s|
  }

  predicate NoneOpens(before: string, rest: string) {
    forall i: nat :: i < |before| ==> !OpensAt(before + rest, i)
  }

  lemma LiteralShrinks(before: string, rest: string)
    requires NoneOpens(before, rest) && before != ""
    ensures NoneOpens(before[1..], rest) && !OpensAt(before + rest, 0)
  {
    var s, less := before + rest, before[1..] + rest;
    forall i: nat | i < |before[1..]| ensures !OpensAt(less, i) {
      assert OpensAt(less, i) == OpensAt(s, i + 1);
    }
  }

  lemma {:induction false} LiteralRuns(eval: string -> string, before: string, rest: string)
    requires NoneOpens(before, rest)
    ensures Interpolated(eval, before + rest) == before + Interpolated(eval, rest)
    decreases |before|
  {
    if before == "" {
      assert before + rest == rest;
    } else {
      LiteralShrinks(before, rest);
      LiteralRuns(eval, before[1..], rest);
      OneChars(eval, before, rest);
    }
  }

  lemma OneChars(eval: string -> string, before: string, rest: string)
    requires before != "" && !OpensAt(before + rest, 0)
    requires Interpolated(eval, before[1..] + rest) == before[1..] + Interpolated(eval, rest)
    ensures Interpolated(eval, before + rest) == before + Interpolated(eval, rest)
  {
    FrontOf(before, rest);
    Regroup([before[0]], before[1..], Interpolated(eval, rest));
    assert [before[0]] + before[1..] == before;
  }

  lemma LiteralBeforeSlot(before: string, rest: string)
    requires Literal(before)
    ensures NoneOpens(before, "${{" + rest)
  {
    var s := before + ("${{" + rest);
    forall i: nat | i < |before| ensures !OpensAt(s, i) {
      if i + 2 < |before| {
        assert OpensAt(s, i) == OpensAt(before, i);
      } else {
        assert s[|before|] == '$';
      }
    }
  }

  lemma CloseInside(inner: string, rest: string)
    requires Inner(inner)
    ensures FindClose(inner + ("}}" + rest)) == |inner|
  {
    var short, long := inner + "}}", inner + ("}}" + rest);
    forall i: nat | i <= |inner| ensures ClosesAt(long, i) == ClosesAt(short, i) {
    }
    CloseIs(long, |inner|);
  }

  lemma SlotSlices(inner: string, rest: string)
    ensures var s := "${{" + (inner + ("}}" + rest));
            s[3..] == inner + ("}}" + rest) && s[3..3 + |inner|] == inner && AfterHole(s, |inner|) == rest
  {
  }

  lemma SlotRuns(eval: string -> string, inner: string, rest: string)
    requires Inner(inner)
    ensures Interpolated(eval, "${{" + (inner + ("}}" + rest))) == eval(inner) + Interpolated(eval, rest)
  {
    SlotSlices(inner, rest);
    CloseInside(inner, rest);
    HoleRuns(eval, "${{" + (inner + ("}}" + rest)), |inner|);
  }

  /** Every template is filled slot by slot, and its literal text is kept as it is. */
  lemma {:induction false} TemplateIsFilled(eval: string -> string, slots: seq<Slot>, tail: string)
    requires Literal(tail) && forall i :: 0 <= i < |slots| ==> Literal(slots[i].before) && Inner(slots[i].inner)
    ensures Interpolated(eval, Render(slots, tail)) == Fill(eval, slots, tail)
  {
    if slots == [] {
      assert tail + "" == tail;
      LiteralRuns(eval, tail, "");
    } else {
      var inner, rest := slots[0].inner, Render(slots[1..], tail);
      LiteralBeforeSlot(slots[0].before, inner + ("}}" + rest));
      LiteralRuns(eval, slots[0].before, "${{" + (inner + ("}}" + rest)));
      SlotRuns(eval, inner, rest);
      TemplateIsFilled(eval, slots[1..], tail);
    }
  }

  /** No closing braces. */
  predicate Unclosed(s: string) {
    forall i: nat :: i < |s| ==> !ClosesAt(s, i)
  }

  lemma OpenSlotRuns(eval: string -> string, inner: string)
    requires Unclosed(inner)
    ensures Interpolated(eval, "${{" + inner) == eval(inner)
  {
    var s := "${{" + inner;
    CloseIs(inner, |inner|);
    assert s[3..] == inner && s[3..3 + |inner|] == inner;
    HoleRuns(eval, s, |inner|);
    assert AfterHole(s, |inner|) == "" && Interpolated(eval, "") == "";
  }

  /** After the slots of a template an expression that is not closed runs to the end of the text. */
  lemma {:induction false} OpenTemplateIsFilled(eval: string -> string, slots: seq<Slot>, before: string, inner: string)
    requires Literal(before) && Unclosed(inner)
    requires forall i :: 0 <= i < |slots| ==> Literal(slots[i].before) && Inner(slots[i].inner)
    ensures Interpolated(eval, Render(slots, before + ("${{" + inner))) == Fill(eval, slots, before + eval(inner))
  {
    if slots == [] {
      LiteralBeforeSlot(before, inner);
      LiteralRuns(eval, before, "${{" + inner);
      OpenSlotRuns(eval, inner);
    } else {
      var first, rest := slots[0].inner, Render(slots[1..], before + ("${{" + inner));
      LiteralBeforeSlot(slots[0].before, first + ("}}" + rest));
      LiteralRuns(eval, slots[0].before, "${{" + (first + ("}}" + rest)));
      SlotRuns(eval, first, rest);
      OpenTemplateIsFilled(eval, slots[1..], before, inner);
    }
  }

  // ---------------------------------------------------------------- templates of expressions

  /** What interpolation puts in place of an expression: the text of its value.  It never returns when the
      parser does not, which is no text at all; that case does not arise below. */
  function Shown(env: Env, show: Value -> string): string -> string {
    s => var out := EvaluateExpr(env, s); if out.Done? then show(out.value) else ""
  }

  /** Literal text, and an expression in some spacing and padding. */
  datatype Hole = Hole(before: string, lead: string, expr: ExprGrammar.Expr, pieces: seq<Piece>, trail: string)

  function ToSlot(h: Hole): Slot {
    Slot(h.before, h.lead + (Text(h.pieces) + h.trail))
  }

  predicate Fitting(env: Env, h: Hole) {
    && Literal(h.before) && Inner(ToSlot(h).inner)
    && TokensOf(h.pieces) == ExprGrammar.Print(h.expr, 0) && WellSpaced(env.toNumber, h.pieces)
    && h.pieces != [] && h.pieces[|h.pieces| - 1].gap == "" && Blank(h.lead) && Blank(h.trail)
  }

  function ToSlots(holes: seq<Hole>): seq<Slot> {
    seq(|holes|, i requires 0 <= i < |holes| => ToSlot(holes[i]))
  }

  /** The literal text with every expression's meaning, shown, in its place. */
  function Filled(env: Env, show: Value -> string, holes: seq<Hole>, tail: string): string {
    if holes == [] then tail
    else holes[0].before + (show(ExprGrammar.Denote(env, holes[0].expr)) + Filled(env, show, holes[1..], tail))
  }

  lemma {:induction false} FillIsMeaning(env: Env, show: Value -> string, holes: seq<Hole>, tail: string)
    requires forall i :: 0 <= i < |holes| ==> Fitting(env, holes[i])
    ensures Fill(Shown(env, show), ToSlots(holes), tail) == Filled(env, show, holes, tail)
  {
    if holes != [] {
      var h := holes[0];
      assert Fitting(env, h);
      HoleIsShown(env, show, h);
      FillIsMeaning(env, show, holes[1..], tail);
      SlotsSplit(holes);
      FillFirst(Shown(env, show), ToSlots(holes), tail);
    }
  }

  lemma SlotsSplit(holes: seq<Hole>)
    requires holes != []
    ensures ToSlots(holes) != [] && ToSlots(holes)[0] == ToSlot(holes[0]) && ToSlots(holes)[1..] == ToSlots(holes[1..])
  {
  }

  lemma FillFirst(eval: string -> string, slots: seq<Slot>, tail: string)
    requires slots != []
    ensures Fill(eval, slots, tail) == slots[0].before + (eval(slots[0].inner) + Fill(eval, slots[1..], tail))
  {
  }

  lemma HoleIsShown(env: Env, show: Value -> string, h: Hole)
    requires Fitting(env, h)
    ensures Shown(env, show)(ToSlot(h).inner) == show(ExprGrammar.Denote(env, h.expr))
  {
    TextMeansDenotation(env, h.expr, h.pieces, h.lead, h.trail);
  }

  /** From template to text: interpolation shows the meaning of every expression and keeps the rest. */
  lemma TemplateMeansDenotations(env: Env, show: Value -> string, holes: seq<Hole>, tail: string)
    requires Literal(tail) && forall i :: 0 <= i < |holes| ==> Fitting(env, holes[i])
    ensures Interpolated(Shown(env, show), Render(ToSlots(holes), tail)) == Filled(env, show, holes, tail)
  {
    forall i | 0 <= i < |holes| ensures Literal(ToSlots(holes)[i].before) && Inner(ToSlots(holes)[i].inner) {
      assert Fitting(env, holes[i]);
    }
    TemplateIsFilled(Shown(env, show), ToSlots(holes), tail);
    FillIsMeaning(env, show, holes, tail);
  }
}
