/**
 * What the tokenizer of the expression language makes of each kind of text
 * (src/workflow/ExprEvaluator.cpp), by character: spaces, numerals, names,
 * strings in either quotes, closed or not, and characters it does not know.
 */
module ExprScan {

  import opened Sequences
  import opened ExprEvaluator
  import opened ExprText

  // ---------------------------------------------------------------- characters, by their ASCII codes

  predicate Letter(c: char) { 65 <= c as int <= 90 || 97 <= c as int <= 122 }

  predicate Digit(c: char) { 48 <= c as int <= 57 }

  predicate White(c: char) { c as int == 32 || 9 <= c as int <= 13 }

  lemma Alphabet(c: char)
    ensures IsSpace(c) <==> White(c)
    ensures IsDigit(c) <==> Digit(c)
    ensures IsNumeralChar(c) <==> Digit(c) || c == '.'
    ensures IsIdentStart(c) <==> Letter(c) || c == '_'
    ensures IsIdentChar(c) <==> Letter(c) || Digit(c) || c == '_' || c == '-'
  {
  }

  // ---------------------------------------------------------------- one token

  lemma ScanStep(stod: string -> Number, s: string, rest: string, found: Tokens)
    requires s != "" && Next(stod, s + rest) == Scanned(found, |s|)
    ensures Scan(stod, s + rest) == found + Scan(stod, rest)
  {
    FrontOf(s, rest);
  }

  lemma WhiteScans(stod: string -> Number, c: char, rest: string)
    requires White(c)
    ensures Scan(stod, [c] + rest) == Scan(stod, rest)
  {
    Alphabet(c);
    SpaceIsSkipped(stod, [c] + rest);
    FrontOf([c], rest);
  }

  predicate NumeralText(s: string) {
    && s != "" && (Digit(s[0]) || (s[0] == '-' && |s| > 1 && Digit(s[1])))
    && forall i :: 1 <= i < |s| ==> Digit(s[i]) || s[i] == '.'
  }

  /** A numeral is the longest run of digits and dots, behind a minus or not. */
  lemma NumeralScans(stod: string -> Number, s: string, rest: string)
    requires NumeralText(s) && (rest == "" || !(Digit(rest[0]) || rest[0] == '.'))
    ensures Scan(stod, s + rest) == [TNum(s, stod(s))] + Scan(stod, rest)
  {
    forall c ensures IsNumeralChar(c) <==> Digit(c) || c == '.' {
      Alphabet(c);
    }
    assert StartsNumber(s);
    NumberReads(stod, s, rest);
    ScanStep(stod, s, rest, [TNum(s, stod(s))]);
  }

  predicate NameText(s: string) {
    && s != "" && (Letter(s[0]) || s[0] == '_')
    && forall i :: 1 <= i < |s| ==> Letter(s[i]) || Digit(s[i]) || s[i] == '_' || s[i] == '-'
  }

  /** A name is the longest run of letters, digits, underscores and hyphens; three of them are literals. */
  lemma NameScans(stod: string -> Number, s: string, rest: string)
    requires NameText(s) && (rest == "" || !(Letter(rest[0]) || Digit(rest[0]) || rest[0] == '_' || rest[0] == '-'))
    ensures Scan(stod, s + rest) ==
            [if s == "true" then TBool(true) else if s == "false" then TBool(false) else if s == "null" then TNull else TIdent(s)]
            + Scan(stod, rest)
  {
    forall c ensures IsIdentChar(c) <==> Letter(c) || Digit(c) || c == '_' || c == '-' {
      Alphabet(c);
    }
    NameReads(stod, s, rest);
    ScanStep(stod, s, rest, [Keyword(s)]);
  }

  /** None of the characters that begin a token, alone or with the one after it. */
  predicate Stray(c: char, rest: string) {
    && !White(c) && !Letter(c) && !Digit(c) && c !in "_'\"!<>(),."
    && (c == '-' ==> rest == "" || !Digit(rest[0]))
    && (c in "&|=" ==> rest == "" || rest[0] != c)
  }

  /** A character that begins no token is passed over. */
  lemma StrayScans(stod: string -> Number, c: char, rest: string)
    requires Stray(c, rest)
    ensures Scan(stod, [c] + rest) == Scan(stod, rest)
  {
    var s := [c] + rest;
    Alphabet(c);
    FrontOf([c], rest);
    if rest != "" {
      Alphabet(rest[0]);
      assert s[..2] == [c, rest[0]];
    }
    assert Next(stod, s) == Scanned([], 1);
    ScanStep(stod, [c], rest, []);
    assert [] + Scan(stod, rest) == Scan(stod, rest);
  }

  // ---------------------------------------------------------------- strings

  function GuardChar(quote: char, c: char): string {
    if c == quote || c == '\\' then ['\\', c] else [c]
  }

  /** The text with a backslash before each quote and each backslash. */
  function Guard(quote: char, s: string): string {
    if s == "" then "" else GuardChar(quote, s[0]) + Guard(quote, s[1..])
  }

  predicate IsQuote(c: char) { c as int == 39 || c as int == 34 }

  lemma GuardedChar(quote: char, c: char, tail: string)
    requires IsQuote(quote)
    ensures var rest := Quoted(tail, quote);
            Quoted(GuardChar(quote, c) + tail, quote) == ([c] + rest.0, |GuardChar(quote, c)| + rest.1)
  {
    var s := GuardChar(quote, c) + tail;
    assert s[|GuardChar(quote, c)|..] == tail;
  }

  /** What stands behind the guarded text: the closing quote and more, or nothing. */
  lemma {:induction false} GuardedReads(quote: char, s: string, tail: string)
    requires IsQuote(quote) && (tail == "" || tail[0] == quote)
    ensures Quoted(Guard(quote, s) + tail, quote) == (s, |Guard(quote, s)| + if tail == "" then 0 else 1)
  {
    if s == "" {
      assert Guard(quote, s) + tail == tail;
    } else {
      GuardedReads(quote, s[1..], tail);
      GuardedChar(quote, s[0], Guard(quote, s[1..]) + tail);
      Regroup(GuardChar(quote, s[0]), Guard(quote, s[1..]), tail);
      assert [s[0]] + s[1..] == s;
    }
  }

  lemma NextIsQuoted(stod: string -> Number, quote: char, s: string, text: string, n: nat)
    requires IsQuote(quote) && Quoted(s, quote) == (text, n)
    ensures Next(stod, [quote] + s) == Scanned([TStr(text)], 1 + n)
  {
    FrontOf([quote], s);
  }

  /** A string in either quotes is read back, whatever its characters. */
  lemma StringScans(stod: string -> Number, quote: char, text: string, rest: string)
    requires IsQuote(quote)
    ensures Scan(stod, ([quote] + Guard(quote, text) + [quote]) + rest) == [TStr(text)] + Scan(stod, rest)
  {
    var body := Guard(quote, text);
    GuardedReads(quote, text, [quote] + rest);
    NextIsQuoted(stod, quote, body + ([quote] + rest), text, |body| + 1);
    var whole := [quote] + body + [quote];
    assert whole + rest == [quote] + (body + ([quote] + rest));
    ScanStep(stod, whole, rest, [TStr(text)]);
  }

  /** One that is not closed runs to the end of the text. */
  lemma OpenStringScans(stod: string -> Number, quote: char, text: string)
    requires IsQuote(quote)
    ensures Scan(stod, [quote] + Guard(quote, text)) == [TStr(text)]
  {
    var body := Guard(quote, text);
    GuardedReads(quote, text, "");
    assert body + "" == body;
    NextIsQuoted(stod, quote, body, text, |body|);
    var whole := [quote] + body;
    assert whole + "" == whole;
    ScanStep(stod, whole, "", [TStr(text)]);
    assert Scan(stod, "") == [];
  }
}
