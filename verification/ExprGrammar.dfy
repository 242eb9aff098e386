/**
 What the one-pass evaluator computes: an abstract syntax with its meaning, the tokens that write it
 down, and the proof that evaluating those tokens gives that meaning.  Also: when the evaluator
 terminates.
 */
module ExprGrammar {
  import opened ExprEvaluator

  // ----- progress --------------------------------------------------------------------------------

  /** An argument expression consumes nothing exactly when the cursor is at one of these. */
  predicate Inert(t: Token) { t.TDot? || t.TComma? || t.TRParen? || t.TEof? }

  lemma OrAdvances(env: Env, ts: Tokens, p: nat)
    requires Closed(ts) && p < |ts| && ParseOr(env, ts, p).Done?
    ensures ParseOr(env, ts, p).pos == p <==> Inert(ts[p])
  {
    AndAdvances(env, ts, p);
  }

  lemma AndAdvances(env: Env, ts: Tokens, p: nat)
    requires Closed(ts) && p < |ts| && ParseAnd(env, ts, p).Done?
    ensures ParseAnd(env, ts, p).pos == p <==> Inert(ts[p]) || ts[p].TOr?
  {
    NotAdvances(env, ts, p);
  }

  lemma NotAdvances(env: Env, ts: Tokens, p: nat)
    requires Closed(ts) && p < |ts| && ParseNot(env, ts, p).Done?
    ensures ParseNot(env, ts, p).pos == p <==> Inert(ts[p]) || ts[p].TOr? || ts[p].TAnd?
  {
    PrimaryAdvances(env, ts, p);
  }

  lemma PrimaryAdvances(env: Env, ts: Tokens, p: nat)
    requires Closed(ts) && p < |ts| && ParsePrimary(env, ts, p).Done?
    ensures ParsePrimary(env, ts, p).pos == p <==>
              Inert(ts[p]) || ts[p].TOr? || ts[p].TAnd? || ts[p].TNot? || ts[p].TCmp?
  {
  }

  /** One round of the argument loop stands still if and only if the cursor is at a dot. */
  lemma StandsStillOnlyAtDot(env: Env, ts: Tokens, p: nat)
    requires Closed(ts) && p < |ts| && !ts[p].TRParen? && !ts[p].TEof? && ParseOr(env, ts, p).Done?
    ensures var q := ParseOr(env, ts, p).pos; q == p && !ts[q].TComma? <==> ts[p].TDot?
  {
    OrAdvances(env, ts, p);
  }

  /** At a dot an expression is null and nothing is consumed, so the argument loop never ends. */
  lemma DotIsNull(env: Env, ts: Tokens, p: nat)
    requires Closed(ts) && p < |ts| && ts[p].TDot?
    ensures ParseOr(env, ts, p) == Done(Null, p)
    ensures forall name, args :: Arguments(env, ts, name, args, p).Loops?
  {
    assert ParsePrimary(env, ts, p) == Done(Null, p);
    assert ParseComparison(env, ts, p) == Done(Null, p);
    assert ParseNot(env, ts, p) == Done(Null, p);
    assert ParseAnd(env, ts, p) == Done(Null, p);
  }

  /** A stray dot in an argument list does make the parser loop: f(.) never ends. */
  lemma StrayDotLoops(env: Env, f: string)
    ensures ParseOr(env, [TIdent(f), TLParen, TDot, TRParen, TEof], 0).Loops?
  {
    var ts := [TIdent(f), TLParen, TDot, TRParen, TEof];
    DotIsNull(env, ts, 2);
    assert PathEnd(ts, f, 1) == (f, 1);
    assert ParsePrimary(env, ts, 0).Loops?;
    assert ParseComparison(env, ts, 0).Loops?;
    assert ParseNot(env, ts, 0).Loops?;
    assert ParseAnd(env, ts, 0).Loops?;
  }

  /** Token i belongs to a dotted path. */
  predicate InPath(ts: Tokens, i: nat)
    requires i < |ts|
  {
    || ts[i].TIdent?
    || (i > 0 && ts[i].TDot? && InPath(ts, i - 1))
    || (i > 0 && ts[i].TNum? && ts[i - 1].TDot? && InPath(ts, i - 1))
  }

  /** Dots occur only inside identifier paths. */
  predicate DotsInPaths(ts: Tokens) {
    forall i :: 0 <= i < |ts| && ts[i].TDot? ==> InPath(ts, i)
  }

  /** The cursor is not in the middle of a path. */
  predicate Boundary(ts: Tokens, p: nat)
    requires p < |ts|
  {
    p > 0 && InPath(ts, p - 1) ==>
      !ts[p].TDot? && (ts[p - 1].TDot? ==> !ts[p].TIdent? && !ts[p].TNum?)
  }

  predicate Sound(ts: Tokens, out: Out) {
    out.Done? && out.pos < |ts| && Boundary(ts, out.pos)
  }

  lemma {:induction false} PathEndsAtBoundary(ts: Tokens, name: string, p: nat)
    requires Closed(ts) && 0 < p < |ts| && InPath(ts, p - 1)
    requires ts[p - 1].TDot? ==> !ts[p].TIdent? && !ts[p].TNum?
    ensures Boundary(ts, PathEnd(ts, name, p).1)
    decreases |ts| - p
  {
    if ts[p].TDot? {
      if ts[p + 1].TIdent? || ts[p + 1].TNum? {
        assert InPath(ts, p);
        PathEndsAtBoundary(ts, name + "." + ts[p + 1].text, p + 2);
      } else {
        PathEndsAtBoundary(ts, name, p + 1);
      }
    }
  }

  lemma {:induction false} OrTerminates(env: Env, ts: Tokens, p: nat)
    requires Closed(ts) && DotsInPaths(ts) && p < |ts| && Boundary(ts, p)
    ensures Sound(ts, ParseOr(env, ts, p))
    decreases |ts| - p, 9
  {
    AndTerminates(env, ts, p);
    var left := ParseAnd(env, ts, p);
    OrLoopTerminates(env, ts, left.value, left.pos);
  }

  lemma {:induction false} OrLoopTerminates(env: Env, ts: Tokens, left: Value, p: nat)
    requires Closed(ts) && DotsInPaths(ts) && p < |ts| && Boundary(ts, p)
    ensures Sound(ts, OrLoop(env, ts, left, p))
    decreases |ts| - p, 8
  {
    if ts[p].TOr? {
      AndTerminates(env, ts, p + 1);
      var right := ParseAnd(env, ts, p + 1);
      OrLoopTerminates(env, ts, OrElse(left, right.value), right.pos);
    }
  }

  lemma {:induction false} AndTerminates(env: Env, ts: Tokens, p: nat)
    requires Closed(ts) && DotsInPaths(ts) && p < |ts| && Boundary(ts, p)
    ensures Sound(ts, ParseAnd(env, ts, p))
    decreases |ts| - p, 7
  {
    NotTerminates(env, ts, p);
    var left := ParseNot(env, ts, p);
    AndLoopTerminates(env, ts, left.value, left.pos);
  }

  lemma {:induction false} AndLoopTerminates(env: Env, ts: Tokens, left: Value, p: nat)
    requires Closed(ts) && DotsInPaths(ts) && p < |ts| && Boundary(ts, p)
    ensures Sound(ts, AndLoop(env, ts, left, p))
    decreases |ts| - p, 6
  {
    if ts[p].TAnd? {
      NotTerminates(env, ts, p + 1);
      var right := ParseNot(env, ts, p + 1);
      AndLoopTerminates(env, ts, AndThen(left, right.value), right.pos);
    }
  }

  lemma {:induction false} NotTerminates(env: Env, ts: Tokens, p: nat)
    requires Closed(ts) && DotsInPaths(ts) && p < |ts| && Boundary(ts, p)
    ensures Sound(ts, ParseNot(env, ts, p))
    decreases |ts| - p, 5
  {
    if ts[p].TNot? {
      NotTerminates(env, ts, p + 1);
    } else {
      PrimaryTerminates(env, ts, p);
      var left := ParsePrimary(env, ts, p);
      if ts[left.pos].TCmp? {
        PrimaryTerminates(env, ts, left.pos + 1);
      }
    }
  }

  lemma {:induction false} PrimaryTerminates(env: Env, ts: Tokens, p: nat)
    requires Closed(ts) && DotsInPaths(ts) && p < |ts| && Boundary(ts, p)
    ensures Sound(ts, ParsePrimary(env, ts, p))
    decreases |ts| - p, 3
  {
    if ts[p].TLParen? {
      OrTerminates(env, ts, p + 1);
    } else if ts[p].TIdent? {
      PathEndsAtBoundary(ts, ts[p].text, p + 1);
      var (name, q) := PathEnd(ts, ts[p].text, p + 1);
      if ts[q].TLParen? {
        ArgumentsTerminate(env, ts, name, [], q + 1);
      }
    }
  }

  lemma {:induction false} ArgumentsTerminate(env: Env, ts: Tokens, name: string, args: seq<Value>, p: nat)
    requires Closed(ts) && DotsInPaths(ts) && p < |ts| && Boundary(ts, p)
    ensures Sound(ts, Arguments(env, ts, name, args, p))
    decreases |ts| - p, 10
  {
    if !ts[p].TRParen? && !ts[p].TEof? {
      OrTerminates(env, ts, p);
      var arg := ParseOr(env, ts, p);
      StandsStillOnlyAtDot(env, ts, p);
      assert !ts[p].TDot?;
      var q := if ts[arg.pos].TComma? then arg.pos + 1 else arg.pos;
      ArgumentsTerminate(env, ts, name, args + [arg.value], q);
    }
  }

  /** With dots only inside paths, evaluation terminates with a value, whatever else is malformed. */
  lemma EvaluationTerminates(env: Env, ts: Tokens)
    requires Closed(ts) && DotsInPaths(ts)
    ensures ParseOr(env, ts, 0).Done?
  {
    OrTerminates(env, ts, 0);
  }

  // ----- abstract syntax -------------------------------------------------------------------------

  datatype Segment = Word(text: string) | Digits(text: string, num: Number)

  datatype Path = Path(head: string, rest: seq<Segment>)

  datatype BinOp = OrOp | AndOp | Relation(op: CmpOp)

  datatype Expr =
    | Lit(value: Value, spelling: string)
    | Ref(path: Path)
    | Call(path: Path, args: seq<Expr>)
    | Not(e: Expr)
    | Bin(op: BinOp, left: Expr, right: Expr)

  function NameFrom(name: string, rest: seq<Segment>): string
    decreases |rest|
  {
    if rest == [] then name else NameFrom(name + "." + rest[0].text, rest[1..])
  }

  function Meaning(env: Env, op: BinOp, a: Value, b: Value): Value {
    match op
    case OrOp => OrElse(a, b)
    case AndOp => AndThen(a, b)
    case Relation(c) => Compare(env, c, a, b)
  }

  /** The meaning of an expression. */
  function Denote(env: Env, e: Expr): Value
    decreases e, 0
  {
    match e
    case Lit(v, _) => v
    case Ref(path) => env.lookup(NameFrom(path.head, path.rest))
    case Call(path, args) => env.call(NameFrom(path.head, path.rest), DenoteAll(env, args))
    case Not(x) => Bool(!Truthy(Denote(env, x)))
    case Bin(op, l, r) => Meaning(env, op, Denote(env, l), Denote(env, r))
  }

  function DenoteAll(env: Env, es: seq<Expr>): (vs: seq<Value>)
    decreases es, 1
  {
    if es == [] then [] else [Denote(env, es[0])] + DenoteAll(env, es[1..])
  }

  // ----- the printer -----------------------------------------------------------------------------

  /** Binding strength: 0 or, 1 and, 2 not, 3 comparison, 4 primary.  Or and and associate to the
      left; comparisons do not associate. */
  function OpLevel(op: BinOp): nat {
    match op
    case OrOp => 0
    case AndOp => 1
    case Relation(_) => 3
  }

  function LeftLevel(op: BinOp): nat { if op.Relation? then 4 else OpLevel(op) }

  function RightLevel(op: BinOp): nat { OpLevel(op) + 1 }

  function OpToken(op: BinOp): Token {
    match op
    case OrOp => TOr
    case AndOp => TAnd
    case Relation(c) => TCmp(c)
  }

  function Level(e: Expr): nat {
    match e
    case Not(_) => 2
    case Bin(op, _, _) => OpLevel(op)
    case _ => 4
  }

  function LitToken(v: Value, spelling: string): Token {
    match v
    case Null => TNull
    case Bool(b) => TBool(b)
    case Num(n) => TNum(spelling, n)
    case Str(s) => TStr(s)
  }

  function SegmentTokens(rest: seq<Segment>): Tokens {
    if rest == [] then []
    else
      [TDot, match rest[0] case Word(t) => TIdent(t) case Digits(t, n) => TNum(t, n)] + SegmentTokens(rest[1..])
  }

  function PathTokens(path: Path): Tokens { [TIdent(path.head)] + SegmentTokens(path.rest) }

  /** The tokens of an expression where level or stronger is expected: in parentheses if it is weaker. */
  function Print(e: Expr, level: nat): (r: Tokens)
    ensures |r| > 0
    decreases e, 1
  {
    if Level(e) < level then [TLParen] + Body(e) + [TRParen] else Body(e)
  }

  function Body(e: Expr): (r: Tokens)
    ensures |r| > 0
    decreases e, 0
  {
    match e
    case Lit(v, spelling) => [LitToken(v, spelling)]
    case Ref(path) => PathTokens(path)
    case Call(path, args) => PathTokens(path) + [TLParen] + PrintArgs(args) + [TRParen]
    case Not(x) => [TNot] + Print(x, 2)
    case Bin(op, l, r) => Print(l, LeftLevel(op)) + [OpToken(op)] + Print(r, RightLevel(op))
  }

  function PrintArgs(es: seq<Expr>): Tokens
    decreases es, 2
  {
    if es == [] then []
    else if |es| == 1 then Print(es[0], 0)
    else Print(es[0], 0) + [TComma] + PrintArgs(es[1..])
  }

  // ----- reading back ----------------------------------------------------------------------------

  /** The tokens s stand in ts at position p. */
  predicate At(ts: Tokens, p: nat, s: Tokens)
    decreases |s|
  {
    p <= |ts| && (s == [] || (p < |ts| && ts[p] == s[0] && At(ts, p + 1, s[1..])))
  }

  lemma {:induction false} AtSplit(ts: Tokens, p: nat, a: Tokens, b: Tokens)
    requires At(ts, p, a + b)
    ensures At(ts, p, a) && At(ts, p + |a|, b)
    decreases |a|
  {
    if a == [] {
      assert a + b == b;
    } else {
      assert (a + b)[1..] == a[1..] + b;
      AtSplit(ts, p + 1, a[1..], b);
    }
  }

  lemma {:induction false} AtPrefix(s: Tokens, t: Tokens, p: nat)
    requires p <= |s|
    ensures At(s + t, p, s[p..])
    decreases |s| - p
  {
    if p < |s| {
      AtPrefix(s, t, p + 1);
      assert s[p..][1..] == s[p + 1..];
    }
  }

  lemma {:induction false} AtLength(ts: Tokens, p: nat, s: Tokens)
    requires At(ts, p, s)
    ensures p + |s| <= |ts|
    decreases |s|
  {
    if s != [] {
      AtLength(ts, p + 1, s[1..]);
    }
  }

  lemma AtOne(ts: Tokens, p: nat, t: Token)
    requires At(ts, p, [t])
    ensures p < |ts| && ts[p] == t
  {
  }

  /** The token after an expression that the given level cannot take for its continuation. */
  predicate Follows(t: Token, level: nat) {
    && !t.TDot? && !t.TLParen?
    && (level < 4 ==> !t.TCmp?)
    && (level < 1 ==> !t.TAnd?)
  }

  /** The tokens s stand at p and are followed by a token that ends them. */
  predicate Stands(ts: Tokens, p: nat, s: Tokens, level: nat) {
    Closed(ts) && At(ts, p, s) && p + |s| < |ts| && Follows(ts[p + |s|], level)
  }

  predicate Standing(ts: Tokens, p: nat, e: Expr, level: nat) {
    Stands(ts, p, Print(e, level), level)
  }

  /** Parsing at the given level yields v and stops at q; the two levels with a loop go on with it. */
  predicate Reading(env: Env, ts: Tokens, p: nat, v: Value, q: nat, level: nat) {
    Closed(ts) && p < |ts| && q < |ts| &&
    match level
    case 0 => ParseOr(env, ts, p) == OrLoop(env, ts, v, q)
    case 1 => ParseAnd(env, ts, p) == AndLoop(env, ts, v, q)
    case 2 => ParseNot(env, ts, p) == Done(v, q)
    case 3 => ParseComparison(env, ts, p) == Done(v, q)
    case _ => ParsePrimary(env, ts, p) == Done(v, q)
  }

  /** Parsing at the given level reads exactly e and computes its meaning. */
  predicate ReadsAs(env: Env, ts: Tokens, p: nat, e: Expr, level: nat) {
    Reading(env, ts, p, Denote(env, e), p + |Print(e, level)|, level)
  }

  lemma {:induction false} PathReads(ts: Tokens, name: string, rest: seq<Segment>, p: nat)
    requires Closed(ts) && At(ts, p, SegmentTokens(rest)) && p + |SegmentTokens(rest)| < |ts|
    requires !ts[p + |SegmentTokens(rest)|].TDot?
    ensures PathEnd(ts, name, p) == (NameFrom(name, rest), p + |SegmentTokens(rest)|)
    decreases |rest|
  {
    if rest != [] {
      var two := SegmentTokens(rest)[..2];
      assert SegmentTokens(rest) == two + SegmentTokens(rest[1..]);
      AtSplit(ts, p, two, SegmentTokens(rest[1..]));
      assert two == [TDot] + [two[1]];
      AtSplit(ts, p, [TDot], [two[1]]);
      AtOne(ts, p, TDot);
      AtOne(ts, p + 1, two[1]);
      PathReads(ts, name + "." + rest[0].text, rest[1..], p + 2);
    }
  }

  /** The first token of a printed expression starts an expression, and is no negation from the
      comparison level on. */
  lemma {:induction false} FirstToken(e: Expr, level: nat)
    ensures !Inert(Print(e, level)[0])
    ensures level >= 3 ==> !Print(e, level)[0].TNot?
    decreases e
  {
    if e.Bin? {
      FirstToken(e.left, LeftLevel(e.op));
    }
  }

  /** Where the operands of a binary expression stand. */
  lemma OperandsStand(ts: Tokens, p: nat, a: Tokens, al: nat, t: Token, b: Tokens, bl: nat, level: nat)
    requires Stands(ts, p, a + [t] + b, level)
    requires Follows(t, al) && level <= bl && (level < 1 || bl >= 1)
    ensures Stands(ts, p, a, al) && ts[p + |a|] == t && Stands(ts, p + |a| + 1, b, bl)
    ensures p + |a| + 1 + |b| == p + |a + [t] + b|
  {
    AtSplit(ts, p, a + [t], b);
    AtSplit(ts, p, a, [t]);
    AtOne(ts, p + |a|, t);
  }

  /** Two operands around an operator. */
  lemma BinStep(env: Env, ts: Tokens, p: nat, op: BinOp, v: Value, q: nat, w: Value, end: nat)
    requires Reading(env, ts, p, v, q, LeftLevel(op)) && ts[q] == OpToken(op)
    requires Reading(env, ts, q + 1, w, end, RightLevel(op)) && Follows(ts[end], OpLevel(op))
    ensures Reading(env, ts, p, Meaning(env, op, v, w), end, OpLevel(op))
  {
    match op
    case OrOp => assert ParseAnd(env, ts, q + 1) == Done(w, end);
    case AndOp => assert ParseNot(env, ts, q + 1) == Done(w, end);
    case Relation(c) => assert ParsePrimary(env, ts, q + 1) == Done(w, end);
  }

  lemma ParenStep(env: Env, ts: Tokens, p: nat, v: Value, q: nat)
    requires Reading(env, ts, p + 1, v, q, 0) && ts[p].TLParen? && ts[q].TRParen?
    ensures Reading(env, ts, p, v, q + 1, 4)
  {
    assert OrLoop(env, ts, v, q) == Done(v, q);
  }

  lemma ArgStep(env: Env, ts: Tokens, p: nat, name: string, done: seq<Value>, v: Value, q: nat)
    requires Reading(env, ts, p, v, q, 0) && p < q && !ts[p].TRParen? && !ts[p].TEof?
    requires ts[q].TRParen? || ts[q].TComma?
    ensures Arguments(env, ts, name, done, p) ==
            Arguments(env, ts, name, done + [v], if ts[q].TComma? then q + 1 else q)
  {
    assert OrLoop(env, ts, v, q) == Done(v, q);
  }

  /** An expression that is not of the given level prints and reads as at the next one. */
  lemma Descend(env: Env, ts: Tokens, p: nat, e: Expr, level: nat)
    requires level < 4 && Level(e) != level && Standing(ts, p, e, level)
    requires Standing(ts, p, e, level + 1) && ReadsAs(env, ts, p, e, level + 1)
    ensures ReadsAs(env, ts, p, e, level)
  {
    FirstToken(e, 3);
    StartsWith(ts, p, Print(e, level));
  }

  lemma NextLevelStands(ts: Tokens, p: nat, e: Expr, level: nat)
    requires level < 4 && Level(e) != level && Standing(ts, p, e, level)
    ensures Standing(ts, p, e, level + 1) && Print(e, level + 1) == Print(e, level)
  {
  }

  lemma InnerStands(ts: Tokens, p: nat, e: Expr)
    requires Level(e) < 4 && Standing(ts, p, e, 4)
    ensures p < |ts| && ts[p].TLParen? && Standing(ts, p + 1, e, 0)
    ensures var q := p + 1 + |Print(e, 0)|; ts[q].TRParen? && q + 1 == p + |Print(e, 4)|
  {
    AtSplit(ts, p, [TLParen] + Body(e), [TRParen]);
    AtSplit(ts, p, [TLParen], Body(e));
    AtOne(ts, p, TLParen);
    AtOne(ts, p + 1 + |Body(e)|, TRParen);
  }

  lemma PrefixStands(ts: Tokens, p: nat, t: Token, s: Tokens, level: nat)
    requires Stands(ts, p, [t] + s, level)
    ensures ts[p] == t && Stands(ts, p + 1, s, level)
  {
    AtSplit(ts, p, [t], s);
    AtOne(ts, p, t);
  }

  lemma NotStep(env: Env, ts: Tokens, p: nat, v: Value, q: nat)
    requires Reading(env, ts, p + 1, v, q, 2) && ts[p].TNot?
    ensures Reading(env, ts, p, Bool(!Truthy(v)), q, 2)
  {
  }

  lemma RefReads(env: Env, ts: Tokens, p: nat, path: Path)
    requires Standing(ts, p, Ref(path), 4)
    ensures ReadsAs(env, ts, p, Ref(path), 4)
  {
    PrintOwn(Ref(path));
    AtSplit(ts, p, [TIdent(path.head)], SegmentTokens(path.rest));
    AtOne(ts, p, TIdent(path.head));
    PathReads(ts, path.head, path.rest, p + 1);
  }

  lemma LiteralReads(env: Env, ts: Tokens, p: nat, v: Value, spelling: string)
    requires Standing(ts, p, Lit(v, spelling), 4)
    ensures ReadsAs(env, ts, p, Lit(v, spelling), 4)
  {
    PrintOwn(Lit(v, spelling));
    StartsWith(ts, p, [LitToken(v, spelling)]);
  }

  /** The tokens of a call: its path, a parenthesis, its arguments, a parenthesis. */
  lemma CallStands(ts: Tokens, p: nat, path: Path, args: seq<Expr>)
    requires Standing(ts, p, Call(path, args), 4)
    ensures var q := p + |PathTokens(path)|;
            && p < q < |ts| && ts[p] == TIdent(path.head) && ts[q].TLParen?
            && PathEnd(ts, path.head, p + 1) == (NameFrom(path.head, path.rest), q)
            && At(ts, q + 1, PrintArgs(args) + [TRParen])
            && q + 2 + |PrintArgs(args)| == p + |Print(Call(path, args), 4)|
  {
    var a, b := PathTokens(path), PrintArgs(args) + [TRParen];
    PrintOwn(Call(path, args));
    assert Body(Call(path, args)) == (a + [TLParen]) + b;
    AtSplit(ts, p, a + [TLParen], b);
    AtSplit(ts, p, a, [TLParen]);
    AtOne(ts, p + |a|, TLParen);
    AtSplit(ts, p, [TIdent(path.head)], SegmentTokens(path.rest));
    AtOne(ts, p, TIdent(path.head));
    PathReads(ts, path.head, path.rest, p + 1);
  }

  lemma PrintOwn(e: Expr)
    ensures Print(e, Level(e)) == Body(e)
  {
  }

  /** How far the reading of e at a level is from its own constructor. */
  function Distance(e: Expr, level: nat): nat {
    if level <= Level(e) then Level(e) - level else if level <= 4 then 14 - level else 0
  }

  /** Every printed expression reads back as its meaning, at every level. */
  lemma {:induction false} Reads(env: Env, ts: Tokens, p: nat, e: Expr, level: nat)
    requires level <= 4 && Standing(ts, p, e, level)
    ensures ReadsAs(env, ts, p, e, level)
    decreases e, Distance(e, level) + 1
  {
    if level < 4 && level != Level(e) {
      NextLevelStands(ts, p, e, level);
      Reads(env, ts, p, e, level + 1);
      Descend(env, ts, p, e, level);
    } else if level != Level(e) {
      InnerStands(ts, p, e);
      Reads(env, ts, p + 1, e, 0);
      ParenStep(env, ts, p, Denote(env, e), p + 1 + |Print(e, 0)|);
    } else {
      match e
      case Bin(op, l, r) => ReadsBin(env, ts, p, op, l, r);
      case Not(x) => ReadsNot(env, ts, p, x);
      case Ref(path) => RefReads(env, ts, p, path);
      case Call(path, args) => ReadsCall(env, ts, p, path, args);
      case Lit(v, spelling) => LiteralReads(env, ts, p, v, spelling);
    }
  }

  lemma {:induction false} ReadsBin(env: Env, ts: Tokens, p: nat, op: BinOp, l: Expr, r: Expr)
    requires Standing(ts, p, Bin(op, l, r), OpLevel(op))
    ensures ReadsAs(env, ts, p, Bin(op, l, r), OpLevel(op))
    decreases Bin(op, l, r), 0
  {
    PrintOwn(Bin(op, l, r));
    var a, b := Print(l, LeftLevel(op)), Print(r, RightLevel(op));
    OperandsStand(ts, p, a, LeftLevel(op), OpToken(op), b, RightLevel(op), OpLevel(op));
    Reads(env, ts, p, l, LeftLevel(op));
    Reads(env, ts, p + |a| + 1, r, RightLevel(op));
    BinStep(env, ts, p, op, Denote(env, l), p + |a|, Denote(env, r), p + |a| + 1 + |b|);
  }

  lemma {:induction false} ReadsNot(env: Env, ts: Tokens, p: nat, x: Expr)
    requires Standing(ts, p, Not(x), 2)
    ensures ReadsAs(env, ts, p, Not(x), 2)
    decreases Not(x), 0
  {
    PrintOwn(Not(x));
    PrefixStands(ts, p, TNot, Print(x, 2), 2);
    Reads(env, ts, p + 1, x, 2);
    NotStep(env, ts, p, Denote(env, x), p + 1 + |Print(x, 2)|);
  }

  lemma {:induction false} ReadsCall(env: Env, ts: Tokens, p: nat, path: Path, args: seq<Expr>)
    requires Standing(ts, p, Call(path, args), 4)
    ensures ReadsAs(env, ts, p, Call(path, args), 4)
    decreases Call(path, args), 0
  {
    CallStands(ts, p, path, args);
    var q, name := p + |PathTokens(path)|, NameFrom(path.head, path.rest);
    ArgsRead(env, ts, q + 1, name, [], args);
    assert [] + DenoteAll(env, args) == DenoteAll(env, args);
    assert ParsePrimary(env, ts, p) == Arguments(env, ts, name, [], q + 1);
  }

  /** The argument loop collects the meanings of all the arguments. */
  lemma {:induction false} ArgsRead(env: Env, ts: Tokens, p: nat, name: string, done: seq<Value>, es: seq<Expr>)
    requires Closed(ts) && At(ts, p, PrintArgs(es) + [TRParen])
    ensures p < |ts|
    ensures Arguments(env, ts, name, done, p) ==
            Done(env.call(name, done + DenoteAll(env, es)), p + |PrintArgs(es)| + 1)
    decreases es, 0
  {
    if es == [] {
      assert PrintArgs(es) + [TRParen] == [TRParen];
      AtOne(ts, p, TRParen);
      assert done + DenoteAll(env, es) == done;
    } else {
      var a, b := Print(es[0], 0), PrintArgs(es[1..]);
      ArgsUnfold(es);
      FirstArg(ts, p, PrintArgs(es), a, b, |es| == 1);
      FirstToken(es[0], 0);
      StartsWith(ts, p, a);
      Reads(env, ts, p, es[0], 0);
      ArgStep(env, ts, p, name, done, Denote(env, es[0]), p + |a|);
      ArgsRead(env, ts, p + |a| + (if |es| == 1 then 0 else 1), name, done + [Denote(env, es[0])], es[1..]);
      DenoteRest(env, done, es);
    }
  }

  lemma DenoteRest(env: Env, done: seq<Value>, es: seq<Expr>)
    requires es != []
    ensures done + [Denote(env, es[0])] + DenoteAll(env, es[1..]) == done + DenoteAll(env, es)
  {
  }

  lemma StartsWith(ts: Tokens, p: nat, a: Tokens)
    requires At(ts, p, a) && |a| > 0
    ensures p < |ts| && ts[p] == a[0]
  {
  }

  /** The first argument stands before a comma or the closing parenthesis, and the others after it. */
  lemma FirstArg(ts: Tokens, p: nat, all: Tokens, a: Tokens, b: Tokens, single: bool)
    requires Closed(ts) && At(ts, p, all + [TRParen])
    requires if single then all == a && b == [] else all == a + [TComma] + b
    ensures Stands(ts, p, a, 0)
    ensures var q := p + |a|;
            && (if single then ts[q].TRParen? else ts[q].TComma? && q + 1 < |ts|)
            && At(ts, q + (if single then 0 else 1), b + [TRParen])
            && |all| == |a| + |b| + if single then 0 else 1
  {
    if single {
      LastStands(ts, p, a);
      assert b + [TRParen] == [TRParen];
    } else {
      OneStands(ts, p, a, b);
    }
  }

  lemma ArgsUnfold(es: seq<Expr>)
    requires es != []
    ensures |es| == 1 ==> PrintArgs(es) == Print(es[0], 0) && PrintArgs(es[1..]) + [TRParen] == [TRParen] && PrintArgs(es[1..]) == []
    ensures |es| > 1 ==> PrintArgs(es) == Print(es[0], 0) + [TComma] + PrintArgs(es[1..])
  {
  }

  lemma LastStands(ts: Tokens, p: nat, a: Tokens)
    requires Closed(ts) && At(ts, p, a + [TRParen])
    ensures Stands(ts, p, a, 0) && ts[p + |a|].TRParen? && At(ts, p + |a|, [TRParen])
  {
    AtSplit(ts, p, a, [TRParen]);
    AtOne(ts, p + |a|, TRParen);
  }

  lemma OneStands(ts: Tokens, p: nat, a: Tokens, b: Tokens)
    requires Closed(ts) && At(ts, p, a + [TComma] + b + [TRParen])
    ensures Stands(ts, p, a, 0) && ts[p + |a|].TComma? && At(ts, p + |a| + 1, b + [TRParen])
  {
    assert a + [TComma] + b + [TRParen] == a + ([TComma] + (b + [TRParen]));
    AtSplit(ts, p, a, [TComma] + (b + [TRParen]));
    AtSplit(ts, p + |a|, [TComma], b + [TRParen]);
    AtOne(ts, p + |a|, TComma);
  }

  // ----- the result ------------------------------------------------------------------------------

  lemma {:induction false} SegmentsHaveNoEof(rest: seq<Segment>)
    ensures TEof !in SegmentTokens(rest)
  {
    if rest != [] {
      SegmentsHaveNoEof(rest[1..]);
    }
  }

  lemma {:induction false} PrintHasNoEof(e: Expr, level: nat)
    ensures TEof !in Print(e, level)
    decreases e, 1
  {
    BodyHasNoEof(e);
  }

  lemma {:induction false} BodyHasNoEof(e: Expr)
    ensures TEof !in Body(e)
    decreases e, 0
  {
    match e
    case Lit(_, _) =>
    case Ref(path) => SegmentsHaveNoEof(path.rest);
    case Call(path, args) =>
      SegmentsHaveNoEof(path.rest);
      ArgsHaveNoEof(args);
    case Not(x) => PrintHasNoEof(x, 2);
    case Bin(op, l, r) =>
      PrintHasNoEof(l, LeftLevel(op));
      PrintHasNoEof(r, RightLevel(op));
  }

  lemma {:induction false} ArgsHaveNoEof(es: seq<Expr>)
    ensures TEof !in PrintArgs(es)
    decreases es, 2
  {
    if es != [] {
      PrintHasNoEof(es[0], 0);
      ArgsHaveNoEof(es[1..]);
    }
  }

  /** For every expression, evaluating its tokens gives its meaning and stops exactly at their end. */
  lemma EvaluationMeansDenotation(env: Env, e: Expr)
    ensures Closed(Print(e, 0) + [TEof])
    ensures ParseOr(env, Print(e, 0) + [TEof], 0) == Done(Denote(env, e), |Print(e, 0)|)
  {
    var s, ts := Print(e, 0), Print(e, 0) + [TEof];
    PrintHasNoEof(e, 0);
    assert forall i :: 0 <= i < |s| ==> ts[i] == s[i] && s[i] in s;
    AtPrefix(s, [TEof], 0);
    assert s[0..] == s;
    Reads(env, ts, 0, e, 0);
  }
}
