/**
 What the operators of the expression language answer, stated on numbers, texts and truth values
 (src/workflow/ExprEvaluator.cpp), both for the operation and for its evaluation from tokens.
 */
module ExprLaws {
  import opened ExprEvaluator
  import opened ExprGrammar
  import opened ExprTermination

  /** On finite numbers the six operators are the order and equality of the numbers. */
  lemma FiniteNumbers(env: Env, x: real, y: real)
    ensures Compare(env, Lt, Num(Fin(x)), Num(Fin(y))) == Bool(x < y)
    ensures Compare(env, Lte, Num(Fin(x)), Num(Fin(y))) == Bool(x <= y)
    ensures Compare(env, Gt, Num(Fin(x)), Num(Fin(y))) == Bool(x > y)
    ensures Compare(env, Gte, Num(Fin(x)), Num(Fin(y))) == Bool(x >= y)
    ensures Compare(env, Eq, Num(Fin(x)), Num(Fin(y))) == Bool(x == y)
    ensures Compare(env, Neq, Num(Fin(x)), Num(Fin(y))) == Bool(x != y)
  {
  }

  /** Where a number lies: the infinities outside all finite ones. */
  predicate Before(a: Number, b: Number) {
    || (a == NegInf && (b.Fin? || b == PosInf))
    || (a.Fin? && b == PosInf)
    || (a.Fin? && b.Fin? && a.r < b.r)
  }

  /** On all numbers: an order of everything but NaN, with which nothing compares. */
  lemma AllNumbers(env: Env, a: Number, b: Number)
    ensures Compare(env, Lt, Num(a), Num(b)) == Bool(Before(a, b))
    ensures Compare(env, Gt, Num(a), Num(b)) == Bool(Before(b, a))
    ensures Compare(env, Lte, Num(a), Num(b)) == Bool(Before(a, b) || (a == b && a != NaN))
    ensures Compare(env, Gte, Num(a), Num(b)) == Bool(Before(b, a) || (a == b && a != NaN))
    ensures Compare(env, Eq, Num(a), Num(b)) == Bool(a == b && a != NaN)
    ensures a != NaN && b != NaN ==> Before(a, b) || a == b || Before(b, a)
    ensures a == NaN || b == NaN ==> forall op :: op != Neq ==> Compare(env, op, Num(a), Num(b)) == Bool(false)
  {
  }

  /** The number a value is compared as. */
  predicate CountsAs(env: Env, v: Value, n: Number) {
    match v
    case Null => n == Fin(0.0)
    case Bool(b) => n == Fin(if b then 1.0 else 0.0)
    case Num(m) => n == m
    case Str(s) => n == env.toNumber(s)
  }

  /** The four orderings of any two values are those of the numbers they count as. */
  lemma OrderingsAreNumeric(env: Env, op: CmpOp, a: Value, b: Value, m: Number, n: Number)
    requires op != Eq && op != Neq && CountsAs(env, a, m) && CountsAs(env, b, n)
    ensures Compare(env, op, a, b) == Compare(env, op, Num(m), Num(n))
  {
  }

  lemma NeqIsNotEq(env: Env, a: Value, b: Value)
    ensures Compare(env, Eq, a, b) == Bool(LooseEq(env, a, b))
    ensures Compare(env, Neq, a, b) == Bool(!LooseEq(env, a, b))
  {
  }

  /** Null, the number 0, the empty text and false are not truthy, nor is NaN; everything else is. */
  lemma TruthIsNonZero(v: Value)
    ensures Truthy(v) <==> v !in {Null, Bool(false), Num(Fin(0.0)), Num(NaN), Str("")}
  {
  }

  /** Null equals exactly itself and the zero of each type. */
  lemma NullEqualsZeros(env: Env, v: Value)
    ensures LooseEq(env, Null, v) <==> v in {Null, Bool(false), Num(Fin(0.0)), Str("")}
    ensures LooseEq(env, v, Null) <==> v in {Null, Bool(false), Num(Fin(0.0)), Str("")}
  {
  }

  /** A truth value equals what has the same truth. */
  lemma TruthsCompareByTruth(env: Env, b: bool, v: Value)
    requires v != Null
    ensures LooseEq(env, Bool(b), v) <==> (b <==> v !in {Bool(false), Num(Fin(0.0)), Num(NaN), Str("")})
  {
    TruthIsNonZero(v);
  }

  /** A number equals a text that converts to it. */
  lemma NumbersCompareByNumber(env: Env, n: Number, s: string)
    ensures LooseEq(env, Num(n), Str(s)) <==> n == env.toNumber(s) && n != NaN
    ensures LooseEq(env, Str(s), Num(n)) <==> n == env.toNumber(s) && n != NaN
  {
  }

  /** The same letter, in either case. */
  predicate SameLetter(a: char, b: char) {
    a == b || ('A' <= a <= 'Z' && b as int == a as int + 32) || ('A' <= b <= 'Z' && a as int == b as int + 32)
  }

  lemma LowerLetters(a: char, b: char)
    ensures LowerChar(a) == LowerChar(b) <==> SameLetter(a, b)
  {
  }

  /** Texts are equal letter by letter, without regard to case. */
  lemma TextsCompareByLetter(env: Env, s: string, t: string)
    ensures LooseEq(env, Str(s), Str(t)) <==> |s| == |t| && forall i :: 0 <= i < |s| ==> SameLetter(s[i], t[i])
  {
    forall i | 0 <= i < |s| && i < |t| ensures Lower(s)[i] == Lower(t)[i] <==> SameLetter(s[i], t[i]) {
      LowerLetters(s[i], t[i]);
    }
    if Lower(s) == Lower(t) {
      assert |Lower(s)| == |Lower(t)|;
      forall i | 0 <= i < |s| ensures SameLetter(s[i], t[i]) {
        assert Lower(s)[i] == Lower(t)[i];
      }
    }
  }

  /** || gives its first truthy operand or else the second, && its first falsy one or else the second. */
  lemma OrAndPick(a: Value, b: Value)
    ensures Truthy(a) ==> OrElse(a, b) == a && AndThen(a, b) == b
    ensures !Truthy(a) ==> OrElse(a, b) == b && AndThen(a, b) == a
  {
  }

  // ----- from tokens -----------------------------------------------------------------------------

  function Operation(a: Value, op: BinOp, b: Value): Expr { Bin(op, Lit(a, ""), Lit(b, "")) }

  /** Two literals around an operator, as tokens. */
  lemma OperationTokens(a: Value, op: BinOp, b: Value)
    ensures Print(Operation(a, op, b), 0) == [LitToken(a, ""), OpToken(op), LitToken(b, "")]
  {
    var e := Operation(a, op, b);
    assert Print(e.left, LeftLevel(op)) == [LitToken(a, "")];
    assert Print(e.right, RightLevel(op)) == [LitToken(b, "")];
    assert Body(e) == [LitToken(a, "")] + [OpToken(op)] + [LitToken(b, "")];
  }

  lemma OperationMeans(env: Env, a: Value, op: BinOp, b: Value)
    ensures var ts := [LitToken(a, ""), OpToken(op), LitToken(b, ""), TEof];
            Closed(ts) && ParseOr(env, ts, 0) == Done(Meaning(env, op, a, b), 3)
  {
    var e := Operation(a, op, b);
    OperationTokens(a, op, b);
    EvaluationMeansDenotation(env, e);
    assert Print(e, 0) + [TEof] == [LitToken(a, ""), OpToken(op), LitToken(b, ""), TEof];
  }

  /** 1 < 2 and its kin, from tokens to value. */
  lemma NumeralsCompare(env: Env, x: real, y: real)
    ensures ParseOr(env, [TNum("", Fin(x)), TCmp(Lt), TNum("", Fin(y)), TEof], 0) == Done(Bool(x < y), 3)
    ensures ParseOr(env, [TNum("", Fin(x)), TCmp(Lte), TNum("", Fin(y)), TEof], 0) == Done(Bool(x <= y), 3)
    ensures ParseOr(env, [TNum("", Fin(x)), TCmp(Gt), TNum("", Fin(y)), TEof], 0) == Done(Bool(x > y), 3)
    ensures ParseOr(env, [TNum("", Fin(x)), TCmp(Gte), TNum("", Fin(y)), TEof], 0) == Done(Bool(x >= y), 3)
    ensures ParseOr(env, [TNum("", Fin(x)), TCmp(Eq), TNum("", Fin(y)), TEof], 0) == Done(Bool(x == y), 3)
    ensures ParseOr(env, [TNum("", Fin(x)), TCmp(Neq), TNum("", Fin(y)), TEof], 0) == Done(Bool(x != y), 3)
  {
    FiniteNumbers(env, x, y);
    var a, b := Num(Fin(x)), Num(Fin(y));
    OperationMeans(env, a, Relation(Lt), b);
    OperationMeans(env, a, Relation(Lte), b);
    OperationMeans(env, a, Relation(Gt), b);
    OperationMeans(env, a, Relation(Gte), b);
    OperationMeans(env, a, Relation(Eq), b);
    OperationMeans(env, a, Relation(Neq), b);
  }

  /** a || b and a && b, from tokens to value. */
  lemma LiteralsPick(env: Env, a: Value, b: Value)
    ensures ParseOr(env, [LitToken(a, ""), TOr, LitToken(b, ""), TEof], 0) ==
            Done(if a in {Null, Bool(false), Num(Fin(0.0)), Num(NaN), Str("")} then b else a, 3)
    ensures ParseOr(env, [LitToken(a, ""), TAnd, LitToken(b, ""), TEof], 0) ==
            Done(if a in {Null, Bool(false), Num(Fin(0.0)), Num(NaN), Str("")} then a else b, 3)
  {
    TruthIsNonZero(a);
    OrAndPick(a, b);
    OperationMeans(env, a, OrOp, b);
    OperationMeans(env, a, AndOp, b);
  }

  // ----- what is not closed -----------------------------------------------------------------------

  lemma TailIsClosed(front: Tokens, e: Expr)
    requires TEof !in front
    ensures Closed(front + Print(e, 0) + [TEof])
  {
    PrintHasNoEof(e, 0);
    var body := front + Print(e, 0);
    var ts := body + [TEof];
    forall i | 0 <= i < |ts| - 1 ensures !ts[i].TEof? {
      assert ts[i] == body[i] && body[i] in body;
    }
  }

  /** An expression before the end mark, whatever stands in front of it. */
  lemma LastExpression(env: Env, front: Tokens, e: Expr)
    requires TEof !in front
    ensures var ts := front + Print(e, 0) + [TEof];
            Closed(ts) && ParseOr(env, ts, |front|) == Done(Denote(env, e), |ts| - 1)
  {
    var ts := front + Print(e, 0) + [TEof];
    TailIsClosed(front, e);
    assert ts[|front|..] == Print(e, 0) + [TEof];
    AtBehind(front, Print(e, 0), [TEof]);
    Reads(env, ts, |front|, e, 0);
  }

  lemma AtBehind(front: Tokens, s: Tokens, back: Tokens)
    ensures At(front + s + back, |front|, s)
    decreases |s|
  {
    if s != [] {
      AtBehind(front + [s[0]], s[1..], back);
      assert front + [s[0]] + s[1..] == front + s;
    }
  }

  /** A parenthesis that is not closed still groups. */
  lemma OpenParenthesis(env: Env, e: Expr)
    ensures var ts := [TLParen] + Print(e, 0) + [TEof];
            Closed(ts) && ParseOr(env, ts, 0) == Done(Denote(env, e), |ts| - 1)
  {
    var ts := [TLParen] + Print(e, 0) + [TEof];
    LastExpression(env, [TLParen], e);
    assert ParsePrimary(env, ts, 0) == Done(Denote(env, e), |ts| - 1);
    Alone(env, ts, 0);
  }

  /** A call that is not closed is made, with what was read as its argument. */
  lemma OpenCall(env: Env, f: string, e: Expr)
    ensures var ts := [TIdent(f), TLParen] + Print(e, 0) + [TEof];
            Closed(ts) && ParseOr(env, ts, 0) == Done(env.call(f, [Denote(env, e)]), |ts| - 1)
    ensures ParseOr(env, [TIdent(f), TLParen, TEof], 0) == Done(env.call(f, []), 2)
  {
    var ts := [TIdent(f), TLParen] + Print(e, 0) + [TEof];
    LastExpression(env, [TIdent(f), TLParen], e);
    FirstToken(e, 0);
    assert ts[2] == Print(e, 0)[0];
    assert [] + [Denote(env, e)] == [Denote(env, e)];
    OneArgument(env, ts, f, Denote(env, e), |ts| - 1);
    Called(env, ts, f);
    var none := [TIdent(f), TLParen, TEof];
    Called(env, none, f);
  }

  lemma OneArgument(env: Env, ts: Tokens, f: string, v: Value, q: nat)
    requires Closed(ts) && 2 < q == |ts| - 1 && ParseOr(env, ts, 2) == Done(v, q) && !ts[2].TRParen?
    ensures Arguments(env, ts, f, [], 2) == Done(env.call(f, [v]), q)
  {
    assert [] + [v] == [v];
    assert Arguments(env, ts, f, [v], q) == Done(env.call(f, [v]), q);
  }

  lemma Called(env: Env, ts: Tokens, f: string)
    requires Closed(ts) && |ts| > 2 && ts[0] == TIdent(f) && ts[1] == TLParen
    requires Arguments(env, ts, f, [], 2).Done? && Arguments(env, ts, f, [], 2).pos == |ts| - 1
    ensures ParseOr(env, ts, 0) == Arguments(env, ts, f, [], 2)
  {
    assert PathEnd(ts, f, 1) == (f, 1);
    assert ParsePrimary(env, ts, 0) == Arguments(env, ts, f, [], 2);
    Alone(env, ts, 0);
  }
}
