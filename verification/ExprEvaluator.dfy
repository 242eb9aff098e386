/**
 The expression language of workflows: its values, and the recursive-descent parser that evaluates
 while it parses.

 Numbers are reals with the infinities and NaN; the conversion of a string to a number, the lookup of
 a context path and the built-in functions are arbitrary functions of their arguments.
 */
module ExprEvaluator {

  // ----- values ----------------------------------------------------------------------------------

  datatype Number = NaN | NegInf | Fin(r: real) | PosInf

  predicate NumEq(a: Number, b: Number) { a != NaN && a == b }

  predicate NumLt(a: Number, b: Number) {
    match (a, b)
    case (Fin(x), Fin(y)) => x < y
    case (NegInf, Fin(_)) => true
    case (NegInf, PosInf) => true
    case (Fin(_), PosInf) => true
    case _ => false
  }

  datatype Value = Null | Bool(b: bool) | Num(n: Number) | Str(s: string)

  /** Everything the evaluator takes from outside. */
  datatype Env = Env(
    toNumber: string -> Number,
    lookup: string -> Value,
    call: (string, seq<Value>) -> Value)

  predicate Truthy(v: Value) {
    match v
    case Null => false
    case Bool(b) => b
    case Num(n) => n != Fin(0.0) && n != NaN
    case Str(s) => s != ""
  }

  function ToNumber(env: Env, v: Value): Number {
    match v
    case Null => Fin(0.0)
    case Bool(b) => if b then Fin(1.0) else Fin(0.0)
    case Num(n) => n
    case Str(s) => env.toNumber(s)
  }

  function LowerChar(c: char): char {
    if 'A' <= c <= 'Z' then (c as int + 32) as char else c
  }

  function Lower(s: string): string {
    seq(|s|, i requires 0 <= i < |s| => LowerChar(s[i]))
  }

  /** The loose comparison: null becomes the zero of the other type, then booleans, then numbers, then
      strings without regard to case. */
  predicate LooseEq(env: Env, a: Value, b: Value) {
    if a.Null? && b.Null? then true
    else if a.Null? then EqualsNull(b)
    else if b.Null? then EqualsNull(a)
    else if a.Bool? || b.Bool? then Truthy(a) == Truthy(b)
    else if a.Num? || b.Num? then NumEq(ToNumber(env, a), ToNumber(env, b))
    else Lower(a.s) == Lower(b.s)
  }

  predicate EqualsNull(v: Value) {
    match v
    case Null => true
    case Bool(b) => !b
    case Num(n) => n == Fin(0.0)
    case Str(s) => s == ""
  }

  datatype CmpOp = Eq | Neq | Lt | Lte | Gt | Gte

  function Compare(env: Env, op: CmpOp, a: Value, b: Value): Value {
    var x, y := ToNumber(env, a), ToNumber(env, b);
    Bool(match op
         case Eq => LooseEq(env, a, b)
         case Neq => !LooseEq(env, a, b)
         case Lt => NumLt(x, y)
         case Lte => NumLt(x, y) || NumEq(x, y)
         case Gt => NumLt(y, x)
         case Gte => NumLt(y, x) || NumEq(x, y))
  }

  function OrElse(a: Value, b: Value): Value { if Truthy(a) then a else b }

  function AndThen(a: Value, b: Value): Value { if !Truthy(a) then a else b }

  /** Loose equality is symmetric, and reflexive except for NaN. */
  lemma LooseEqLaws(env: Env, a: Value, b: Value)
    ensures LooseEq(env, a, b) == LooseEq(env, b, a)
    ensures LooseEq(env, a, a) <==> a != Num(NaN)
  {
  }

  /** It is not transitive: true equals any text, and no two different texts are equal. */
  lemma LooseEqIsNotTransitive(env: Env)
    ensures LooseEq(env, Str("a"), Bool(true)) && LooseEq(env, Bool(true), Str("b")) && !LooseEq(env, Str("a"), Str("b"))
  {
    assert Lower("a")[0] != Lower("b")[0];
  }

  // ----- tokens and the parser -------------------------------------------------------------------

  datatype Token =
    | TStr(text: string) | TNum(text: string, num: Number) | TBool(b: bool) | TNull
    | TIdent(text: string)
    | TAnd | TOr | TNot | TCmp(op: CmpOp)
    | TLParen | TRParen | TComma | TDot
    | TEof

  type Tokens = seq<Token>

  /** What the tokenizer delivers: one end mark, at the end. */
  predicate Closed(ts: Tokens) {
    && ts != [] && ts[|ts| - 1].TEof?
    && (forall i :: 0 <= i < |ts| - 1 ==> !ts[i].TEof?)
  }

  /** A parse ends with a value and a cursor, or the argument loop stands still for ever. */
  datatype Out = Done(value: Value, pos: nat) | Loops

  /** The cursor never moves back and never passes the end mark. */
  predicate Onward(ts: Tokens, p: nat, out: Out) {
    out.Done? ==> p <= out.pos < |ts|
  }

  /** The rest of a dotted path whose name so far is given. */
  function PathEnd(ts: Tokens, name: string, p: nat): (r: (string, nat))
    requires Closed(ts) && p < |ts|
    ensures p <= r.1 < |ts|
    decreases |ts| - p
  {
    if !ts[p].TDot? then (name, p)
    else if ts[p + 1].TIdent? || ts[p + 1].TNum? then PathEnd(ts, name + "." + ts[p + 1].text, p + 2)
    else PathEnd(ts, name, p + 1)
  }

  function ParseOr(env: Env, ts: Tokens, p: nat): (out: Out)
    requires Closed(ts) && p < |ts|
    ensures Onward(ts, p, out)
    decreases |ts| - p, 9
  {
    var left := ParseAnd(env, ts, p);
    if left.Loops? then Loops else OrLoop(env, ts, left.value, left.pos)
  }

  function OrLoop(env: Env, ts: Tokens, left: Value, p: nat): (out: Out)
    requires Closed(ts) && p < |ts|
    ensures Onward(ts, p, out)
    decreases |ts| - p, 8
  {
    if !ts[p].TOr? then Done(left, p)
    else
      var right := ParseAnd(env, ts, p + 1);
      if right.Loops? then Loops else OrLoop(env, ts, OrElse(left, right.value), right.pos)
  }

  function ParseAnd(env: Env, ts: Tokens, p: nat): (out: Out)
    requires Closed(ts) && p < |ts|
    ensures Onward(ts, p, out)
    decreases |ts| - p, 7
  {
    var left := ParseNot(env, ts, p);
    if left.Loops? then Loops else AndLoop(env, ts, left.value, left.pos)
  }

  function AndLoop(env: Env, ts: Tokens, left: Value, p: nat): (out: Out)
    requires Closed(ts) && p < |ts|
    ensures Onward(ts, p, out)
    decreases |ts| - p, 6
  {
    if !ts[p].TAnd? then Done(left, p)
    else
      var right := ParseNot(env, ts, p + 1);
      if right.Loops? then Loops else AndLoop(env, ts, AndThen(left, right.value), right.pos)
  }

  function ParseNot(env: Env, ts: Tokens, p: nat): (out: Out)
    requires Closed(ts) && p < |ts|
    ensures Onward(ts, p, out)
    decreases |ts| - p, 5
  {
    if ts[p].TNot? then
      var v := ParseNot(env, ts, p + 1);
      if v.Loops? then Loops else Done(Bool(!Truthy(v.value)), v.pos)
    else ParseComparison(env, ts, p)
  }

  function ParseComparison(env: Env, ts: Tokens, p: nat): (out: Out)
    requires Closed(ts) && p < |ts|
    ensures Onward(ts, p, out)
    decreases |ts| - p, 4
  {
    var left := ParsePrimary(env, ts, p);
    if left.Loops? then Loops
    else if ts[left.pos].TCmp? then
      var right := ParsePrimary(env, ts, left.pos + 1);
      if right.Loops? then Loops
      else Done(Compare(env, ts[left.pos].op, left.value, right.value), right.pos)
    else left
  }

  function ParsePrimary(env: Env, ts: Tokens, p: nat): (out: Out)
    requires Closed(ts) && p < |ts|
    ensures Onward(ts, p, out)
    decreases |ts| - p, 3
  {
    match ts[p]
    case TLParen =>
      var v := ParseOr(env, ts, p + 1);
      if v.Loops? then Loops
      else if ts[v.pos].TRParen? then Done(v.value, v.pos + 1)
      else v
    case TStr(s) => Done(Str(s), p + 1)
    case TNum(_, n) => Done(Num(n), p + 1)
    case TBool(b) => Done(Bool(b), p + 1)
    case TNull => Done(Null, p + 1)
    case TIdent(head) =>
      var (name, q) := PathEnd(ts, head, p + 1);
      if ts[q].TLParen? then Arguments(env, ts, name, [], q + 1)
      else Done(env.lookup(name), q)
    case _ => Done(Null, p)
  }

  /** The argument loop of a call, and the call. */
  function Arguments(env: Env, ts: Tokens, name: string, args: seq<Value>, p: nat): (out: Out)
    requires Closed(ts) && p < |ts|
    ensures Onward(ts, p, out)
    decreases |ts| - p, 10
  {
    if ts[p].TRParen? then Done(env.call(name, args), p + 1)
    else if ts[p].TEof? then Done(env.call(name, args), p)
    else
      var arg := ParseOr(env, ts, p);
      if arg.Loops? then Loops
      else
        var q := if ts[arg.pos].TComma? then arg.pos + 1 else arg.pos;
        if q == p then Loops else Arguments(env, ts, name, args + [arg.value], q)
  }

  // ----- the parser object -----------------------------------------------------------------------

  /** The parser as the source has it: one cursor that every method advances. */
  class Parser {
    const env: Env
    const ts: Tokens
    var pos: nat

    ghost predicate Valid()
      reads this
    {
      Closed(ts) && pos < |ts|
    }

    constructor (env: Env, ts: Tokens)
      requires Closed(ts)
      ensures Valid() && this.env == env && this.ts == ts && pos == 0
    {
      this.env, this.ts, this.pos := env, ts, 0;
    }

    method Or() returns (left: Value)
      requires Valid() && ParseOr(env, ts, pos).Done?
      modifies this
      ensures Valid() && Done(left, pos) == ParseOr(env, ts, old(pos))
      decreases |ts| - pos, 9
    {
      left := And();
      while ts[pos].TOr?
        invariant Valid() && old(pos) <= pos
        invariant OrLoop(env, ts, left, pos) == ParseOr(env, ts, old(pos))
        decreases |ts| - pos
      {
        pos := pos + 1;
        var right := And();
        left := if Truthy(left) then left else right;
      }
    }

    method And() returns (left: Value)
      requires Valid() && ParseAnd(env, ts, pos).Done?
      modifies this
      ensures Valid() && Done(left, pos) == ParseAnd(env, ts, old(pos))
      decreases |ts| - pos, 7
    {
      left := Not();
      while ts[pos].TAnd?
        invariant Valid() && old(pos) <= pos
        invariant AndLoop(env, ts, left, pos) == ParseAnd(env, ts, old(pos))
        decreases |ts| - pos
      {
        pos := pos + 1;
        var right := Not();
        left := if !Truthy(left) then left else right;
      }
    }

    method Not() returns (v: Value)
      requires Valid() && ParseNot(env, ts, pos).Done?
      modifies this
      ensures Valid() && Done(v, pos) == ParseNot(env, ts, old(pos))
      decreases |ts| - pos, 5
    {
      if ts[pos].TNot? {
        pos := pos + 1;
        v := Not();
        v := Bool(!Truthy(v));
      } else {
        v := Comparison();
      }
    }

    method Comparison() returns (left: Value)
      requires Valid() && ParseComparison(env, ts, pos).Done?
      modifies this
      ensures Valid() && Done(left, pos) == ParseComparison(env, ts, old(pos))
      decreases |ts| - pos, 4
    {
      left := Primary();
      if ts[pos].TCmp? {
        var op := ts[pos].op;
        pos := pos + 1;
        var right := Primary();
        left := Compare(env, op, left, right);
      }
    }

    method Primary() returns (v: Value)
      requires Valid() && ParsePrimary(env, ts, pos).Done?
      modifies this
      ensures Valid() && Done(v, pos) == ParsePrimary(env, ts, old(pos))
      decreases |ts| - pos, 3
    {
      match ts[pos]
      case TLParen =>
        pos := pos + 1;
        v := Or();
        if ts[pos].TRParen? {
          pos := pos + 1;
        }
      case TStr(s) => v, pos := Str(s), pos + 1;
      case TNum(_, n) => v, pos := Num(n), pos + 1;
      case TBool(b) => v, pos := Bool(b), pos + 1;
      case TNull => v, pos := Null, pos + 1;
      case TIdent(head) => v := PathOrCall(head);
      case _ => v := Null;
    }

    method PathOrCall(head: string) returns (v: Value)
      requires Valid() && ts[pos] == TIdent(head) && ParsePrimary(env, ts, pos).Done?
      modifies this
      ensures Valid() && Done(v, pos) == ParsePrimary(env, ts, old(pos))
      decreases |ts| - pos, 2
    {
      var name := head;
      pos := pos + 1;
      while ts[pos].TDot?
        invariant Valid() && old(pos) < pos
        invariant PathEnd(ts, name, pos) == PathEnd(ts, head, old(pos) + 1)
        decreases |ts| - pos
      {
        pos := pos + 1;
        if ts[pos].TIdent? || ts[pos].TNum? {
          name := name + "." + ts[pos].text;
          pos := pos + 1;
        }
      }
      if ts[pos].TLParen? {
        v := Call(name);
      } else {
        v := env.lookup(name);
      }
    }

    method Call(name: string) returns (v: Value)
      requires Valid() && ts[pos].TLParen? && Arguments(env, ts, name, [], pos + 1).Done?
      modifies this
      ensures Valid() && Done(v, pos) == Arguments(env, ts, name, [], old(pos) + 1)
      decreases |ts| - pos, 11
    {
      pos := pos + 1;
      var args := [];
      while !ts[pos].TRParen? && !ts[pos].TEof?
        invariant Valid() && old(pos) < pos
        invariant Arguments(env, ts, name, args, pos) == Arguments(env, ts, name, [], old(pos) + 1)
        decreases |ts| - pos
      {
        var arg := Or();
        args := args + [arg];
        if ts[pos].TComma? {
          pos := pos + 1;
        }
      }
      if ts[pos].TRParen? {
        pos := pos + 1;
      }
      v := env.call(name, args);
    }
  }
}
