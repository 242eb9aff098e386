/**
 Exactly when evaluation ends (src/workflow/ExprEvaluator.cpp).  A dot that belongs to no path is a
 place that no parse passes, and an argument list that meets one never ends; how many argument lists
 are open there depends on what stands before.  So a token list is evaluated to its end inside any
 number of open calls if and only if all its dots are in paths.
 */
module ExprTermination {
  import opened ExprEvaluator
  import opened ExprGrammar

  /** A dot that belongs to no path. */
  predicate StrayAt(ts: Tokens, d: nat) {
    d < |ts| && ts[d].TDot? && !InPath(ts, d)
  }

  /** If the parse ends, it ends at the dot or before it. */
  predicate Stops(out: Out, d: nat) {
    out.Done? ==> out.pos <= d
  }

  // ----- no parse passes a stray dot -------------------------------------------------------------

  lemma {:induction false} PathStops(ts: Tokens, name: string, p: nat, d: nat)
    requires Closed(ts) && StrayAt(ts, d) && 0 < p <= d && InPath(ts, p - 1)
    ensures PathEnd(ts, name, p).1 <= d
    decreases |ts| - p
  {
    if ts[p].TDot? {
      assert InPath(ts, p);
      if ts[p + 1].TIdent? || ts[p + 1].TNum? {
        PathStops(ts, name + "." + ts[p + 1].text, p + 2, d);
      } else {
        PathStops(ts, name, p + 1, d);
      }
    }
  }

  lemma {:induction false} OrStops(env: Env, ts: Tokens, p: nat, d: nat)
    requires Closed(ts) && StrayAt(ts, d) && p <= d
    ensures Stops(ParseOr(env, ts, p), d)
    decreases |ts| - p, 9
  {
    AndStops(env, ts, p, d);
    var left := ParseAnd(env, ts, p);
    if left.Done? {
      OrLoopStops(env, ts, left.value, left.pos, d);
    }
  }

  lemma {:induction false} OrLoopStops(env: Env, ts: Tokens, left: Value, p: nat, d: nat)
    requires Closed(ts) && StrayAt(ts, d) && p <= d
    ensures Stops(OrLoop(env, ts, left, p), d)
    decreases |ts| - p, 8
  {
    if ts[p].TOr? {
      AndStops(env, ts, p + 1, d);
      var right := ParseAnd(env, ts, p + 1);
      if right.Done? {
        OrLoopStops(env, ts, OrElse(left, right.value), right.pos, d);
      }
    }
  }

  lemma {:induction false} AndStops(env: Env, ts: Tokens, p: nat, d: nat)
    requires Closed(ts) && StrayAt(ts, d) && p <= d
    ensures Stops(ParseAnd(env, ts, p), d)
    decreases |ts| - p, 7
  {
    NotStops(env, ts, p, d);
    var left := ParseNot(env, ts, p);
    if left.Done? {
      AndLoopStops(env, ts, left.value, left.pos, d);
    }
  }

  lemma {:induction false} AndLoopStops(env: Env, ts: Tokens, left: Value, p: nat, d: nat)
    requires Closed(ts) && StrayAt(ts, d) && p <= d
    ensures Stops(AndLoop(env, ts, left, p), d)
    decreases |ts| - p, 6
  {
    if ts[p].TAnd? {
      NotStops(env, ts, p + 1, d);
      var right := ParseNot(env, ts, p + 1);
      if right.Done? {
        AndLoopStops(env, ts, AndThen(left, right.value), right.pos, d);
      }
    }
  }

  lemma {:induction false} NotStops(env: Env, ts: Tokens, p: nat, d: nat)
    requires Closed(ts) && StrayAt(ts, d) && p <= d
    ensures Stops(ParseNot(env, ts, p), d)
    decreases |ts| - p, 5
  {
    if ts[p].TNot? {
      NotStops(env, ts, p + 1, d);
    } else {
      ComparisonStops(env, ts, p, d);
    }
  }

  lemma {:induction false} ComparisonStops(env: Env, ts: Tokens, p: nat, d: nat)
    requires Closed(ts) && StrayAt(ts, d) && p <= d
    ensures Stops(ParseComparison(env, ts, p), d)
    decreases |ts| - p, 4
  {
    PrimaryStops(env, ts, p, d);
    var left := ParsePrimary(env, ts, p);
    if left.Done? && ts[left.pos].TCmp? {
      PrimaryStops(env, ts, left.pos + 1, d);
    }
  }

  lemma {:induction false} PrimaryStops(env: Env, ts: Tokens, p: nat, d: nat)
    requires Closed(ts) && StrayAt(ts, d) && p <= d
    ensures Stops(ParsePrimary(env, ts, p), d)
    decreases |ts| - p, 3
  {
    match ts[p]
    case TLParen => OrStops(env, ts, p + 1, d);
    case TIdent(head) =>
      PathStops(ts, head, p + 1, d);
      var q := PathEnd(ts, head, p + 1).1;
      if ts[q].TLParen? {
        ArgumentsStop(env, ts, PathEnd(ts, head, p + 1).0, [], q + 1, d);
      }
    case _ =>
  }

  /** An argument list that ends before the dot ends with a closing parenthesis, behind its first
      argument. */
  predicate Closes(env: Env, ts: Tokens, p: nat, out: Out)
    requires Closed(ts) && p < |ts|
  {
    out.Done? ==>
      && p < out.pos <= |ts| && ts[out.pos - 1].TRParen?
      && (!ts[p].TRParen? ==> ParseOr(env, ts, p).Done? && ParseOr(env, ts, p).pos < out.pos)
  }

  lemma {:induction false} ArgumentsStop(env: Env, ts: Tokens, name: string, args: seq<Value>, p: nat, d: nat)
    requires Closed(ts) && StrayAt(ts, d) && p <= d
    ensures Stops(Arguments(env, ts, name, args, p), d)
    ensures Closes(env, ts, p, Arguments(env, ts, name, args, p))
    decreases |ts| - p, 10
  {
    if !ts[p].TRParen? && !ts[p].TEof? {
      OrStops(env, ts, p, d);
      var arg := ParseOr(env, ts, p);
      if arg.Done? {
        var q := if ts[arg.pos].TComma? then arg.pos + 1 else arg.pos;
        if q != p {
          ArgumentsStop(env, ts, name, args + [arg.value], q, d);
        }
      }
    }
  }

  // ----- open calls ------------------------------------------------------------------------------

  /** The beginnings of n nested calls. */
  function Openings(f: string, n: nat): Tokens {
    if n == 0 then [] else Openings(f, n - 1) + [TIdent(f), TLParen]
  }

  lemma {:induction false} OpeningAt(f: string, n: nat, k: nat)
    requires k < n
    ensures |Openings(f, n)| == 2 * n && Openings(f, n)[2 * k] == TIdent(f) && Openings(f, n)[2 * k + 1] == TLParen
  {
    OpeningsLength(f, n - 1);
    if k < n - 1 {
      OpeningAt(f, n - 1, k);
    }
  }

  lemma {:induction false} OpeningsLength(f: string, n: nat)
    ensures |Openings(f, n)| == 2 * n
  {
    if n > 0 {
      OpeningsLength(f, n - 1);
    }
  }

  lemma {:induction false} OpeningsTokens(f: string, n: nat, i: nat)
    requires i < |Openings(f, n)|
    ensures Openings(f, n)[i] == if i % 2 == 0 then TIdent(f) else TLParen
  {
    OpeningsLength(f, n);
    OpeningAt(f, n, i / 2);
  }

  lemma OpenedIsClosed(f: string, n: nat, ts: Tokens)
    requires Closed(ts)
    ensures Closed(Openings(f, n) + ts)
  {
    var o := Openings(f, n);
    forall i | 0 <= i < |o + ts| - 1 ensures !(o + ts)[i].TEof? {
      if i < |o| {
        OpeningsTokens(f, n, i);
      } else {
        assert (o + ts)[i] == ts[i - |o|];
      }
    }
  }

  /** What stands before an opening parenthesis is no part of a path behind it. */
  lemma {:induction false} PathsStayPaths(f: string, n: nat, ts: Tokens, i: nat)
    requires i < |ts|
    ensures InPath(Openings(f, n) + ts, |Openings(f, n)| + i) <==> InPath(ts, i)
  {
    var o := Openings(f, n);
    var all := o + ts;
    assert all[|o| + i] == ts[i];
    if i > 0 {
      assert all[|o| + i - 1] == ts[i - 1];
      PathsStayPaths(f, n, ts, i - 1);
    } else if n > 0 {
      OpeningsTokens(f, n, |o| - 1);
      OpeningsLength(f, n);
      assert all[|o| - 1] == TLParen;
      assert !InPath(all, |o| - 1);
    }
  }

  lemma OpenedDots(f: string, n: nat, ts: Tokens)
    requires DotsInPaths(ts)
    ensures DotsInPaths(Openings(f, n) + ts)
  {
    var o := Openings(f, n);
    var all := o + ts;
    forall i | 0 <= i < |all| && all[i].TDot? ensures InPath(all, i) {
      if i < |o| {
        OpeningsTokens(f, n, i);
      } else {
        assert all[i] == ts[i - |o|];
        PathsStayPaths(f, n, ts, i - |o|);
      }
    }
  }

  /** How many closing parentheses stand before position p. */
  function Closings(ts: Tokens, p: nat): nat
    requires p <= |ts|
  {
    if p == 0 then 0 else Closings(ts, p - 1) + if ts[p - 1].TRParen? then 1 else 0
  }

  lemma {:induction false} ClosingsGrow(ts: Tokens, p: nat, q: nat)
    requires p <= q <= |ts|
    ensures Closings(ts, p) <= Closings(ts, q)
    ensures p < q && ts[q - 1].TRParen? ==> Closings(ts, p) < Closings(ts, q)
    decreases q
  {
    if p < q {
      ClosingsGrow(ts, p, q - 1);
    }
  }

  lemma {:induction false} FewClosings(f: string, n: nat, ts: Tokens, p: nat)
    requires p <= |Openings(f, n) + ts|
    ensures Closings(Openings(f, n) + ts, p) <= if p <= |Openings(f, n)| then 0 else p - |Openings(f, n)|
    decreases p
  {
    if p > 0 {
      FewClosings(f, n, ts, p - 1);
      if p <= |Openings(f, n)| {
        OpeningsTokens(f, n, p - 1);
      }
    }
  }

  /** What a parse that ends consumes at least: the primary it begins with. */
  lemma PrimaryFirst(env: Env, ts: Tokens, p: nat)
    requires Closed(ts) && p < |ts| && ts[p].TIdent? && ParseOr(env, ts, p).Done?
    ensures ParsePrimary(env, ts, p).Done? && ParsePrimary(env, ts, p).pos <= ParseOr(env, ts, p).pos
  {
    assert ParseAnd(env, ts, p).Done?;
    assert ParseNot(env, ts, p).Done?;
    assert ParseComparison(env, ts, p).Done?;
  }

  lemma CallFirst(env: Env, ts: Tokens, p: nat)
    requires Closed(ts) && p + 2 < |ts| && ts[p].TIdent? && ts[p + 1].TLParen? && ParseOr(env, ts, p).Done?
    ensures var out := Arguments(env, ts, ts[p].text, [], p + 2);
            out.Done? && out.pos <= ParseOr(env, ts, p).pos
  {
    PrimaryFirst(env, ts, p);
    assert PathEnd(ts, ts[p].text, p + 1) == (ts[p].text, p + 1);
  }

  /** The k-th opening of a call. */
  predicate CallAt(ts: Tokens, k: nat) {
    2 * k + 1 < |ts| && ts[2 * k].TIdent? && ts[2 * k + 1].TLParen?
  }

  lemma OpenedCalls(f: string, n: nat, ts: Tokens)
    ensures forall k: nat :: k < n ==> CallAt(Openings(f, n) + ts, k)
  {
    forall k: nat | k < n ensures CallAt(Openings(f, n) + ts, k) {
      OpeningAt(f, n, k);
    }
  }

  lemma OpenedStray(f: string, n: nat, ts: Tokens, d: nat)
    requires StrayAt(ts, d)
    ensures StrayAt(Openings(f, n) + ts, 2 * n + d)
  {
    OpeningsLength(f, n);
    PathsStayPaths(f, n, ts, d);
  }

  /** The innermost m of n open calls, before a stray dot: each that ends has found its own closing
      parenthesis. */
  lemma {:induction false} CallsNeedClosings(env: Env, ts: Tokens, n: nat, d: nat, m: nat)
    requires Closed(ts) && StrayAt(ts, d) && 2 * n <= d && 0 < m <= n
    requires forall k: nat :: k < n ==> CallAt(ts, k)
    requires ParseOr(env, ts, 2 * (n - m)).Done?
    ensures Closings(ts, ParseOr(env, ts, 2 * (n - m)).pos) >= m
    decreases m
  {
    var p := 2 * (n - m);
    assert CallAt(ts, n - m);
    CallFirst(env, ts, p);
    var out := Arguments(env, ts, ts[p].text, [], p + 2);
    ArgumentsStop(env, ts, ts[p].text, [], p + 2, d);
    if m > 1 {
      assert CallAt(ts, n - m + 1);
      CallsNeedClosings(env, ts, n, d, m - 1);
      ClosingsGrow(ts, ParseOr(env, ts, p + 2).pos, out.pos);
    } else {
      ClosingsGrow(ts, p + 2, out.pos);
    }
    ClosingsGrow(ts, out.pos, ParseOr(env, ts, p).pos);
  }

  /** Behind more open calls than there are tokens before it, a stray dot makes evaluation loop. */
  lemma StrayDotTraps(env: Env, f: string, ts: Tokens, d: nat)
    requires Closed(ts) && StrayAt(ts, d)
    ensures Closed(Openings(f, d + 1) + ts) && ParseOr(env, Openings(f, d + 1) + ts, 0).Loops?
  {
    var n := d + 1;
    var all := Openings(f, n) + ts;
    OpenedIsClosed(f, n, ts);
    OpeningsLength(f, n);
    if ParseOr(env, all, 0).Done? {
      OpenedStray(f, n, ts, d);
      OrStops(env, all, 0, 2 * n + d);
      OpenedCalls(f, n, ts);
      CallsNeedClosings(env, all, n, 2 * n + d, n);
      var end := ParseOr(env, all, 0).pos;
      FewClosings(f, n, ts, end);
    }
  }

  /** A token list is evaluated to the end inside any number of open calls if and only if its dots
      occur only inside paths. */
  lemma EvaluationEndsIff(env: Env, f: string, ts: Tokens)
    requires Closed(ts)
    ensures (forall n: nat :: Closed(Openings(f, n) + ts) && ParseOr(env, Openings(f, n) + ts, 0).Done?) <==> DotsInPaths(ts)
  {
    if DotsInPaths(ts) {
      forall n: nat ensures Closed(Openings(f, n) + ts) && ParseOr(env, Openings(f, n) + ts, 0).Done? {
        OpenedIsClosed(f, n, ts);
        OpenedDots(f, n, ts);
        EvaluationTerminates(env, Openings(f, n) + ts);
      }
    } else {
      var d :| 0 <= d < |ts| && ts[d].TDot? && !InPath(ts, d);
      StrayDotTraps(env, f, ts, d);
      assert !ParseOr(env, Openings(f, d + 1) + ts, 0).Done?;
    }
  }

  /** A stray dot alone is not enough: in f((a 'x') .) the inner parenthesis ends the outer call first. */
  lemma DotCanBeOutOfReach(env: Env, f: string, a: string, x: string)
    ensures var ts := [TIdent(f), TLParen, TLParen, TIdent(a), TStr(x), TRParen, TDot, TRParen, TEof];
            StrayAt(ts, 6) && ParseOr(env, ts, 0).Done?
  {
    var ts := [TIdent(f), TLParen, TLParen, TIdent(a), TStr(x), TRParen, TDot, TRParen, TEof];
    Alone(env, ts, 3);
    assert PathEnd(ts, a, 4) == (a, 4);
    assert ParsePrimary(env, ts, 2) == Done(env.lookup(a), 4);
    Alone(env, ts, 2);
    Alone(env, ts, 4);
    assert Arguments(env, ts, f, [env.lookup(a), Str(x)], 5).Done?;
    assert [env.lookup(a)] + [Str(x)] == [env.lookup(a), Str(x)];
    assert Arguments(env, ts, f, [env.lookup(a)], 4).Done?;
    assert [] + [env.lookup(a)] == [env.lookup(a)];
    assert Arguments(env, ts, f, [], 2).Done?;
    assert PathEnd(ts, f, 1) == (f, 1);
    Alone(env, ts, 0);
  }

  /** A primary that no operator follows is the whole expression. */
  lemma Alone(env: Env, ts: Tokens, p: nat)
    requires Closed(ts) && p < |ts| && !ts[p].TNot? && ParsePrimary(env, ts, p).Done?
    requires var t := ts[ParsePrimary(env, ts, p).pos]; !t.TCmp? && !t.TAnd? && !t.TOr?
    ensures ParseOr(env, ts, p) == ParsePrimary(env, ts, p)
  {
    assert ParseComparison(env, ts, p) == ParsePrimary(env, ts, p);
    assert ParseNot(env, ts, p) == ParsePrimary(env, ts, p);
    assert ParseAnd(env, ts, p) == ParsePrimary(env, ts, p);
  }
}
