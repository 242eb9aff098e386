/**
 A file that grows step by step and is read as a whole after every step, each reading laid over what
 the earlier ones gave (src/process/EnvManager.cpp, applyEnvChanges), whatever reads it.
 */
module Accumulation {

  import opened Sequences

  type Env = map<string, string>

  /** After each step's text the whole file is read again over the overrides. */
  function Accumulate(parse: string -> Env, overrides: Env, content: string, texts: seq<string>): Env
    decreases |texts|
  {
    if texts == [] then overrides
    else Accumulate(parse, overrides + parse(content + texts[0]), content + texts[0], texts[1..])
  }

  function Concat(texts: seq<string>): string {
    if texts == [] then "" else texts[0] + Concat(texts[1..])
  }

  /** What is read after the i-th step. */
  function Reading(parse: string -> Env, content: string, texts: seq<string>, i: nat): Env
    requires i <= |texts|
  {
    parse(content + Concat(texts[..i]))
  }

  /** No reading has a key that the last one lacks. */
  ghost predicate NoneLost(parse: string -> Env, content: string, texts: seq<string>, last: Env) {
    forall i | 1 <= i <= |texts| :: Reading(parse, content, texts, i).Keys <= last.Keys
  }

  lemma Plain(s: string)
    ensures "" + s == s && s + "" == s
  {
  }

  lemma AccumulateFirst(parse: string -> Env, overrides: Env, content: string, texts: seq<string>)
    requires texts != []
    ensures Accumulate(parse, overrides, content, texts) ==
            Accumulate(parse, overrides + parse(content + texts[0]), content + texts[0], texts[1..])
    ensures content + Concat(texts) == (content + texts[0]) + Concat(texts[1..])
  {
    Regroup(content, texts[0], Concat(texts[1..]));
  }

  lemma ConcatFirst(texts: seq<string>, i: nat)
    requires 1 <= i <= |texts|
    ensures Concat(texts[..i]) == texts[0] + Concat(texts[1..][..i - 1])
  {
    assert texts[..i][1..] == texts[1..][..i - 1];
  }

  lemma {:induction false} ConcatMore(texts: seq<string>, more: string)
    ensures Concat(texts + [more]) == Concat(texts) + more
  {
    var all := texts + [more];
    if texts == [] {
      assert all == [more] && all[1..] == [];
      Plain(more);
    } else {
      assert all[1..] == texts[1..] + [more];
      ConcatMore(texts[1..], more);
      Regroup(texts[0], Concat(texts[1..]), more);
    }
  }

  lemma LaterReading(parse: string -> Env, content: string, texts: seq<string>, i: nat)
    requires 1 <= i <= |texts|
    ensures Reading(parse, content, texts, i) == Reading(parse, content + texts[0], texts[1..], i - 1)
  {
    ConcatFirst(texts, i);
    Regroup(content, texts[0], Concat(texts[1..][..i - 1]));
  }

  lemma FirstReading(parse: string -> Env, content: string, texts: seq<string>)
    requires texts != []
    ensures Reading(parse, content, texts, 1) == parse(content + texts[0])
  {
    var one := texts[..1];
    assert one == [texts[0]] && one[1..] == [];
    assert Concat(one) == texts[0] + Concat(one[1..]);
    Plain(texts[0]);
  }

  lemma LastReading(parse: string -> Env, content: string, texts: seq<string>)
    ensures Reading(parse, content, texts, |texts|) == parse(content + Concat(texts))
  {
    assert texts[..|texts|] == texts;
  }

  lemma SameReading(parse: string -> Env, content: string, texts: seq<string>, more: string, i: nat)
    requires i <= |texts|
    ensures Reading(parse, content, texts + [more], i) == Reading(parse, content, texts, i)
  {
    assert (texts + [more])[..i] == texts[..i];
  }

  lemma OneMoreReading(parse: string -> Env, content: string, texts: seq<string>, more: string)
    ensures Reading(parse, content, texts + [more], |texts| + 1) == parse(content + Concat(texts) + more)
  {
    LastReading(parse, content, texts + [more]);
    ConcatMore(texts, more);
    Regroup(content, Concat(texts), more);
  }

  lemma {:induction false} OverridesStay(parse: string -> Env, overrides: Env, content: string, texts: seq<string>)
    ensures overrides.Keys <= Accumulate(parse, overrides, content, texts).Keys
    decreases |texts|
  {
    if texts != [] {
      OverridesStay(parse, overrides + parse(content + texts[0]), content + texts[0], texts[1..]);
    }
  }

  /** No reading is forgotten. */
  lemma {:induction false} ReadingsStay(parse: string -> Env, overrides: Env, content: string, texts: seq<string>, i: nat)
    requires 1 <= i <= |texts|
    ensures Reading(parse, content, texts, i).Keys <= Accumulate(parse, overrides, content, texts).Keys
    decreases |texts|
  {
    var first, next := parse(content + texts[0]), content + texts[0];
    if i == 1 {
      FirstReading(parse, content, texts);
      OverridesStay(parse, overrides + first, next, texts[1..]);
    } else {
      LaterReading(parse, content, texts, i);
      ReadingsStay(parse, overrides + first, next, texts[1..], i - 1);
    }
  }

  lemma OverlaidTwice(a: Env, b: Env, c: Env)
    requires b.Keys <= c.Keys
    ensures a + b + c == a + c
  {
  }

  lemma LaterNoneLost(parse: string -> Env, content: string, texts: seq<string>, last: Env)
    requires texts != [] && NoneLost(parse, content, texts, last)
    ensures NoneLost(parse, content + texts[0], texts[1..], last) && parse(content + texts[0]).Keys <= last.Keys
  {
    forall i | 1 <= i <= |texts[1..]| ensures Reading(parse, content + texts[0], texts[1..], i).Keys <= last.Keys {
      LaterReading(parse, content, texts, i + 1);
    }
    FirstReading(parse, content, texts);
    assert Reading(parse, content, texts, 1).Keys <= last.Keys;
  }

  lemma {:induction false} NoneLostAddsUp(parse: string -> Env, overrides: Env, content: string, texts: seq<string>)
    requires texts != [] && NoneLost(parse, content, texts, parse(content + Concat(texts)))
    ensures Accumulate(parse, overrides, content, texts) == overrides + parse(content + Concat(texts))
    decreases |texts|
  {
    var first, next, last := parse(content + texts[0]), content + texts[0], parse(content + Concat(texts));
    AccumulateFirst(parse, overrides, content, texts);
    LaterNoneLost(parse, content, texts, last);
    if |texts| == 1 {
      Plain(next);
    } else {
      NoneLostAddsUp(parse, overrides + first, next, texts[1..]);
      OverlaidTwice(overrides, first, last);
    }
  }

  /** For a run of steps: reading after each of them equals one reading at the end, over any overrides, if
      and only if no reading had a key that the final file lacks. */
  lemma AddsUpIff(parse: string -> Env, content: string, texts: seq<string>)
    requires texts != []
    ensures (forall overrides: Env :: Accumulate(parse, overrides, content, texts) == overrides + parse(content + Concat(texts)))
       <==> NoneLost(parse, content, texts, parse(content + Concat(texts)))
  {
    var last := parse(content + Concat(texts));
    if NoneLost(parse, content, texts, last) {
      forall overrides: Env ensures Accumulate(parse, overrides, content, texts) == overrides + last {
        NoneLostAddsUp(parse, overrides, content, texts);
      }
    } else {
      var i :| 1 <= i <= |texts| && !(Reading(parse, content, texts, i).Keys <= last.Keys);
      var none: Env := map[];
      ReadingsStay(parse, none, content, texts, i);
      assert (none + last).Keys == last.Keys;
      assert Accumulate(parse, none, content, texts) != none + last;
    }
  }

  lemma MoreReadings(parse: string -> Env, content: string, texts: seq<string>, more: string, last: Env)
    requires NoneLost(parse, content, texts, last) && parse(content + Concat(texts) + more).Keys <= last.Keys
    ensures NoneLost(parse, content, texts + [more], last)
  {
    forall i | 1 <= i <= |texts + [more]| ensures Reading(parse, content, texts + [more], i).Keys <= last.Keys {
      if i <= |texts| {
        SameReading(parse, content, texts, more, i);
      } else {
        OneMoreReading(parse, content, texts, more);
      }
    }
  }

  /** The file after the steps keeps its keys whatever is appended to it. */
  ghost predicate Safe(parse: string -> Env, full: string) {
    forall more: string :: parse(full).Keys <= parse(full + more).Keys
  }

  lemma ContinuesWell(parse: string -> Env, overrides: Env, content: string, texts: seq<string>, more: string)
    requires parse(content + Concat(texts)).Keys <= parse(content + Concat(texts) + more).Keys
    requires NoneLost(parse, content, texts, parse(content + Concat(texts)))
    ensures Accumulate(parse, overrides, content, texts + [more]) == overrides + parse(content + Concat(texts) + more)
  {
    var full := content + Concat(texts);
    var last := parse(full + more);
    forall i | 1 <= i <= |texts| ensures Reading(parse, content, texts, i).Keys <= last.Keys {
      assert Reading(parse, content, texts, i).Keys <= parse(full).Keys;
    }
    MoreReadings(parse, content, texts, more, last);
    ConcatMore(texts, more);
    Regroup(content, Concat(texts), more);
    NoneLostAddsUp(parse, overrides, content, texts + [more]);
  }

  /** A reading with a key that the final file lacks shows. */
  lemma LossShows(parse: string -> Env, content: string, texts: seq<string>, more: string, i: nat)
    requires 1 <= i <= |texts| && !(Reading(parse, content, texts, i).Keys <= parse(content + Concat(texts) + more).Keys)
    ensures Accumulate(parse, map[], content, texts + [more]) != map[] + parse(content + Concat(texts) + more)
  {
    var none: Env, last := map[], parse(content + Concat(texts) + more);
    SameReading(parse, content, texts, more, i);
    ReadingsStay(parse, none, content, texts + [more], i);
    assert (none + last).Keys == last.Keys;
  }

  /** For a run of steps and whatever comes next: reading after each step adds up to one reading, over any
      overrides and for all next texts, if and only if the file keeps its keys whatever is appended and no
      reading so far had a key that it lacks. */
  lemma ContinuesIff(parse: string -> Env, content: string, texts: seq<string>)
    requires texts != []
    ensures (forall overrides: Env, more: string ::
               Accumulate(parse, overrides, content, texts + [more]) == overrides + parse(content + Concat(texts) + more))
       <==> Safe(parse, content + Concat(texts)) && NoneLost(parse, content, texts, parse(content + Concat(texts)))
  {
    var full := content + Concat(texts);
    if Safe(parse, full) && NoneLost(parse, content, texts, parse(full)) {
      forall overrides: Env, more: string
        ensures Accumulate(parse, overrides, content, texts + [more]) == overrides + parse(full + more)
      {
        ContinuesWell(parse, overrides, content, texts, more);
      }
    } else if !Safe(parse, full) {
      var more: string :| !(parse(full).Keys <= parse(full + more).Keys);
      LastReading(parse, content, texts);
      LossShows(parse, content, texts, more, |texts|);
    } else {
      var i :| 1 <= i <= |texts| && !(Reading(parse, content, texts, i).Keys <= parse(full).Keys);
      Plain(full);
      LossShows(parse, content, texts, "", i);
    }
  }
}
