/**
 Secret masking: every occurrence of a registered secret in a log line becomes three stars.
 */
module Masking {

  const STARS := "***"

  predicate OccursAt(line: string, pat: string, k: nat) {
    k + |pat| <= |line| && forall i :: 0 <= i < |pat| ==> line[k + i] == pat[i]
  }

  ghost predicate Contains(line: string, pat: string) {
    exists k: nat :: OccursAt(line, pat, k)
  }

  /** The first occurrence of pat at or after pos, or -1 when there is none. */
  function Find(line: string, pat: string, pos: nat): (r: int)
    ensures r == -1 || (pos <= r && OccursAt(line, pat, r))
    ensures forall k: nat :: pos <= k && (r == -1 || k < r) ==> !OccursAt(line, pat, k)
    decreases |line| - pos
  {
    if pos + |pat| > |line| then -1
    else if OccursAt(line, pat, pos) then pos
    else Find(line, pat, pos + 1)
  }

  /** The pieces of a line between the occurrences of a secret, found from left to right. */
  function Split(line: string, secret: string): (segs: seq<string>)
    requires secret != ""
    ensures segs != []
    decreases |line|
  {
    var k := Find(line, secret, 0);
    if k < 0 then [line] else [line[..k]] + Split(line[k + |secret|..], secret)
  }

  function Join(segs: seq<string>, sep: string): string
    requires segs != []
  {
    if |segs| == 1 then segs[0] else segs[0] + sep + Join(segs[1..], sep)
  }

  /** A line with one secret masked: the pieces between its occurrences, joined by stars. */
  function MaskOne(line: string, secret: string): string
    requires secret != ""
  {
    Join(Split(line, secret), STARS)
  }

  function MaskAll(secrets: seq<string>, line: string): string
    requires "" !in secrets
  {
    if secrets == [] then line
    else MaskOne(MaskAll(secrets[..|secrets| - 1], line), secrets[|secrets| - 1])
  }

  // ----- the loops of the source -----------------------------------------------------------------

  lemma FindInSuffix(line: string, pat: string, pos: nat)
    requires pos <= |line|
    ensures var k, j := Find(line, pat, pos), Find(line[pos..], pat, 0);
            (k < 0 <==> j < 0) && (k >= 0 ==> j == k - pos)
  {
    var k, j := Find(line, pat, pos), Find(line[pos..], pat, 0);
    assert k >= 0 ==> OccursAt(line[pos..], pat, k - pos);
    assert j >= 0 ==> OccursAt(line, pat, pos + j);
  }

  /** One secret, masked in place: the loop edits the line and moves past the stars it wrote. */
  method MaskInPlace(original: string, secret: string) returns (line: string)
    requires secret != ""
    ensures line == MaskOne(original, secret)
  {
    line := original;
    var pos := 0;
    assert original[0..] == original;
    var k := Find(line, secret, pos);
    while k != -1
      invariant 0 <= pos <= |line|
      invariant k == Find(line, secret, pos)
      invariant MaskOne(original, secret) == line[..pos] + MaskOne(line[pos..], secret)
      decreases |line| - pos
    {
      FindInSuffix(line, secret, pos);
      Cut(line, secret, pos, k);
      MaskStep(line[..pos], line[pos..k], secret, line[k + |secret|..]);
      Paste(line[..k], line[k + |secret|..]);
      line := line[..k] + STARS + line[k + |secret|..];
      pos := k + |STARS|;
      k := Find(line, secret, pos);
    }
    FindInSuffix(line, secret, pos);
    assert line == line[..pos] + line[pos..];
  }

  lemma Cut(line: string, pat: string, pos: nat, k: nat)
    requires pos <= k && OccursAt(line, pat, k)
    ensures line[pos..] == line[pos..k] + pat + line[k + |pat|..]
    ensures line[..k] == line[..pos] + line[pos..k]
  {
    assert line[k..k + |pat|] == pat;
  }

  lemma Paste(a: string, b: string)
    ensures (a + STARS + b)[..|a| + |STARS|] == a + STARS
    ensures (a + STARS + b)[|a| + |STARS|..] == b
  {
  }

  lemma MaskUnfold(line: string, secret: string, k: nat)
    requires secret != "" && k == Find(line, secret, 0)
    ensures MaskOne(line, secret) == line[..k] + STARS + MaskOne(line[k + |secret|..], secret)
  {
    var rest := Split(line[k + |secret|..], secret);
    assert ([line[..k]] + rest)[1..] == rest;
  }

  lemma MaskStep(head: string, mid: string, secret: string, tail: string)
    requires secret != "" && Find(mid + secret + tail, secret, 0) == |mid|
    ensures head + MaskOne(mid + secret + tail, secret) == head + mid + STARS + MaskOne(tail, secret)
  {
    var rest := mid + secret + tail;
    assert rest[..|mid|] == mid && rest[|mid| + |secret|..] == tail;
    MaskUnfold(rest, secret, |mid|);
    assert head + (mid + STARS + MaskOne(tail, secret)) == head + mid + STARS + MaskOne(tail, secret);
  }

  /** Every registered secret in turn.  Secrets are non-empty: an empty one is never registered, and
      searching for it would not terminate. */
  method MaskSecrets(original: string, secrets: seq<string>) returns (line: string)
    requires "" !in secrets
    ensures line == MaskAll(secrets, original)
  {
    line := original;
    for i := 0 to |secrets|
      invariant line == MaskAll(secrets[..i], original)
    {
      assert secrets[..i + 1][..i] == secrets[..i];
      line := MaskInPlace(line, secrets[i]);
    }
    assert secrets[..|secrets|] == secrets;
  }

  // ----- what masking does -----------------------------------------------------------------------

  /** Putting the secret back between the pieces gives the line again, and no piece contains it. */
  lemma {:induction false} SplitIsExact(line: string, secret: string)
    requires secret != ""
    ensures Join(Split(line, secret), secret) == line
    ensures forall i :: 0 <= i < |Split(line, secret)| ==> !Contains(Split(line, secret)[i], secret)
    decreases |line|
  {
    var k := Find(line, secret, 0);
    if k >= 0 {
      var tail := line[k + |secret|..];
      SplitIsExact(tail, secret);
      assert Split(line, secret)[1..] == Split(tail, secret);
      FirstPiece(line, secret, k);
    }
  }

  lemma FirstPiece(line: string, secret: string, k: nat)
    requires secret != "" && k == Find(line, secret, 0)
    ensures line == line[..k] + secret + line[k + |secret|..] && !Contains(line[..k], secret)
  {
    assert forall j: nat :: OccursAt(line[..k], secret, j) ==> OccursAt(line, secret, j);
  }

  /** No piece contains anything the line does not contain. */
  lemma {:induction false} PiecesAreInside(line: string, secret: string, t: string)
    requires secret != "" && !Contains(line, t)
    ensures forall i :: 0 <= i < |Split(line, secret)| ==> !Contains(Split(line, secret)[i], t)
    decreases |line|
  {
    var k := Find(line, secret, 0);
    if k >= 0 {
      var tail := line[k + |secret|..];
      InsidePart(line, 0, k, t);
      InsidePart(line, k + |secret|, |line|, t);
      assert line[0..k] == line[..k] && line[k + |secret|..|line|] == tail;
      PiecesAreInside(tail, secret, t);
    }
  }

  lemma InsidePart(line: string, a: nat, b: nat, t: string)
    requires a <= b <= |line| && !Contains(line, t)
    ensures !Contains(line[a..b], t)
  {
    assert forall j: nat :: OccursAt(line[a..b], t, j) ==> OccursAt(line, t, a + j);
  }

  /** A secret that three stars can neither complete nor contain.  Every non-empty secret without a
      star is one. */
  ghost predicate Solid(t: string) {
    t != "" && t[0] != '*' && t[|t| - 1] != '*' && !Contains(t, STARS)
  }

  lemma StarFreeIsSolid(t: string)
    requires t != "" && '*' !in t
    ensures Solid(t)
  {
    assert STARS[0] == '*' && forall i :: 0 <= i < |t| ==> t[i] in t;
  }

  /** An occurrence in a line with three stars in it lies before them, after them, or touches them. */
  lemma AroundStars(a: string, b: string, t: string, k: nat)
    requires t != "" && OccursAt(a + STARS + b, t, k)
    ensures Contains(a, t) || Contains(b, t) || t[0] == '*' || t[|t| - 1] == '*' || Contains(t, STARS)
  {
    var line, n := a + STARS + b, |a|;
    assert t[0] == line[k + 0];
    assert t[|t| - 1] == line[k + (|t| - 1)];
    if k + |t| <= n {
      assert OccursAt(a, t, k);
    } else if k >= n + 3 {
      assert OccursAt(b, t, k - n - 3);
    } else if k < n && k + |t| >= n + 3 {
      assert OccursAt(t, STARS, n - k);
    }
  }

  lemma StarsSeparate(a: string, b: string, t: string)
    requires Solid(t) && !Contains(a, t) && !Contains(b, t)
    ensures !Contains(a + STARS + b, t)
  {
    if Contains(a + STARS + b, t) {
      var k: nat :| OccursAt(a + STARS + b, t, k);
      AroundStars(a, b, t, k);
    }
  }

  lemma {:induction false} JoinIsClean(segs: seq<string>, t: string)
    requires segs != [] && Solid(t)
    requires forall i :: 0 <= i < |segs| ==> !Contains(segs[i], t)
    ensures !Contains(Join(segs, STARS), t)
  {
    if |segs| > 1 {
      JoinIsClean(segs[1..], t);
      StarsSeparate(segs[0], Join(segs[1..], STARS), t);
    }
  }

  ghost predicate Complete(secrets: seq<string>, line: string)
    requires "" !in secrets
  {
    forall s :: s in secrets ==> !Contains(MaskAll(secrets, line), s)
  }

  /** No registered secret is left in the result, and no later pass brings an earlier one back. */
  lemma {:induction false} MaskingIsComplete(secrets: seq<string>, line: string)
    requires "" !in secrets && forall s :: s in secrets ==> Solid(s)
    ensures Complete(secrets, line)
  {
    if secrets != [] {
      var n := |secrets| - 1;
      var before, last := MaskAll(secrets[..n], line), secrets[n];
      MaskingIsComplete(secrets[..n], line);
      SplitIsExact(before, last);
      JoinIsClean(Split(before, last), last);
      forall s | s in secrets[..n] ensures !Contains(MaskAll(secrets, line), s) {
        PiecesAreInside(before, last, s);
        JoinIsClean(Split(before, last), s);
      }
      assert secrets == secrets[..n] + [last];
    }
  }

  /** A line in which no secret occurs is left alone. */
  lemma {:induction false} CleanLineIsKept(secrets: seq<string>, line: string)
    requires "" !in secrets
    requires forall s :: s in secrets ==> !Contains(line, s)
    ensures MaskAll(secrets, line) == line
  {
    if secrets != [] {
      CleanLineIsKept(secrets[..|secrets| - 1], line);
      var last := secrets[|secrets| - 1];
      assert last in secrets && !Contains(line, last);
      assert Find(line, last, 0) < 0 ==> Split(line, last) == [line];
    }
  }

  // ----- exactly when masking is complete --------------------------------------------------------

  /** A line with an occurrence of s after a, none before it, and a tail too short for another. */
  lemma OneOccurrence(a: string, s: string, b: string)
    requires s != "" && |b| < |s|
    requires forall k: nat :: k < |a| ==> !OccursAt(a + s + b, s, k)
    ensures MaskOne(a + s + b, s) == a + STARS + b
  {
    var line := a + s + b;
    assert OccursAt(line, s, |a|);
    assert line[..|a|] == a && line[|a| + |s|..] == b;
    MaskUnfold(line, s, |a|);
    assert Split(b, s) == [b];
  }

  lemma LeakyStart(s: string)
    requires s != "" && s[0] == '*'
    ensures Contains(MaskOne("" + s + s[1..], s), s)
  {
    OneOccurrence("", s, s[1..]);
    TailOfStars(s);
  }

  lemma TailOfStars(s: string)
    requires s != "" && s[0] == '*'
    ensures OccursAt("" + STARS + s[1..], s, 2)
  {
  }

  lemma LeakyEnd(s: string)
    requires s != "" && s[0] != '*' && s[|s| - 1] == '*'
    ensures Contains(MaskOne(s[..|s| - 1] + s + "", s), s)
  {
    var u := s[..|s| - 1];
    forall k: nat | k < |u| ensures !OccursAt(u + s + "", s, k) {
      NothingBeforeEnd(s, k);
    }
    OneOccurrence(u, s, "");
    HeadOfStars(s);
  }

  lemma NothingBeforeEnd(s: string, k: nat)
    requires s != "" && s[0] != '*' && s[|s| - 1] == '*' && k < |s| - 1
    ensures !OccursAt(s[..|s| - 1] + s + "", s, k)
  {
    var n := |s| - 1;
    var line := s[..n] + s + "";
    assert line[k + 0] == s[k] && line[k + n] == s[k];
  }

  lemma HeadOfStars(s: string)
    requires s != "" && s[|s| - 1] == '*'
    ensures OccursAt(s[..|s| - 1] + STARS + "", s, 0)
  {
  }

  lemma StarsAt(s: string, j: nat)
    requires j + 3 <= |s|
    ensures OccursAt(s, STARS, j) <==> s[j] == s[j + 1] == s[j + 2] == '*'
  {
    assert OccursAt(s, STARS, j) ==> s[j + 0] == STARS[0] && s[j + 1] == STARS[1] && s[j + 2] == STARS[2];
  }

  lemma NothingEarlier(s: string, j: nat, k: nat)
    requires j == Find(s, STARS, 0) && k < j
    ensures !OccursAt(s[..j] + s + s[j + 3..], s, k)
  {
    var line := s[..j] + s + s[j + 3..];
    assert line[k + j] == s[k] && line[k + (j + 1)] == s[k + 1] && line[k + (j + 2)] == s[k + 2];
    StarsAt(s, j);
    StarsAt(s, k);
  }

  lemma LeakyMiddle(s: string, j: nat)
    requires j == Find(s, STARS, 0)
    ensures Contains(MaskOne(s[..j] + s + s[j + 3..], s), s)
  {
    var u, v := s[..j], s[j + 3..];
    forall k: nat | k < j ensures !OccursAt(u + s + v, s, k) {
      NothingEarlier(s, j, k);
    }
    OneOccurrence(u, s, v);
    StarsInPlace(s, j);
    OccursInItself(s);
  }

  lemma StarsInPlace(s: string, j: nat)
    requires OccursAt(s, STARS, j)
    ensures s[..j] + STARS + s[j + 3..] == s
  {
    StarsAt(s, j);
  }

  lemma OccursInItself(s: string)
    ensures OccursAt(s, s, 0)
  {
  }

  /** A secret that is not solid has a line from which masking does not remove it. */
  lemma LeakyLine(s: string) returns (line: string)
    requires s != "" && !Solid(s)
    ensures Contains(MaskOne(line, s), s)
  {
    if s[0] == '*' {
      LeakyStart(s);
      line := "" + s + s[1..];
    } else if s[|s| - 1] == '*' {
      LeakyEnd(s);
      line := s[..|s| - 1] + s + "";
    } else {
      var j := Find(s, STARS, 0);
      LeakyMiddle(s, j);
      line := s[..j] + s + s[j + 3..];
    }
  }

  ghost predicate Drawn(secrets: seq<string>, pool: set<string>) {
    forall s :: s in secrets ==> s in pool
  }

  /** Masking is complete for every list of secrets drawn from a pool, on every line, if and only if
      every secret of the pool is solid. */
  lemma CompleteIffSolid(pool: set<string>)
    requires "" !in pool
    ensures (forall secrets, line | Drawn(secrets, pool) :: Complete(secrets, line)) <==> forall s :: s in pool ==> Solid(s)
  {
    if forall s :: s in pool ==> Solid(s) {
      forall secrets, line | Drawn(secrets, pool) ensures Complete(secrets, line) {
        MaskingIsComplete(secrets, line);
      }
    } else {
      var s :| s in pool && !Solid(s);
      var line := LeakyLine(s);
      assert Drawn([s], pool) && s in [s];
      assert [s][..0] == [];
      assert MaskAll([s], line) == MaskOne(line, s);
      assert !Complete([s], line);
    }
  }

  /** An empty secret is found wherever the search starts, and again after the stars that replace it:
      the loop would never end.  addSecret and the task executor keep empty secrets out; the forwarder's
      constructor does not look. */
  lemma EmptySecretNeverEnds(line: string, pos: nat)
    requires pos <= |line|
    ensures Find(line, "", pos) == pos
    ensures var next := line[..pos] + STARS + line[pos..];
            pos + |STARS| <= |next| && Find(next, "", pos + |STARS|) == pos + |STARS|
  {
    var next, empty := line[..pos] + STARS + line[pos..], "";
    assert OccursAt(line, empty, pos) && OccursAt(next, empty, pos + |STARS|);
  }
}
