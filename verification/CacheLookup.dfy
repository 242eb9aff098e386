/**
 * Cache lookup (src/cache/CacheServer.cpp, handleCacheLookup and parseKeys):
 * an exact pass over the index keys, then the newest entry that a restore
 * prefix matches.
 */
module CacheLookup {

  import opened CacheStore

  // ---------------------------------------------------------------- the requested keys

  /** The position of the first comma, or the length. */
  function Comma(s: string): (n: nat)
    ensures n <= |s| && (n < |s| ==> s[n] == ',')
    ensures forall i :: 0 <= i < n ==> s[i] != ','
  {
    if s == "" || s[0] == ',' then 0 else 1 + Comma(s[1..])
  }

  /** Pieces between commas; an empty last piece is not one. */
  function Keys(csv: string): seq<string>
    decreases |csv|
  {
    var n := Comma(csv);
    if csv == "" then []
    else if n == |csv| then [csv]
    else [csv[..n]] + Keys(csv[n + 1..])
  }

  method ParseKeys(csv: string) returns (keys: seq<string>)
    ensures keys == Keys(csv)
  {
    keys := [];
    var start := 0;
    while start < |csv|
      invariant start <= |csv|
      invariant Keys(csv) == keys + Keys(csv[start..])
    {
      var rest := csv[start..];
      var n := Comma(rest);
      if n == |rest| {
        keys := keys + [rest];
        return;
      }
      assert csv[start + n + 1..] == rest[n + 1..];
      keys := keys + [rest[..n]];
      start := start + n + 1;
    }
  }

  predicate CommaFree(s: string) {
    forall i :: 0 <= i < |s| ==> s[i] != ','
  }

  function JoinKeys(keys: seq<string>): string {
    if keys == [] then "" else if |keys| == 1 then keys[0] else keys[0] + "," + JoinKeys(keys[1..])
  }

  lemma CommaAfter(key: string, rest: string)
    requires CommaFree(key)
    ensures Comma(key + "," + rest) == |key|
  {
    var s := key + "," + rest;
    assert s[|key|] == ',';
    assert forall i :: 0 <= i < |key| ==> s[i] == key[i];
  }

  lemma FirstKey(key: string, rest: string)
    requires CommaFree(key)
    ensures Keys(key + "," + rest) == [key] + Keys(rest)
  {
    CommaAfter(key, rest);
    var csv := key + "," + rest;
    assert csv[..|key|] == key && csv[|key| + 1..] == rest;
  }

  lemma SplitFirst(keys: seq<string>)
    requires |keys| > 1
    ensures keys == [keys[0]] + keys[1..]
    ensures keys[..|keys| - 1] == [keys[0]] + keys[1..][..|keys| - 2]
  {
  }

  /** The reader gives back the joined keys, all but an empty last one: a round trip exactly when there is none. */
  lemma {:induction false} KeysRoundTrip(keys: seq<string>)
    requires forall i :: 0 <= i < |keys| ==> CommaFree(keys[i])
    ensures Keys(JoinKeys(keys)) == if keys != [] && keys[|keys| - 1] == "" then keys[..|keys| - 1] else keys
    ensures Keys(JoinKeys(keys)) == keys <==> keys == [] || keys[|keys| - 1] != ""
  {
    if |keys| == 1 {
      assert CommaFree(keys[0]);
      assert keys == [keys[0]];
    } else if |keys| > 1 {
      var rest := JoinKeys(keys[1..]);
      KeysRoundTrip(keys[1..]);
      FirstKey(keys[0], rest);
      SplitFirst(keys);
    }
  }

  // ---------------------------------------------------------------- what a lookup should answer

  datatype Answer = BadRequest | Hit(entry: Entry) | Miss

  predicate StartsWith(s: string, prefix: string) {
    |prefix| <= |s| && s[..|prefix|] == prefix
  }

  predicate EndsWith(s: string, suffix: string) {
    |suffix| <= |s| && s[|s| - |suffix|..] == suffix
  }

  type Index = map<string, Entry>

  predicate IsFor(e: Entry, key: string, version: string) {
    e.key == key && e.version == version
  }

  predicate Exists(entries: Index, key: string, version: string) {
    exists k | k in entries :: IsFor(entries[k], key, version)
  }

  /** The entry carries the version and starts with a restore key: any requested key but the first. */
  predicate Restores(e: Entry, keys: seq<string>, version: string) {
    e.version == version && exists i | 1 <= i < |keys| :: StartsWith(e.key, keys[i])
  }

  predicate IsNewest(entries: Index, keys: seq<string>, version: string, e: Entry) {
    && Restores(e, keys, version)
    && (exists k | k in entries :: entries[k] == e)
    && forall k | k in entries && Restores(entries[k], keys, version) :: entries[k].created <= e.created
  }

  /** The specification: keys and versions, and no index keys. */
  predicate RightAnswer(entries: Index, keys: seq<string>, version: string, a: Answer) {
    if keys == [] then a == BadRequest
    else if exists i | 0 <= i < |keys| :: Exists(entries, keys[i], version) then
      && a.Hit?
      && (exists k | k in entries :: entries[k] == a.entry)
      && exists i | 0 <= i < |keys| ::
          IsFor(a.entry, keys[i], version) && forall j | 0 <= j < i :: !Exists(entries, keys[j], version)
    else if exists k | k in entries :: Restores(entries[k], keys, version) then
      a.Hit? && IsNewest(entries, keys, version, a.entry)
    else a == Miss
  }

  /** What the two passes find, in terms of the index keys they look up. */
  predicate FoundByIndex(entries: Index, keys: seq<string>, version: string, a: Answer) {
    if keys == [] then a == BadRequest
    else if exists i | 0 <= i < |keys| :: IndexKey(keys[i], version) in entries then
      exists i | 0 <= i < |keys| :: FirstAt(entries, keys, version, i) && a == Hit(entries[IndexKey(keys[i], version)])
    else if exists k | k in entries :: Restores(entries[k], keys, version) then
      a.Hit? && IsNewest(entries, keys, version, a.entry)
    else a == Miss
  }

  predicate FirstAt(entries: Index, keys: seq<string>, version: string, i: nat)
    requires i < |keys|
  {
    IndexKey(keys[i], version) in entries && forall j | 0 <= j < i :: IndexKey(keys[j], version) !in entries
  }

  /** The entry is one of those listed. */
  ghost predicate Among(entries: Index, e: Entry) {
    exists k :: k in entries && entries[k] == e
  }

  /** A request with one key is answered with an entry of that very key, or missed. */
  lemma OneKeyIsExact(entries: Index, key: string, version: string, a: Answer)
    requires RightAnswer(entries, [key], version, a)
    ensures a.Hit? ==> Among(entries, a.entry) && a.entry.key == key && a.entry.version == version
    ensures !a.Hit? ==> a == Miss && forall k :: k in entries ==> !(entries[k].key == key && entries[k].version == version)
  {
    var keys := [key];
    assert forall i :: 0 <= i < |keys| ==> keys[i] == key;
    if Exists(entries, keys[0], version) {
      assert a.Hit?;
      var k :| k in entries && entries[k] == a.entry;
    } else {
      forall k | k in entries ensures !Restores(entries[k], keys, version) {
      }
      assert a == Miss;
      forall k | k in entries ensures !(entries[k].key == key && entries[k].version == version) {
        assert !IsFor(entries[k], keys[0], version);
      }
    }
  }

  /** Of two keys without an exact match the second is a prefix, and a newest entry it begins is the answer. */
  lemma SecondKeyIsAPrefix(entries: Index, key: string, prefix: string, version: string, a: Answer)
    requires RightAnswer(entries, [key, prefix], version, a)
    requires forall k :: k in entries ==> !(entries[k].version == version && entries[k].key in {key, prefix})
    ensures a.Hit? ==> Among(entries, a.entry) && a.entry.version == version && prefix <= a.entry.key
    ensures a.Hit? ==> forall k :: k in entries && entries[k].version == version && prefix <= entries[k].key ==> entries[k].created <= a.entry.created
    ensures !a.Hit? ==> a == Miss && forall k :: k in entries && entries[k].version == version ==> !(prefix <= entries[k].key)
  {
    var keys := [key, prefix];
    forall i | 0 <= i < |keys| ensures !Exists(entries, keys[i], version) {
      assert keys[i] in {key, prefix};
    }
    forall e: Entry ensures Restores(e, keys, version) <==> e.version == version && prefix <= e.key {
      PrefixRestores(e, key, prefix, version);
    }
    if exists k | k in entries :: Restores(entries[k], keys, version) {
      assert a.Hit? && IsNewest(entries, keys, version, a.entry);
      var k :| k in entries && entries[k] == a.entry;
    }
  }

  lemma PrefixRestores(e: Entry, key: string, prefix: string, version: string)
    ensures Restores(e, [key, prefix], version) <==> e.version == version && prefix <= e.key
  {
    var keys := [key, prefix];
    assert keys[1] == prefix && (prefix <= e.key <==> StartsWith(e.key, keys[1]));
  }

  // ---------------------------------------------------------------- the handler

  method HandleLookup(entries: Index, csv: string, version: string) returns (a: Answer)
    ensures FoundByIndex(entries, Keys(csv), version, a)
  {
    var keys := ParseKeys(csv);
    if keys == [] {
      return BadRequest;
    }
    var i := 0;
    while i < |keys|
      invariant i <= |keys|
      invariant forall j | 0 <= j < i :: IndexKey(keys[j], version) !in entries
    {
      if IndexKey(keys[i], version) in entries {
        assert FirstAt(entries, keys, version, i);
        return Hit(entries[IndexKey(keys[i], version)]);
      }
      i := i + 1;
    }
    var best := RestorePass(entries, keys, version);
    a := if best.Some? then Hit(best.value) else Miss;
  }

  /** `best` is a newest one of the entries at `found`. */
  ghost predicate BestOf(entries: Index, found: set<string>, best: Option<Entry>) {
    && found <= entries.Keys
    && (best.None? <==> found == {})
    && (best.Some? ==> exists k | k in found :: entries[k] == best.value)
    && (best.Some? ==> forall k | k in found :: entries[k].created <= best.value.created)
  }

  ghost function Matching(entries: Index, keys: seq<string>, n: int, version: string): set<string> {
    set k | k in entries && entries[k].version == version && MatchesAny(entries[k].key, keys, n)
  }

  predicate MatchesAny(key: string, keys: seq<string>, n: int) {
    exists i | 1 <= i < n && i < |keys| :: StartsWith(key, keys[i])
  }

  lemma MatchesOneMore(key: string, keys: seq<string>, n: nat)
    requires 1 <= n < |keys|
    ensures MatchesAny(key, keys, n + 1) <==> MatchesAny(key, keys, n) || StartsWith(key, keys[n])
  {
  }

  /** The loops over restore keys and entries; within a tie the first one seen stays. */
  method RestorePass(entries: Index, keys: seq<string>, version: string) returns (best: Option<Entry>)
    requires keys != []
    ensures BestOf(entries, Matching(entries, keys, |keys|, version), best)
    ensures best.None? <==> !exists k | k in entries :: Restores(entries[k], keys, version)
    ensures best.Some? ==> IsNewest(entries, keys, version, best.value)
  {
    best := None;
    var i := 1;
    while i < |keys|
      invariant 1 <= i <= |keys|
      invariant BestOf(entries, Matching(entries, keys, i, version), best)
    {
      best := PrefixPass(entries, keys, i, version, best);
      i := i + 1;
    }
    NewestIsBest(entries, keys, version, best);
  }

  method PrefixPass(entries: Index, keys: seq<string>, i: nat, version: string, before: Option<Entry>) returns (best: Option<Entry>)
    requires 1 <= i < |keys| && BestOf(entries, Matching(entries, keys, i, version), before)
    ensures BestOf(entries, Matching(entries, keys, i + 1, version), best)
  {
    best := before;
    var todo := entries.Keys;
    ghost var found := Matching(entries, keys, i, version);
    while todo != {}
      invariant todo <= entries.Keys
      invariant BestOf(entries, found, best)
      invariant forall k | k in entries :: k in found <==>
          k in Matching(entries, keys, i, version) || (k !in todo && Fits(entries[k], keys[i], version))
      decreases |todo|
    {
      var k :| k in todo;
      var e := entries[k];
      if Fits(e, keys[i], version) {
        BestWith(entries, found, best, k);
        if best.None? || e.created > best.value.created {
          best := Some(e);
        }
        found := found + {k};
      }
      todo := todo - {k};
    }
    MatchingGrows(entries, keys, i, version, found);
  }

  predicate Fits(e: Entry, prefix: string, version: string) {
    e.version == version && StartsWith(e.key, prefix)
  }

  lemma BestWith(entries: Index, found: set<string>, best: Option<Entry>, k: string)
    requires BestOf(entries, found, best) && k in entries
    ensures BestOf(entries, found + {k}, if best.None? || entries[k].created > best.value.created then Some(entries[k]) else best)
  {
    var more := found + {k};
    assert k in more;
    if best.Some? {
      var b :| b in found && entries[b] == best.value;
      assert b in more;
    }
  }

  lemma MatchingGrows(entries: Index, keys: seq<string>, i: nat, version: string, found: set<string>)
    requires 1 <= i < |keys| && found <= entries.Keys
    requires forall k | k in entries :: k in found <==> k in Matching(entries, keys, i, version) || Fits(entries[k], keys[i], version)
    ensures found == Matching(entries, keys, i + 1, version)
  {
    forall k | k in entries ensures k in found <==> k in Matching(entries, keys, i + 1, version) {
      MatchesOneMore(entries[k].key, keys, i);
    }
  }

  lemma RestoresMatches(entries: Index, keys: seq<string>, version: string, k: string)
    requires k in entries
    ensures Restores(entries[k], keys, version) <==> k in Matching(entries, keys, |keys|, version)
  {
    if Restores(entries[k], keys, version) {
      var i :| 1 <= i < |keys| && StartsWith(entries[k].key, keys[i]);
      assert MatchesAny(entries[k].key, keys, |keys|);
    }
    if MatchesAny(entries[k].key, keys, |keys|) {
      var i :| 1 <= i < |keys| && StartsWith(entries[k].key, keys[i]);
    }
  }

  lemma NewestIsBest(entries: Index, keys: seq<string>, version: string, best: Option<Entry>)
    requires BestOf(entries, Matching(entries, keys, |keys|, version), best)
    ensures best.None? <==> !exists k | k in entries :: Restores(entries[k], keys, version)
    ensures best.Some? ==> IsNewest(entries, keys, version, best.value)
  {
    forall k | k in entries ensures Restores(entries[k], keys, version) <==> k in Matching(entries, keys, |keys|, version) {
      RestoresMatches(entries, keys, version, k);
    }
  }

  // ---------------------------------------------------------------- when the two agree

  predicate FiledByKey(entries: Index) {
    forall k | k in entries :: k == IndexKey(entries[k].key, entries[k].version)
  }

  /** An entry of another version is filed under the index key of this version and a key that a request
      can name: one without a comma. */
  predicate Confusable(entries: Index, version: string) {
    exists k | k in entries :: Mistakable(entries, k, version)
  }

  predicate Mistakable(entries: Index, k: string, version: string)
    requires k in entries
  {
    && entries[k].version != version
    && EndsWith(k, "|" + version)
    && CommaFree(k[..|k| - |version| - 1])
  }

  lemma IndexKeyEnds(key: string, version: string)
    ensures EndsWith(IndexKey(key, version), "|" + version)
    ensures IndexKey(key, version)[..|IndexKey(key, version)| - |version| - 1] == key
  {
    var s := IndexKey(key, version);
    assert s == key + ("|" + version);
  }

  lemma SameVersion(k1: string, k2: string, version: string)
    requires IndexKey(k1, version) == IndexKey(k2, version)
    ensures k1 == k2
  {
    var a, b := IndexKey(k1, version), IndexKey(k2, version);
    assert a[..|k1|] == k1 && b[..|k2|] == k2;
  }

  /** With no confusable entry, looking up an index key is looking up the key and version. */
  lemma ExactIsExact(entries: Index, key: string, version: string)
    requires FiledByKey(entries) && !Confusable(entries, version) && CommaFree(key)
    ensures IndexKey(key, version) in entries <==> Exists(entries, key, version)
    ensures IndexKey(key, version) in entries ==> IsFor(entries[IndexKey(key, version)], key, version)
  {
    var idx := IndexKey(key, version);
    IndexKeyEnds(key, version);
    if idx in entries {
      assert !Mistakable(entries, idx, version);
      SameVersion(entries[idx].key, key, version);
      assert IsFor(entries[idx], key, version);
    }
  }

  /** The keys of a request never contain a comma. */
  lemma {:induction false} KeysAreCommaFree(csv: string)
    ensures forall i :: 0 <= i < |Keys(csv)| ==> CommaFree(Keys(csv)[i])
    decreases |csv|
  {
    var n := Comma(csv);
    if csv != "" && n < |csv| {
      KeysAreCommaFree(csv[n + 1..]);
    }
  }

  lemma AgreesWithoutConfusion(entries: Index, csv: string, version: string, a: Answer)
    requires FiledByKey(entries) && !Confusable(entries, version) && FoundByIndex(entries, Keys(csv), version, a)
    ensures RightAnswer(entries, Keys(csv), version, a)
  {
    var keys := Keys(csv);
    KeysAreCommaFree(csv);
    forall i | 0 <= i < |keys|
      ensures IndexKey(keys[i], version) in entries <==> Exists(entries, keys[i], version)
      ensures IndexKey(keys[i], version) in entries ==> IsFor(entries[IndexKey(keys[i], version)], keys[i], version)
    {
      ExactIsExact(entries, keys[i], version);
    }
  }

  /** No answer with an entry of another version is right. */
  lemma OtherVersionIsWrong(entries: Index, keys: seq<string>, version: string, e: Entry)
    requires e.version != version
    ensures !RightAnswer(entries, keys, version, Hit(e))
  {
  }

  /** A confusable entry is the answer to a request for a key nobody stored. */
  lemma ConfusionShows(entries: Index, version: string, k: string)
    requires k in entries && Mistakable(entries, k, version)
    ensures var csv := k[..|k| - |version| - 1] + ",x";
            && FoundByIndex(entries, Keys(csv), version, Hit(entries[k]))
            && !RightAnswer(entries, Keys(csv), version, Hit(entries[k]))
  {
    var key, x := k[..|k| - |version| - 1], "x";
    var csv := key + ",x";
    assert k == key + ("|" + version);
    assert csv == key + "," + x;
    FirstKey(key, x);
    var keys := Keys(csv);
    assert keys[0] == key && IndexKey(keys[0], version) == k;
    assert FirstAt(entries, keys, version, 0);
    OtherVersionIsWrong(entries, keys, version, entries[k]);
  }

  /** Requests for a version are answered rightly, whatever keys they name, exactly when no stored entry
      can be confused with it. */
  lemma LookupAgreesIff(entries: Index, version: string)
    requires FiledByKey(entries)
    ensures (forall csv, a :: FoundByIndex(entries, Keys(csv), version, a) ==> RightAnswer(entries, Keys(csv), version, a))
       <==> !Confusable(entries, version)
  {
    if !Confusable(entries, version) {
      forall csv, a | FoundByIndex(entries, Keys(csv), version, a) ensures RightAnswer(entries, Keys(csv), version, a) {
        AgreesWithoutConfusion(entries, csv, version, a);
      }
    } else {
      var k :| k in entries && Mistakable(entries, k, version);
      ConfusionShows(entries, version, k);
    }
  }

  predicate BarFree(s: string) {
    forall i :: 0 <= i < |s| ==> s[i] != '|'
  }

  lemma BarFreeIsClear(entries: Index, version: string)
    requires FiledByKey(entries) && BarFree(version)
    requires forall k | k in entries :: BarFree(entries[k].version)
    ensures !Confusable(entries, version)
  {
    forall k | k in entries && EndsWith(k, "|" + version) ensures !Mistakable(entries, k, version) {
      BarFreeSuffix(entries[k].key, entries[k].version, version);
    }
  }

  lemma BarInside(key: string, v: string, w: string)
    requires EndsWith(IndexKey(key, v), "|" + w)
    ensures |w| < |v| ==> !BarFree(v)
    ensures |v| < |w| ==> !BarFree(w)
    ensures |v| == |w| ==> v == w
  {
    var s := IndexKey(key, v);
    var bar := "|" + w;
    assert s[|s| - |bar|..] == bar;
    if |w| < |v| {
      assert s[|s| - |bar|] == v[|s| - |bar| - |key| - 1];
    } else if |v| < |w| {
      assert s[|key|] == w[|key| - (|s| - |bar|) - 1];
    } else {
      assert s[|key| + 1..] == v && bar[1..] == w;
    }
  }

  lemma BarFreeSuffix(key: string, v: string, w: string)
    requires BarFree(v) && BarFree(w) && EndsWith(IndexKey(key, v), "|" + w)
    ensures v == w
  {
    BarInside(key, v, w);
  }

  /** In every reachable store with bar-free versions, the handler's answer is the specified one. */
  lemma LookupIsRight(run: seq<Step>, csv: string, version: string, a: Answer)
    requires FreshRun(run) && BarFree(version)
    requires forall k | k in Run(run).entries :: BarFree(Run(run).entries[k].version)
    requires FoundByIndex(Run(run).entries, Keys(csv), version, a)
    ensures RightAnswer(Run(run).entries, Keys(csv), version, a)
  {
    StoreIsSound(run);
    forall k | k in Run(run).entries ensures k == IndexKey(Run(run).entries[k].key, Run(run).entries[k].version) {
      assert Filed(Run(run), k);
    }
    BarFreeIsClear(Run(run).entries, version);
    AgreesWithoutConfusion(Run(run).entries, csv, version, a);
  }

  /** Two versions share an index key for some keys exactly when one ends with a bar and the other. */
  lemma IndexKeysCollideIff(v: string, w: string)
    ensures (exists k, l :: k != "" && l != "" && (k != l || v != w) && IndexKey(k, v) == IndexKey(l, w)) <==>
            EndsWith(v, "|" + w) || EndsWith(w, "|" + v)
  {
    if k, l :| k != "" && l != "" && (k != l || v != w) && IndexKey(k, v) == IndexKey(l, w) {
      CollisionEnds(k, v, l, w);
    }
    if EndsWith(v, "|" + w) {
      EndsCollide(v, w);
    }
    if EndsWith(w, "|" + v) {
      EndsCollide(w, v);
    }
  }

  lemma CollisionEnds(k: string, v: string, l: string, w: string)
    requires (k != l || v != w) && IndexKey(k, v) == IndexKey(l, w)
    ensures EndsWith(v, "|" + w) || EndsWith(w, "|" + v)
  {
    if |k| == |l| {
      SameSplit(k, v, l, w);
    } else if |k| < |l| {
      LongerVersion(k, v, l, w);
    } else {
      LongerVersion(l, w, k, v);
    }
  }

  lemma SameSplit(k: string, v: string, l: string, w: string)
    requires |k| == |l| && IndexKey(k, v) == IndexKey(l, w)
    ensures k == l && v == w
  {
    var s := IndexKey(k, v);
    assert s[..|k|] == k && s[..|l|] == l && s[|k| + 1..] == v && s[|l| + 1..] == w;
  }

  lemma LongerVersion(k: string, v: string, l: string, w: string)
    requires |k| < |l| && IndexKey(k, v) == IndexKey(l, w)
    ensures EndsWith(v, "|" + w)
  {
    var s := IndexKey(k, v);
    assert s[|k| + 1..] == v && s[|l|..] == "|" + w;
    assert v[|l| - |k| - 1..] == "|" + w;
  }

  lemma EndsCollide(v: string, w: string)
    requires EndsWith(v, "|" + w)
    ensures IndexKey("k", v) == IndexKey("k|" + v[..|v| - |w| - 1], w) && v != w
  {
    assert v == v[..|v| - |w| - 1] + ("|" + w);
  }

  /** A reachable store that answers for a key nobody stored: ("a|b", "c") finds the entry of ("a", "b|c"). */
  lemma LookupCanMislead(blob: string, now: int)
    ensures var entries := Run([Reserve("a", "b|c", 0), Commit(1, blob, now, true)]).entries;
            && "a|b|c" in entries
            && FoundByIndex(entries, Keys("a|b,x"), "c", Hit(entries["a|b|c"]))
            && !RightAnswer(entries, Keys("a|b,x"), "c", Hit(entries["a|b|c"]))
  {
    var run := [Reserve("a", "b|c", 0), Commit(1, blob, now, true)];
    assert run[..1] == [Reserve("a", "b|c", 0)] && run[..1][..0] == [];
    assert IndexKey("a", "b|c") == "a|b|c";
    assert Run(run[..1]) == Apply(Empty, run[0]);
    assert Run(run) == Apply(Run(run[..1]), run[1]);
    var entries := Run(run).entries;
    assert entries == map["a|b|c" := entries["a|b|c"]];
    var k := "a|b|c";
    assert k[..3] == "a|b" && k[3..] == "|c" && k[..3] + ",x" == "a|b,x";
    ConfusionShows(entries, "c", k);
  }

  /** A comma in the stored key keeps the entry out of reach: nothing is confusable, though the index keys
      of the two versions end alike. */
  lemma CommaProtects(e: Entry)
    requires e.key == "a,x" && e.version == "b|c"
    ensures !Confusable(map["a,x|b|c" := e], "c")
  {
    var k := "a,x|b|c";
    assert k[..|k| - 2][1] == ',';
  }
}
