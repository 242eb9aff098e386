/**
 * Matrix expansion (src/workflow/MatrixExpander.cpp): the cross product of the
 * axes, the `include` entries merged in or added, the `exclude` patterns
 * removed.
 */
module Matrix {

  type Row = map<string, string>

  datatype Axis = Axis(name: string, values: seq<string>)

  /** The axes are a map from name to values, listed in the map's order. */
  datatype Matrix = Matrix(axes: seq<Axis>, includes: seq<Row>, excludes: seq<Row>)

  predicate DistinctNames(axes: seq<Axis>) {
    forall i, j :: 0 <= i < j < |axes| ==> axes[i].name != axes[j].name
  }

  predicate Submap(a: Row, b: Row) {
    forall k | k in a :: k in b && b[k] == a[k]
  }

  // ---------------------------------------------------------------- the expansion

  function Extend(rows: seq<Row>, axis: Axis): seq<Row>
    decreases |rows|
  {
    if rows == [] then []
    else Extend(rows[..|rows| - 1], axis) + Choices(rows[|rows| - 1], axis.name, axis.values)
  }

  function Choices(row: Row, name: string, values: seq<string>): seq<Row> {
    seq(|values|, i requires 0 <= i < |values| => row[name := values[i]])
  }

  function Cross(axes: seq<Axis>): seq<Row>
    decreases |axes|
  {
    if axes == [] then [map[]] else Extend(Cross(axes[..|axes| - 1]), axes[|axes| - 1])
  }

  /** The entry shares a key with the row and no shared key differs. */
  predicate Matches(row: Row, entry: Row) {
    (exists k | k in entry :: k in row) && (forall k | k in entry && k in row :: row[k] == entry[k])
  }

  /** The keys the row lacks are added. */
  function Augment(row: Row, entry: Row): Row {
    if Matches(row, entry) then entry + row else row
  }

  function AugmentAll(rows: seq<Row>, entry: Row): seq<Row> {
    seq(|rows|, i requires 0 <= i < |rows| => Augment(rows[i], entry))
  }

  predicate MatchesSome(rows: seq<Row>, entry: Row) {
    exists i | 0 <= i < |rows| :: Matches(rows[i], entry)
  }

  function Include(rows: seq<Row>, entry: Row): seq<Row> {
    AugmentAll(rows, entry) + if MatchesSome(rows, entry) then [] else [entry]
  }

  function IncludeAll(rows: seq<Row>, entries: seq<Row>): seq<Row>
    decreases |entries|
  {
    if entries == [] then rows else Include(IncludeAll(rows, entries[..|entries| - 1]), entries[|entries| - 1])
  }

  predicate Excluded(row: Row, patterns: seq<Row>) {
    exists p | p in patterns :: Submap(p, row)
  }

  function Keep(rows: seq<Row>, patterns: seq<Row>): seq<Row>
    decreases |rows|
  {
    if rows == [] then []
    else Keep(rows[..|rows| - 1], patterns) + if Excluded(rows[|rows| - 1], patterns) then [] else [rows[|rows| - 1]]
  }

  /** The rows before the exclude patterns are applied. */
  function Included(m: Matrix): seq<Row> {
    IncludeAll(Cross(m.axes), m.includes)
  }

  function Expand(m: Matrix): seq<Row> {
    if m.axes == [] && m.includes == [] then [] else Keep(Included(m), m.excludes)
  }

  // ---------------------------------------------------------------- the loops

  method MatchesPattern(row: Row, pattern: Row) returns (yes: bool)
    ensures yes <==> Submap(pattern, row)
  {
    var todo := pattern.Keys;
    while todo != {}
      invariant todo <= pattern.Keys
      invariant forall k | k in pattern && k !in todo :: k in row && row[k] == pattern[k]
      decreases |todo|
    {
      var k :| k in todo;
      if k !in row || row[k] != pattern[k] {
        return false;
      }
      todo := todo - {k};
    }
    yes := true;
  }

  method CrossProduct(axes: seq<Axis>) returns (rows: seq<Row>)
    ensures rows == Cross(axes)
  {
    rows := [map[]];
    var a := 0;
    assert axes[..0] == [];
    while a < |axes|
      invariant a <= |axes| && rows == Cross(axes[..a])
    {
      rows := ExtendRows(rows, axes[a]);
      assert axes[..a + 1][..a] == axes[..a];
      a := a + 1;
    }
    assert axes[..a] == axes;
  }

  /** One axis: every row once for each of its values. */
  method ExtendRows(rows: seq<Row>, axis: Axis) returns (expanded: seq<Row>)
    ensures expanded == Extend(rows, axis)
  {
    expanded := [];
    var r := 0;
    while r < |rows|
      invariant r <= |rows| && expanded == Extend(rows[..r], axis)
    {
      ghost var before := expanded;
      var v := 0;
      while v < |axis.values|
        invariant v <= |axis.values| && expanded == before + Choices(rows[r], axis.name, axis.values[..v])
      {
        ChoicesMore(rows[r], axis.name, axis.values, v);
        expanded := expanded + [rows[r][axis.name := axis.values[v]]];
        v := v + 1;
      }
      assert axis.values[..v] == axis.values;
      assert rows[..r + 1][..r] == rows[..r];
      r := r + 1;
    }
    assert rows[..r] == rows;
  }

  lemma ChoicesMore(row: Row, name: string, values: seq<string>, v: nat)
    requires v < |values|
    ensures Choices(row, name, values[..v + 1]) == Choices(row, name, values[..v]) + [row[name := values[v]]]
  {
  }

  /** The matching loop over the entry's keys, which stops at a difference. */
  method MatchRow(row: Row, entry: Row) returns (yes: bool)
    ensures yes <==> Matches(row, entry)
  {
    var todo := entry.Keys;
    var shared, agree := false, true;
    while todo != {} && agree
      invariant todo <= entry.Keys
      invariant shared <==> exists k | k in entry :: k !in todo && k in row
      invariant agree <==> forall k | k in entry && k in row :: k !in todo ==> row[k] == entry[k]
      decreases |todo|
    {
      var k :| k in todo;
      if k in row {
        shared := true;
        agree := row[k] == entry[k];
      }
      todo := todo - {k};
    }
    yes := shared && agree;
  }

  method AugmentRow(row: Row, entry: Row) returns (wider: Row)
    ensures wider == entry + row
  {
    wider := row;
    var todo := entry.Keys;
    while todo != {}
      invariant todo <= entry.Keys
      invariant wider == (entry - todo) + row
      decreases |todo|
    {
      var k :| k in todo;
      WidenOne(row, entry, todo, k);
      if k !in wider {
        wider := wider[k := entry[k]];
      }
      todo := todo - {k};
    }
    assert entry - {} == entry;
  }

  lemma WidenOne(row: Row, entry: Row, todo: set<string>, k: string)
    requires k in todo && k in entry
    ensures var before := (entry - todo) + row;
            (if k in before then before else before[k := entry[k]]) == (entry - (todo - {k})) + row
  {
    assert (entry - todo)[k := entry[k]] == entry - (todo - {k});
  }

  method ApplyInclude(rows: seq<Row>, entry: Row) returns (after: seq<Row>)
    ensures after == Include(rows, entry)
  {
    after := rows;
    var matched := false;
    var r := 0;
    while r < |rows|
      invariant r <= |rows| == |after|
      invariant forall i | 0 <= i < r :: after[i] == Augment(rows[i], entry)
      invariant forall i | r <= i < |rows| :: after[i] == rows[i]
      invariant matched <==> MatchesSome(rows[..r], entry)
    {
      var yes := MatchRow(after[r], entry);
      SomeOfMore(rows, r, entry);
      if yes {
        var wider := AugmentRow(after[r], entry);
        after := after[r := wider];
        matched := true;
      }
      r := r + 1;
    }
    assert rows[..r] == rows;
    assert after == AugmentAll(rows, entry);
    if !matched {
      after := after + [entry];
    }
  }

  lemma SomeOfMore(rows: seq<Row>, r: nat, entry: Row)
    requires r < |rows|
    ensures MatchesSome(rows[..r + 1], entry) <==> MatchesSome(rows[..r], entry) || Matches(rows[r], entry)
  {
    var less, more := rows[..r], rows[..r + 1];
    if MatchesSome(less, entry) {
      var i :| 0 <= i < |less| && Matches(less[i], entry);
      assert more[i] == less[i];
    }
    if MatchesSome(more, entry) {
      var i :| 0 <= i < |more| && Matches(more[i], entry);
      assert i < r ==> less[i] == more[i];
    }
    assert more[r] == rows[r];
  }

  method ExcludedBy(row: Row, patterns: seq<Row>) returns (yes: bool)
    ensures yes <==> Excluded(row, patterns)
  {
    var p := 0;
    while p < |patterns|
      invariant p <= |patterns|
      invariant forall i | 0 <= i < p :: !Submap(patterns[i], row)
    {
      yes := MatchesPattern(row, patterns[p]);
      if yes {
        return;
      }
      p := p + 1;
    }
    yes := false;
  }

  method ExpandMatrix(m: Matrix) returns (rows: seq<Row>)
    ensures rows == Expand(m)
  {
    if m.axes == [] && m.includes == [] {
      return [];
    }
    var combinations := CrossProduct(m.axes);
    var n := 0;
    assert m.includes[..0] == [];
    while n < |m.includes|
      invariant n <= |m.includes| && combinations == IncludeAll(Cross(m.axes), m.includes[..n])
    {
      combinations := ApplyInclude(combinations, m.includes[n]);
      assert m.includes[..n + 1][..n] == m.includes[..n];
      n := n + 1;
    }
    assert m.includes[..n] == m.includes;
    rows := RemoveExcluded(combinations, m.excludes);
  }

  method RemoveExcluded(combinations: seq<Row>, patterns: seq<Row>) returns (rows: seq<Row>)
    ensures rows == Keep(combinations, patterns)
  {
    rows := [];
    var r := 0;
    while r < |combinations|
      invariant r <= |combinations| && rows == Keep(combinations[..r], patterns)
    {
      var out := ExcludedBy(combinations[r], patterns);
      assert combinations[..r + 1][..r] == combinations[..r];
      if !out {
        rows := rows + [combinations[r]];
      }
      r := r + 1;
    }
    assert combinations[..r] == combinations;
  }

  // ---------------------------------------------------------------- the cross product, by choices

  function Product(axes: seq<Axis>): nat
    decreases |axes|
  {
    if axes == [] then 1 else Product(axes[..|axes| - 1]) * |axes[|axes| - 1].values|
  }

  /** One position in each axis's list of values. */
  predicate IsChoice(axes: seq<Axis>, c: seq<nat>) {
    |c| == |axes| && forall j :: 0 <= j < |axes| ==> c[j] < |axes[j].values|
  }

  /** The place of a choice in the product: the last axis varies fastest. */
  function Rank(axes: seq<Axis>, c: seq<nat>): nat
    requires |c| == |axes|
    decreases |axes|
  {
    if axes == [] then 0
    else
      var n := |axes| - 1;
      Rank(axes[..n], c[..n]) * |axes[n].values| + c[n]
  }

  function ChoiceAt(axes: seq<Axis>, i: nat): seq<nat>
    decreases |axes|
  {
    if axes == [] then []
    else
      var n := |axes| - 1;
      var size := |axes[n].values|;
      if size == 0 then ChoiceAt(axes[..n], 0) + [0] else ChoiceAt(axes[..n], i / size) + [i % size]
  }

  /** The row gives every axis its chosen value and has no other key. */
  predicate Takes(row: Row, axes: seq<Axis>, c: seq<nat>)
    requires IsChoice(axes, c)
  {
    && (forall j | 0 <= j < |axes| :: axes[j].name in row && row[axes[j].name] == axes[j].values[c[j]])
    && (forall k | k in row :: exists j | 0 <= j < |axes| :: axes[j].name == k)
  }

  lemma {:induction false} ExtendAt(rows: seq<Row>, axis: Axis, r: nat, v: nat)
    requires r < |rows| && v < |axis.values|
    ensures |Extend(rows, axis)| == |rows| * |axis.values|
    ensures r * |axis.values| + v < |Extend(rows, axis)|
    ensures Extend(rows, axis)[r * |axis.values| + v] == rows[r][axis.name := axis.values[v]]
    decreases |rows|
  {
    var n := |rows| - 1;
    ExtendLength(rows, axis);
    ExtendLength(rows[..n], axis);
    if r < n {
      ExtendAt(rows[..n], axis, r, v);
    }
  }

  lemma {:induction false} ExtendLength(rows: seq<Row>, axis: Axis)
    ensures |Extend(rows, axis)| == |rows| * |axis.values|
    decreases |rows|
  {
    if rows != [] {
      ExtendLength(rows[..|rows| - 1], axis);
    }
  }

  lemma {:induction false} CrossLength(axes: seq<Axis>)
    ensures |Cross(axes)| == Product(axes)
    decreases |axes|
  {
    if axes != [] {
      CrossLength(axes[..|axes| - 1]);
      ExtendLength(Cross(axes[..|axes| - 1]), axes[|axes| - 1]);
    }
  }

  lemma Below(r: nat, p: nat, size: nat, v: nat)
    requires r < p && v < size
    ensures r * size + v < p * size
  {
    assert (r + 1) * size <= p * size;
  }

  lemma {:induction false} RankFits(axes: seq<Axis>, c: seq<nat>)
    requires IsChoice(axes, c)
    ensures Rank(axes, c) < Product(axes)
    decreases |axes|
  {
    if axes != [] {
      var n := |axes| - 1;
      RankFits(axes[..n], c[..n]);
      Below(Rank(axes[..n], c[..n]), Product(axes[..n]), |axes[n].values|, c[n]);
    }
  }

  lemma TakesMore(row: Row, axes: seq<Axis>, c: seq<nat>)
    requires DistinctNames(axes) && axes != [] && IsChoice(axes, c)
    requires Takes(row, axes[..|axes| - 1], c[..|axes| - 1])
    ensures Takes(row[axes[|axes| - 1].name := axes[|axes| - 1].values[c[|axes| - 1]]], axes, c)
  {
    var n := |axes| - 1;
    var wider := row[axes[n].name := axes[n].values[c[n]]];
    forall j | 0 <= j < |axes| ensures axes[j].name in wider && wider[axes[j].name] == axes[j].values[c[j]] {
      if j < n {
        assert axes[..n][j] == axes[j] && c[..n][j] == c[j];
      }
    }
    forall k | k in wider ensures exists j | 0 <= j < |axes| :: axes[j].name == k {
      if k in row {
        var j :| 0 <= j < n && axes[..n][j].name == k;
        assert axes[j].name == k;
      } else {
        assert axes[n].name == k;
      }
    }
  }

  lemma FrontChoice(axes: seq<Axis>, c: seq<nat>)
    requires DistinctNames(axes) && axes != [] && IsChoice(axes, c)
    ensures DistinctNames(axes[..|axes| - 1]) && IsChoice(axes[..|axes| - 1], c[..|axes| - 1])
  {
  }

  lemma CrossAt(axes: seq<Axis>, r: nat, v: nat)
    requires axes != [] && v < |axes[|axes| - 1].values| && r < |Cross(axes[..|axes| - 1])|
    ensures r * |axes[|axes| - 1].values| + v < |Cross(axes)|
    ensures Cross(axes)[r * |axes[|axes| - 1].values| + v] ==
            Cross(axes[..|axes| - 1])[r][axes[|axes| - 1].name := axes[|axes| - 1].values[v]]
  {
    ExtendAt(Cross(axes[..|axes| - 1]), axes[|axes| - 1], r, v);
  }

  /** Every choice has its row, at its rank. */
  lemma {:induction false} ChoiceHasRow(axes: seq<Axis>, c: seq<nat>)
    requires DistinctNames(axes) && IsChoice(axes, c)
    ensures Rank(axes, c) < |Cross(axes)| && Takes(Cross(axes)[Rank(axes, c)], axes, c)
    decreases |axes|
  {
    if axes != [] {
      var n := |axes| - 1;
      var r := Rank(axes[..n], c[..n]);
      FrontChoice(axes, c);
      ChoiceHasRow(axes[..n], c[..n]);
      CrossAt(axes, r, c[n]);
      TakesMore(Cross(axes[..n])[r], axes, c);
    }
  }

  lemma DivMod(i: nat, p: nat, size: nat)
    requires i < p * size
    ensures size > 0 && i / size < p && i / size * size + i % size == i
  {
    assert size == 0 ==> p * size == 0;
    var q := i / size;
    assert q >= p ==> q * size >= p * size;
  }

  /** Every row has its choice: ranks are the positions. */
  lemma {:induction false} RowHasChoice(axes: seq<Axis>, i: nat)
    requires i < Product(axes)
    ensures IsChoice(axes, ChoiceAt(axes, i)) && Rank(axes, ChoiceAt(axes, i)) == i
    decreases |axes|
  {
    if axes != [] {
      var n := |axes| - 1;
      var size := |axes[n].values|;
      DivMod(i, Product(axes[..n]), size);
      RowHasChoice(axes[..n], i / size);
      ChoiceGrows(axes, ChoiceAt(axes[..n], i / size), i % size);
    }
  }

  lemma ChoiceGrows(axes: seq<Axis>, front: seq<nat>, last: nat)
    requires axes != [] && IsChoice(axes[..|axes| - 1], front) && last < |axes[|axes| - 1].values|
    ensures IsChoice(axes, front + [last])
    ensures Rank(axes, front + [last]) == Rank(axes[..|axes| - 1], front) * |axes[|axes| - 1].values| + last
  {
    assert (front + [last])[..|axes| - 1] == front;
    forall j | 0 <= j < |axes| ensures (front + [last])[j] < |axes[j].values| {
      assert j < |axes| - 1 ==> axes[..|axes| - 1][j] == axes[j];
    }
  }

  /** No two choices share a rank. */
  lemma {:induction false} RankIsInjective(axes: seq<Axis>, c: seq<nat>, d: seq<nat>)
    requires IsChoice(axes, c) && IsChoice(axes, d) && Rank(axes, c) == Rank(axes, d)
    ensures c == d
    decreases |axes|
  {
    if axes != [] {
      var n := |axes| - 1;
      SameDigits(Rank(axes[..n], c[..n]), c[n], Rank(axes[..n], d[..n]), d[n], |axes[n].values|);
      RankIsInjective(axes[..n], c[..n], d[..n]);
      assert c == c[..n] + [c[n]] && d == d[..n] + [d[n]];
    }
  }

  lemma SameDigits(a: nat, x: nat, b: nat, y: nat, size: nat)
    requires x < size && y < size && a * size + x == b * size + y
    ensures a == b && x == y
  {
    if a < b {
      Below(a, b, size, x);
    } else if b < a {
      Below(b, a, size, y);
    }
  }

  /** The rows are the choices of one value per axis, each choice in exactly one place. */
  lemma CrossIsEveryChoice(axes: seq<Axis>, i: nat)
    requires DistinctNames(axes) && i < Product(axes)
    ensures |Cross(axes)| == Product(axes)
    ensures IsChoice(axes, ChoiceAt(axes, i)) && Takes(Cross(axes)[i], axes, ChoiceAt(axes, i))
    ensures forall c :: IsChoice(axes, c) && Rank(axes, c) == i ==> c == ChoiceAt(axes, i)
  {
    CrossLength(axes);
    RowHasChoice(axes, i);
    ChoiceHasRow(axes, ChoiceAt(axes, i));
    forall c | IsChoice(axes, c) && Rank(axes, c) == i ensures c == ChoiceAt(axes, i) {
      RankIsInjective(axes, c, ChoiceAt(axes, i));
    }
  }

  // ---------------------------------------------------------------- include

  lemma IncludeGrows(rows: seq<Row>, entry: Row)
    ensures |rows| <= |Include(rows, entry)| <= |rows| + 1
    ensures forall i | 0 <= i < |rows| :: Submap(rows[i], Include(rows, entry)[i])
    ensures exists i | 0 <= i < |Include(rows, entry)| :: Submap(entry, Include(rows, entry)[i])
  {
    var after := Include(rows, entry);
    if MatchesSome(rows, entry) {
      var i :| 0 <= i < |rows| && Matches(rows[i], entry);
      assert after[i] == entry + rows[i];
      assert Submap(entry, after[i]);
    } else {
      assert Submap(entry, after[|rows|]);
    }
  }

  lemma SubmapTrans(a: Row, b: Row, c: Row)
    requires Submap(a, b) && Submap(b, c)
    ensures Submap(a, c)
  {
  }

  /** Rows are only widened, at their own place, and at most one is added per entry. */
  lemma {:induction false} RowsWiden(rows: seq<Row>, entries: seq<Row>, i: nat)
    requires i < |rows|
    ensures |rows| <= |IncludeAll(rows, entries)| <= |rows| + |entries|
    ensures Submap(rows[i], IncludeAll(rows, entries)[i])
    decreases |entries|
  {
    if entries != [] {
      var n := |entries| - 1;
      RowsWiden(rows, entries[..n], i);
      var before := IncludeAll(rows, entries[..n]);
      IncludeGrows(before, entries[n]);
      SubmapTrans(rows[i], before[i], IncludeAll(rows, entries)[i]);
    }
  }

  lemma {:induction false} RowCount(rows: seq<Row>, entries: seq<Row>)
    ensures |rows| <= |IncludeAll(rows, entries)| <= |rows| + |entries|
    decreases |entries|
  {
    if entries != [] {
      RowCount(rows, entries[..|entries| - 1]);
      IncludeGrows(IncludeAll(rows, entries[..|entries| - 1]), entries[|entries| - 1]);
    }
  }

  predicate Holds(rows: seq<Row>, entry: Row) {
    exists i | 0 <= i < |rows| :: Submap(entry, rows[i])
  }

  lemma HoldsOn(rows: seq<Row>, entry: Row, other: Row)
    requires Holds(rows, entry)
    ensures Holds(Include(rows, other), entry)
  {
    var i :| 0 <= i < |rows| && Submap(entry, rows[i]);
    IncludeGrows(rows, other);
    SubmapTrans(entry, rows[i], Include(rows, other)[i]);
  }

  /** Every entry ends up inside some row. */
  lemma {:induction false} EntriesAreHeld(rows: seq<Row>, entries: seq<Row>, e: nat)
    requires e < |entries|
    ensures Holds(IncludeAll(rows, entries), entries[e])
    decreases |entries|
  {
    var n := |entries| - 1;
    var before := IncludeAll(rows, entries[..n]);
    if e < n {
      EntriesAreHeld(rows, entries[..n], e);
      HoldsOn(before, entries[e], entries[n]);
    } else {
      IncludeGrows(before, entries[n]);
    }
  }

  /** The binding is in the row's combination, if it has one, or in some entry. */
  predicate Sourced(rows: seq<Row>, entries: seq<Row>, i: nat, k: string, v: string) {
    || (i < |rows| && k in rows[i] && rows[i][k] == v)
    || exists e | e in entries :: k in e && e[k] == v
  }

  /** No row holds a value that neither its combination nor an entry gave it. */
  lemma {:induction false} ValuesAreSourced(rows: seq<Row>, entries: seq<Row>, i: nat, k: string)
    requires i < |IncludeAll(rows, entries)| && k in IncludeAll(rows, entries)[i]
    ensures Sourced(rows, entries, i, k, IncludeAll(rows, entries)[i][k])
    decreases |entries|
  {
    if entries != [] {
      var n := |entries| - 1;
      var before, after := IncludeAll(rows, entries[..n]), IncludeAll(rows, entries);
      assert entries[n] in entries;
      if i < |before| && k in before[i] {
        ValuesAreSourced(rows, entries[..n], i, k);
        assert after[i][k] == before[i][k];
        SourcedOn(rows, entries, i, k, before[i][k]);
      }
    }
  }

  lemma SourcedOn(rows: seq<Row>, entries: seq<Row>, i: nat, k: string, v: string)
    requires entries != [] && Sourced(rows, entries[..|entries| - 1], i, k, v)
    ensures Sourced(rows, entries, i, k, v)
  {
  }

  /**
   * Before exclusion: row i extends the i-th combination and alters none of
   * its values, every include entry is inside some row, nothing is invented,
   * and there is at most one extra row per entry.
   */
  lemma IncludedIsRight(m: Matrix)
    requires DistinctNames(m.axes)
    ensures Product(m.axes) <= |Included(m)| <= Product(m.axes) + |m.includes|
    ensures forall i | 0 <= i < Product(m.axes) :: i < |Cross(m.axes)| && Submap(Cross(m.axes)[i], Included(m)[i])
    ensures forall e | 0 <= e < |m.includes| :: Holds(Included(m), m.includes[e])
    ensures forall i, k | 0 <= i < |Included(m)| && k in Included(m)[i] :: Sourced(Cross(m.axes), m.includes, i, k, Included(m)[i][k])
  {
    CrossLength(m.axes);
    RowCount(Cross(m.axes), m.includes);
    forall i | 0 <= i < Product(m.axes) ensures Submap(Cross(m.axes)[i], Included(m)[i]) {
      RowsWiden(Cross(m.axes), m.includes, i);
    }
    forall e | 0 <= e < |m.includes| ensures Holds(Included(m), m.includes[e]) {
      EntriesAreHeld(Cross(m.axes), m.includes, e);
    }
    forall i, k | 0 <= i < |Included(m)| && k in Included(m)[i] ensures Sourced(Cross(m.axes), m.includes, i, k, Included(m)[i][k]) {
      ValuesAreSourced(Cross(m.axes), m.includes, i, k);
    }
  }

  // ---------------------------------------------------------------- exclude

  predicate Increasing(at: seq<nat>) {
    forall i, j :: 0 <= i < j < |at| ==> at[i] < at[j]
  }

  /** `kept` lists the rows at the places `at`, which are those that match no pattern, in order. */
  predicate KeptAt(rows: seq<Row>, patterns: seq<Row>, kept: seq<Row>, at: seq<nat>) {
    && |at| == |kept|
    && Increasing(at)
    && (forall j | 0 <= j < |at| :: at[j] < |rows| && kept[j] == rows[at[j]] && !Excluded(rows[at[j]], patterns))
    && (forall i | 0 <= i < |rows| && !Excluded(rows[i], patterns) :: i in at)
  }

  /** The result is exactly the rows no exclude pattern matches, in their order. */
  lemma {:induction false} KeepIsExact(rows: seq<Row>, patterns: seq<Row>)
    ensures exists at :: KeptAt(rows, patterns, Keep(rows, patterns), at)
    decreases |rows|
  {
    if rows == [] {
      assert KeptAt(rows, patterns, Keep(rows, patterns), []);
    } else {
      var n := |rows| - 1;
      KeepIsExact(rows[..n], patterns);
      var at :| KeptAt(rows[..n], patterns, Keep(rows[..n], patterns), at);
      var kept := Keep(rows[..n], patterns);
      KeptLast(rows, patterns, kept, at);
      assert Keep(rows, patterns) == if Excluded(rows[n], patterns) then kept else kept + [rows[n]];
    }
  }

  lemma KeptLast(rows: seq<Row>, patterns: seq<Row>, kept: seq<Row>, at: seq<nat>)
    requires rows != [] && KeptAt(rows[..|rows| - 1], patterns, kept, at)
    ensures if Excluded(rows[|rows| - 1], patterns) then KeptAt(rows, patterns, kept, at)
            else KeptAt(rows, patterns, kept + [rows[|rows| - 1]], at + [|rows| - 1])
  {
    var n := |rows| - 1;
    assert forall i | 0 <= i < n :: rows[..n][i] == rows[i];
    if !Excluded(rows[n], patterns) {
      var more := at + [n];
      forall i | 0 <= i < |rows| && !Excluded(rows[i], patterns) ensures i in more {
        if i < n {
          assert i in at;
        }
      }
    }
  }

  // ---------------------------------------------------------------- the empty row

  lemma {:induction false} EmptyRowStays(rows: seq<Row>, entries: seq<Row>)
    ensures map[] in IncludeAll(rows, entries) <==> map[] in rows || map[] in entries
    decreases |entries|
  {
    if entries != [] {
      var n := |entries| - 1;
      EmptyRowStays(rows, entries[..n]);
      EmptyRowStep(IncludeAll(rows, entries[..n]), entries[n]);
      assert entries == entries[..n] + [entries[n]];
    }
  }

  lemma EmptyRowStep(rows: seq<Row>, entry: Row)
    ensures map[] in Include(rows, entry) <==> map[] in rows || entry == map[]
  {
    var after := Include(rows, entry);
    if map[] in rows {
      var i :| 0 <= i < |rows| && rows[i] == map[];
      assert after[i] == map[];
    }
    if entry == map[] {
      assert !MatchesSome(rows, entry);
      assert after[|rows|] == map[];
    }
    if map[] in after {
      var i :| 0 <= i < |after| && after[i] == map[];
      if i < |rows| {
        assert forall k | k in rows[i] :: k in after[i];
        assert rows[i] == map[];
      }
    }
  }

  lemma {:induction false} ExtendNames(rows: seq<Row>, axis: Axis, row: Row)
    requires row in Extend(rows, axis)
    ensures axis.name in row
    decreases |rows|
  {
    if rows != [] && row in Extend(rows[..|rows| - 1], axis) {
      ExtendNames(rows[..|rows| - 1], axis, row);
    }
  }

  lemma EmptyCombination(axes: seq<Axis>)
    ensures map[] in Cross(axes) <==> axes == []
  {
    if axes != [] && map[] in Cross(axes) {
      ExtendNames(Cross(axes[..|axes| - 1]), axes[|axes| - 1], map[]);
    }
  }

  lemma {:induction false} KeptRows(rows: seq<Row>, patterns: seq<Row>, row: Row)
    ensures row in Keep(rows, patterns) <==> row in rows && !Excluded(row, patterns)
    decreases |rows|
  {
    if rows != [] {
      KeptRows(rows[..|rows| - 1], patterns, row);
      assert rows == rows[..|rows| - 1] + [rows[|rows| - 1]];
    }
  }

  /**
   * The expansion yields a row with no keys exactly when there is no empty
   * exclude pattern and either an include entry is empty or the matrix has
   * include entries and no axis.
   */
  lemma EmptyRowIff(m: Matrix)
    ensures map[] in Expand(m) <==> map[] !in m.excludes && (map[] in m.includes || (m.axes == [] && m.includes != []))
  {
    EmptyCombination(m.axes);
    EmptyRowStays(Cross(m.axes), m.includes);
    KeptRows(Included(m), m.excludes, map[]);
    if map[] in m.excludes {
      var empty: Row := map[];
      assert Submap(empty, map[]);
    }
    if Excluded(map[], m.excludes) {
      var p :| p in m.excludes && Submap(p, map[]);
      assert p == map[];
    }
  }

  lemma MatchesAfterEmpty(rows: seq<Row>, entry: Row)
    ensures MatchesSome([map[]] + rows, entry) <==> MatchesSome(rows, entry)
  {
    var all := [map[]] + rows;
    if MatchesSome(rows, entry) {
      var i :| 0 <= i < |rows| && Matches(rows[i], entry);
      assert all[i + 1] == rows[i];
    }
    if MatchesSome(all, entry) {
      var i :| 0 <= i < |all| && Matches(all[i], entry);
      assert rows[i - 1] == all[i];
    }
  }

  lemma AugmentAfterEmpty(rows: seq<Row>, entry: Row)
    ensures AugmentAll([map[]] + rows, entry) == [map[]] + AugmentAll(rows, entry)
  {
    var all := [map[]] + rows;
    forall i | 0 <= i < |all| ensures AugmentAll(all, entry)[i] == ([map[]] + AugmentAll(rows, entry))[i] {
      assert i > 0 ==> all[i] == rows[i - 1];
    }
  }

  lemma IncludeOneAfterEmpty(rows: seq<Row>, entry: Row)
    ensures Include([map[]] + rows, entry) == [map[]] + Include(rows, entry)
  {
    MatchesAfterEmpty(rows, entry);
    AugmentAfterEmpty(rows, entry);
  }

  lemma {:induction false} IncludeAfterEmpty(rows: seq<Row>, entries: seq<Row>)
    ensures IncludeAll([map[]] + rows, entries) == [map[]] + IncludeAll(rows, entries)
    decreases |entries|
  {
    if entries != [] {
      IncludeAfterEmpty(rows, entries[..|entries| - 1]);
      IncludeOneAfterEmpty(IncludeAll(rows, entries[..|entries| - 1]), entries[|entries| - 1]);
    }
  }

  /** With no axis the include entries are merged among themselves, after an empty row that comes first. */
  lemma IncludeOnly(m: Matrix)
    requires m.axes == []
    ensures Included(m) == [map[]] + IncludeAll([], m.includes)
  {
    IncludeAfterEmpty([], m.includes);
    assert Cross([]) == [map[]] + [];
  }
}
