/**
 What the include and exclude lists of a matrix do to its rows (src/workflow/MatrixExpander.cpp),
 said key by key and place by place.
 */
module MatrixLaws {
  import opened Matrix

  /** The entry fits the row: they share a key and differ on none they share. */
  ghost predicate Fits(row: Row, entry: Row) {
    && (exists k :: k in entry && k in row)
    && (forall k :: k in entry && k in row ==> row[k] == entry[k])
  }

  /** The row holds the bindings of both and no other. */
  ghost predicate Union(row: Row, entry: Row, wider: Row) {
    && (forall k :: k in entry ==> k in wider && wider[k] == entry[k])
    && (forall k :: k in row ==> k in wider && wider[k] == row[k])
    && (forall k :: k in wider ==> k in row || k in entry)
  }

  /** A row the entry fits is widened by it at its own place, every other row is kept. */
  ghost predicate RowsAfter(before: seq<Row>, entry: Row, after: seq<Row>) {
    && |before| <= |after|
    && (forall i :: 0 <= i < |before| && Fits(before[i], entry) ==> Union(before[i], entry, after[i]))
    && (forall i :: 0 <= i < |before| && !Fits(before[i], entry) ==> after[i] == before[i])
  }

  ghost predicate FitsNone(rows: seq<Row>, entry: Row) {
    forall i :: 0 <= i < |rows| ==> !Fits(rows[i], entry)
  }

  /** The entry is added as a row exactly when it fits none. */
  ghost predicate OneEntry(before: seq<Row>, entry: Row, after: seq<Row>) {
    && RowsAfter(before, entry, after)
    && (FitsNone(before, entry) ==> |after| == |before| + 1 && after[|before|] == entry)
    && (!FitsNone(before, entry) ==> |after| == |before|)
  }

  lemma FitsIsMatches(row: Row, entry: Row)
    ensures Fits(row, entry) <==> Matches(row, entry)
  {
  }

  lemma WiderIsUnion(row: Row, entry: Row)
    requires Fits(row, entry)
    ensures Union(row, entry, Augment(row, entry))
  {
    FitsIsMatches(row, entry);
  }

  lemma AddedIff(rows: seq<Row>, entry: Row)
    ensures FitsNone(rows, entry) <==> !MatchesSome(rows, entry)
  {
    forall i | 0 <= i < |rows| ensures Fits(rows[i], entry) <==> Matches(rows[i], entry) {
      FitsIsMatches(rows[i], entry);
    }
  }

  /** One include entry: what becomes of every row, and when a row is added. */
  lemma IncludeOneEntry(rows: seq<Row>, entry: Row)
    ensures OneEntry(rows, entry, Include(rows, entry))
  {
    var after := Include(rows, entry);
    AddedIff(rows, entry);
    forall i | 0 <= i < |rows|
      ensures Fits(rows[i], entry) ==> Union(rows[i], entry, after[i])
      ensures !Fits(rows[i], entry) ==> after[i] == rows[i]
    {
      FitsIsMatches(rows[i], entry);
      assert after[i] == Augment(rows[i], entry);
      if Fits(rows[i], entry) {
        WiderIsUnion(rows[i], entry);
      }
    }
  }

  lemma UnionIsOne(row: Row, entry: Row, a: Row, b: Row)
    requires Union(row, entry, a) && Union(row, entry, b)
    ensures a == b
  {
    assert a.Keys == b.Keys;
  }

  /** Nothing about the rows after one entry is left open. */
  lemma OneEntryIsOne(rows: seq<Row>, entry: Row, a: seq<Row>, b: seq<Row>)
    requires OneEntry(rows, entry, a) && OneEntry(rows, entry, b)
    ensures a == b
  {
    forall i | 0 <= i < |rows| ensures a[i] == b[i] {
      if Fits(rows[i], entry) {
        UnionIsOne(rows[i], entry, a[i], b[i]);
      }
    }
  }

  /** The lists of rows between the entries, the first before all of them, the last after all. */
  ghost predicate Stages(rows: seq<Row>, entries: seq<Row>, stages: seq<seq<Row>>) {
    && |stages| == |entries| + 1
    && stages[0] == rows
    && forall n :: 0 <= n < |entries| ==> OneEntry(stages[n], entries[n], stages[n + 1])
  }

  lemma StagesFront(rows: seq<Row>, entries: seq<Row>, stages: seq<seq<Row>>)
    requires entries != [] && Stages(rows, entries, stages)
    ensures Stages(rows, entries[..|entries| - 1], stages[..|entries|])
  {
    var less, front := entries[..|entries| - 1], stages[..|entries|];
    forall n | 0 <= n < |less| ensures OneEntry(front[n], less[n], front[n + 1]) {
      assert OneEntry(stages[n], entries[n], stages[n + 1]);
    }
  }

  lemma StagesMore(rows: seq<Row>, entries: seq<Row>, stages: seq<seq<Row>>, after: seq<Row>)
    requires entries != [] && Stages(rows, entries[..|entries| - 1], stages)
    requires OneEntry(stages[|entries| - 1], entries[|entries| - 1], after)
    ensures Stages(rows, entries, stages + [after])
  {
    var less, all := entries[..|entries| - 1], stages + [after];
    forall n | 0 <= n < |entries| ensures OneEntry(all[n], entries[n], all[n + 1]) {
      if n < |less| {
        assert OneEntry(stages[n], less[n], stages[n + 1]);
      }
    }
  }

  /** The whole include list: its entries are merged or added one after the other, in order. */
  lemma {:induction false} IncludeByStages(rows: seq<Row>, entries: seq<Row>) returns (stages: seq<seq<Row>>)
    ensures Stages(rows, entries, stages) && stages[|entries|] == IncludeAll(rows, entries)
    decreases |entries|
  {
    if entries == [] {
      stages := [rows];
    } else {
      var n := |entries| - 1;
      stages := IncludeByStages(rows, entries[..n]);
      var after := Include(stages[n], entries[n]);
      IncludeOneEntry(stages[n], entries[n]);
      StagesMore(rows, entries, stages, after);
      stages := stages + [after];
    }
  }

  /** And there is no other result of doing so. */
  lemma {:induction false} IncludeIsDetermined(rows: seq<Row>, entries: seq<Row>, stages: seq<seq<Row>>)
    requires Stages(rows, entries, stages)
    ensures stages[|entries|] == IncludeAll(rows, entries)
    decreases |entries|
  {
    if entries != [] {
      var n := |entries| - 1;
      StagesFront(rows, entries, stages);
      IncludeIsDetermined(rows, entries[..n], stages[..n + 1]);
      IncludeOneEntry(stages[n], entries[n]);
      assert OneEntry(stages[n], entries[n], stages[n + 1]);
      OneEntryIsOne(stages[n], entries[n], stages[n + 1], IncludeAll(rows, entries));
    }
  }

  /** The pattern and the row have all of the pattern in common. */
  ghost predicate Within(pattern: Row, row: Row) {
    forall k :: k in pattern ==> k in row && row[k] == pattern[k]
  }

  lemma ExcludedMeans(row: Row, patterns: seq<Row>)
    ensures Excluded(row, patterns) <==> exists p :: p in patterns && Within(p, row)
  {
    if Excluded(row, patterns) {
      var p :| p in patterns && Submap(p, row);
      assert Within(p, row);
    }
    if exists p :: p in patterns && Within(p, row) {
      var p :| p in patterns && Within(p, row);
      assert Submap(p, row);
    }
  }

  /**
   * The whole expansion: nothing for an empty matrix; otherwise the combinations
   * of the axes go through the include list, and of the result exactly the rows
   * that hold no exclude pattern stay, in order.
   */
  lemma ExpansionIsRight(m: Matrix) returns (stages: seq<seq<Row>>, at: seq<nat>)
    ensures m.axes == [] && m.includes == [] ==> Expand(m) == []
    ensures Stages(Cross(m.axes), m.includes, stages)
    ensures m.axes != [] || m.includes != [] ==>
              |at| == |Expand(m)| && Increasing(at) && forall j :: 0 <= j < |at| ==> at[j] < |stages[|m.includes|]| && Expand(m)[j] == stages[|m.includes|][at[j]]
    ensures forall i :: 0 <= i < |stages[|m.includes|]| ==> (i in at <==> forall p :: p in m.excludes ==> !Within(p, stages[|m.includes|][i]))
  {
    stages := IncludeByStages(Cross(m.axes), m.includes);
    var rows := Included(m);
    KeepIsExact(rows, m.excludes);
    at :| KeptAt(rows, m.excludes, Keep(rows, m.excludes), at);
    forall i | 0 <= i < |rows| ensures i in at <==> forall p :: p in m.excludes ==> !Within(p, rows[i]) {
      ExcludedMeans(rows[i], m.excludes);
    }
  }

  lemma Determined(rows: seq<Row>, entry: Row, after: seq<Row>)
    requires OneEntry(rows, entry, after)
    ensures Include(rows, entry) == after
  {
    IncludeOneEntry(rows, entry);
    OneEntryIsOne(rows, entry, Include(rows, entry), after);
  }

  /** Two systems and an include entry with an extra key: one row is widened and none added. */
  lemma ExtraKeyIsMerged()
    ensures var linux: Row, mac: Row := map["os" := "linux"], map["os" := "mac"];
            Include([linux, mac], map["os" := "linux", "gpu" := "yes"]) == [map["os" := "linux", "gpu" := "yes"], mac]
  {
    var linux: Row, mac: Row, entry: Row := map["os" := "linux"], map["os" := "mac"], map["os" := "linux", "gpu" := "yes"];
    assert "os" in entry && linux["os"] == entry["os"];
    assert Fits(linux, entry);
    assert mac["os"] != "linux";
    assert !Fits(mac, entry) by {
      assert "os" in entry && "os" in mac && mac["os"] != entry["os"];
    }
    assert !FitsNone([linux, mac], entry) by {
      assert [linux, mac][0] == linux;
    }
    Determined([linux, mac], entry, [entry, mac]);
  }
}
