/**
 * The version-diff engine of `main`: collect each runtime's pallet list,
 * order the runtime versions numerically, report the changes between
 * neighbouring versions, and find the pallets present in every version.
 *
 * What the connection and the historical state queries return is given
 * here as a sequence of snapshots, one per upgrade point, in the order of
 * the upgrade list.
 */
module DiffEngine {
  import opened Sequences
  import opened Text
  import opened VersionOrder
  import opened PalletDiff

  /**
   * What one upgrade point yields: the upgrade's block number, the runtime's
   * `specVersion` at that block and the pallet names `Object.keys(apiAt.query)`.
   */
  datatype Snapshot = Snapshot(block: nat, specVersion: nat, pallets: seq<string>)

  /** The versions of the snapshots, in collection order. */
  function SpecVersions(snaps: seq<Snapshot>): (vs: seq<nat>)
    ensures |vs| == |snaps|
    ensures forall k :: 0 <= k < |snaps| ==> vs[k] == snaps[k].specVersion
  {
    seq(|snaps|, k requires 0 <= k < |snaps| => snaps[k].specVersion)
  }

  /**
   * `palletData[v]` after the collection loop: the pallets of the LAST
   * snapshot whose version is `v`, since a later assignment to the same key
   * overwrites an earlier one.
   */
  function LastPallets(snaps: seq<Snapshot>, v: nat): seq<string>
    requires v in SpecVersions(snaps)
    decreases |snaps|
  {
    var n := |snaps| - 1;
    if snaps[n].specVersion == v then snaps[n].pallets
    else
      assert SpecVersions(snaps) == SpecVersions(snaps[..n]) + [snaps[n].specVersion];
      LastPallets(snaps[..n], v)
  }

  /** Last write wins: the value kept for `v` comes from its final occurrence. */
  lemma {:induction false} LastWriteWins(snaps: seq<Snapshot>, v: nat)
    requires v in SpecVersions(snaps)
    ensures exists k :: 0 <= k < |snaps| && snaps[k].specVersion == v
              && LastPallets(snaps, v) == snaps[k].pallets
              && forall j :: k < j < |snaps| ==> snaps[j].specVersion != v
    decreases |snaps|
  {
    var n := |snaps| - 1;
    if snaps[n].specVersion != v {
      assert SpecVersions(snaps) == SpecVersions(snaps[..n]) + [snaps[n].specVersion];
      LastWriteWins(snaps[..n], v);
      var k :| 0 <= k < n && snaps[..n][k].specVersion == v
                && LastPallets(snaps[..n], v) == snaps[..n][k].pallets
                && forall j :: k < j < n ==> snaps[..n][j].specVersion != v;
      assert snaps[k].specVersion == v && LastPallets(snaps, v) == snaps[k].pallets;
    }
  }

  /** With distinct versions nothing is overwritten: each snapshot's pallets are kept. */
  lemma DistinctVersionsKeepAll(snaps: seq<Snapshot>, k: nat)
    requires NoDup(SpecVersions(snaps))
    requires k < |snaps|
    ensures LastPallets(snaps, snaps[k].specVersion) == snaps[k].pallets
  {
    var vs, v := SpecVersions(snaps), snaps[k].specVersion;
    assert vs[k] == v;
    LastWriteWins(snaps, v);
    var k' :| 0 <= k' < |snaps| && snaps[k'].specVersion == v
              && LastPallets(snaps, v) == snaps[k'].pallets
              && forall j :: k' < j < |snaps| ==> snaps[j].specVersion != v;
    assert vs[k'] == v;
    assert k' == k by {
      assert !(k' < k);
      assert !(k < k') by { assert NoDup(vs); }
    }
  }

  /** The progress line printed as each snapshot is collected. */
  function ProgressLine(s: Snapshot): string {
    "Runtime " + NatToString(s.specVersion) + " at block " + NatToString(s.block)
      + " has " + NatToString(|s.pallets|) + " pallets"
  }

  /**
   * The progress line states its snapshot: the three numbers it prints,
   * after `Runtime `, `at block ` and `has `, parse back to the version,
   * the block number and the number of pallets.
   */
  lemma ProgressLineReadBack(s: Snapshot)
    ensures var line := ProgressLine(s);
            var v, b, c := NatToString(s.specVersion), NatToString(s.block), NatToString(|s.pallets|);
            var vAt := |"Runtime "|;
            var bAt := vAt + |v| + |" at block "|;
            var cAt := bAt + |b| + |" has "|;
            && cAt + |c| <= |line|
            && line[vAt..vAt + |v|] == v && ParseDecimal(line[vAt..vAt + |v|]) == s.specVersion
            && line[bAt..bAt + |b|] == b && ParseDecimal(line[bAt..bAt + |b|]) == s.block
            && line[cAt..cAt + |c|] == c && ParseDecimal(line[cAt..cAt + |c|]) == |s.pallets|
  {
    var v, b, c := NatToString(s.specVersion), NatToString(s.block), NatToString(|s.pallets|);
    var beforeB := "Runtime " + v + " at block ";
    var beforeC := beforeB + b + " has ";
    assert ProgressLine(s) == "Runtime " + v + (" at block " + b + " has " + c + " pallets");
    assert ProgressLine(s) == beforeB + b + (" has " + c + " pallets");
    assert ProgressLine(s) == beforeC + c + " pallets";
    SliceOfMiddle("Runtime ", v, " at block " + b + " has " + c + " pallets");
    SliceOfMiddle(beforeB, b, " has " + c + " pallets");
    SliceOfMiddle(beforeC, c, " pallets");
    ParseNatToString(s.specVersion);
    ParseNatToString(s.block);
    ParseNatToString(|s.pallets|);
  }

  /**
   * The collection loop: `palletData[specVersion] = pallets`,
   * `runtimeVersions.push(specVersion)` and one progress line per snapshot.
   */
  method Collect(snaps: seq<Snapshot>) returns (palletData: map<nat, seq<string>>, runtimeVersions: seq<nat>, progress: seq<string>)
    ensures runtimeVersions == SpecVersions(snaps)
    ensures forall v :: v in palletData <==> v in runtimeVersions
    ensures forall v :: v in palletData ==> palletData[v] == LastPallets(snaps, v)
    ensures |progress| == |snaps|
    ensures forall k :: 0 <= k < |snaps| ==> progress[k] == ProgressLine(snaps[k])
  {
    palletData, runtimeVersions, progress := map[], [], [];
    for i := 0 to |snaps|
      invariant runtimeVersions == SpecVersions(snaps[..i])
      invariant forall v :: v in palletData <==> v in runtimeVersions
      invariant forall v :: v in palletData ==> palletData[v] == LastPallets(snaps[..i], v)
      invariant |progress| == i
      invariant forall k :: 0 <= k < i ==> progress[k] == ProgressLine(snaps[k])
    {
      var s := snaps[i];
      assert snaps[..i + 1][..i] == snaps[..i];
      assert SpecVersions(snaps[..i + 1]) == runtimeVersions + [s.specVersion];
      palletData := palletData[s.specVersion := s.pallets];
      runtimeVersions := runtimeVersions + [s.specVersion];
      progress := progress + [ProgressLine(s)];
    }
    assert snaps[..|snaps|] == snaps;
  }

  /**
   * The pair loop `for (let i = 1; i < runtimeVersions.length; i++)`: one
   * diff and one block of four report lines for each neighbouring pair of
   * `versions`, none when there are fewer than two versions.
   */
  method DiffAdjacent(versions: seq<nat>, palletData: map<nat, seq<string>>) returns (diffs: seq<PairDiff>, lines: seq<string>)
    requires forall v :: v in versions ==> v in palletData
    ensures |diffs| == if |versions| <= 1 then 0 else |versions| - 1
    ensures forall k :: 0 <= k < |diffs| ==>
              diffs[k] == Diff(versions[k], versions[k + 1], palletData[versions[k]], palletData[versions[k + 1]])
    ensures lines == ReportLines(diffs)
  {
    diffs, lines := [], [];
    var i := 1;
    while i < |versions|
      invariant 1 <= i <= if versions == [] then 1 else |versions|
      invariant |diffs| == i - 1
      invariant forall k :: 0 <= k < |diffs| ==>
                  diffs[k] == Diff(versions[k], versions[k + 1], palletData[versions[k]], palletData[versions[k + 1]])
      invariant lines == ReportLines(diffs)
    {
      var prevVersion, currVersion := versions[i - 1], versions[i];
      var d := Diff(prevVersion, currVersion, palletData[prevVersion], palletData[currVersion]);
      ReportLinesSnoc(diffs, d);
      diffs := diffs + [d];
      lines := lines + PairLines(d);
      i := i + 1;
    }
  }

  /** The pallet lists of `keys`, one after another. */
  function Concatenated(palletData: map<nat, seq<string>>, keys: seq<nat>): (all: seq<string>)
    requires forall v :: v in keys ==> v in palletData
    ensures forall x :: x in all <==> exists i :: 0 <= i < |keys| && x in palletData[keys[i]]
    decreases |keys|
  {
    if keys == [] then []
    else
      var init := keys[..|keys| - 1];
      assert keys == init + [keys[|keys| - 1]];
      Concatenated(palletData, init) + palletData[keys[|keys| - 1]]
  }

  /**
   * `pallets.forEach(pallet => allPallets.add(pallet))`: the set `allPallets`,
   * holding the distinct names of `seen` in first-appearance order, grows by
   * the names of `pallets` it does not hold yet, appended in their order.
   */
  method AddAll(allPallets: seq<string>, ghost seen: seq<string>, pallets: seq<string>) returns (grown: seq<string>)
    requires allPallets == Dedup(seen)
    ensures grown == Dedup(seen + pallets)
  {
    grown := allPallets;
    ghost var added := seen;
    assert seen + pallets[..0] == seen;
    for j := 0 to |pallets|
      invariant added == seen + pallets[..j]
      invariant grown == Dedup(added)
    {
      AddStep(grown, added, pallets[j]);
      if pallets[j] !in grown {
        grown := grown + [pallets[j]];
      }
      AppendTakeSnoc(seen, pallets, j);
      added := added + [pallets[j]];
    }
    assert pallets[..|pallets|] == pallets;
  }

  /** `allPallets.add(pallet)` on the Set of the names `seen`. */
  lemma AddStep(grown: seq<string>, seen: seq<string>, pallet: string)
    requires grown == Dedup(seen)
    ensures (if pallet in grown then grown else grown + [pallet]) == Dedup(seen + [pallet])
  {
    DedupSnoc(seen, pallet);
  }

  /**
   * `allPallets`: every pallet of every stored runtime added to one `Set`,
   * visiting `palletData`'s values in `keyOrder`, the ascending order of
   * the record's integer-like keys in which `Object.values` lists them.
   * The result holds each name that occurs in some stored list, once, in
   * order of first appearance.
   */
  method CollectAllPallets(palletData: map<nat, seq<string>>, keyOrder: seq<nat>) returns (allPallets: seq<string>)
    requires forall v :: v in keyOrder <==> v in palletData
    requires Ascending(keyOrder)
    ensures allPallets == Dedup(Concatenated(palletData, keyOrder))
    ensures forall x :: x in allPallets <==> exists v :: v in palletData && x in palletData[v]
    ensures NoDup(allPallets)
  {
    allPallets := [];
    for i := 0 to |keyOrder|
      invariant allPallets == Dedup(Concatenated(palletData, keyOrder[..i]))
    {
      assert keyOrder[..i + 1][..i] == keyOrder[..i];
      allPallets := AddAll(allPallets, Concatenated(palletData, keyOrder[..i]), palletData[keyOrder[i]]);
    }
    assert keyOrder[..|keyOrder|] == keyOrder;
    ConcatenatedCoversAll(palletData, keyOrder);
  }

  lemma ConcatenatedCoversAll(palletData: map<nat, seq<string>>, keyOrder: seq<nat>)
    requires forall v :: v in keyOrder <==> v in palletData
    ensures forall x :: x in Concatenated(palletData, keyOrder) <==> exists v :: v in palletData && x in palletData[v]
  {
    forall x | x in Concatenated(palletData, keyOrder)
      ensures exists v :: v in palletData && x in palletData[v]
    {
      var i :| 0 <= i < |keyOrder| && x in palletData[keyOrder[i]];
    }
    forall x, v | v in palletData && x in palletData[v]
      ensures x in Concatenated(palletData, keyOrder)
    {
      var i :| 0 <= i < |keyOrder| && keyOrder[i] == v;
    }
  }

  /** `runtimeVersions.every(version => palletData[version].includes(pallet))` */
  predicate InEveryVersion(palletData: map<nat, seq<string>>, versions: seq<nat>, pallet: string) {
    forall i :: 0 <= i < |versions| ==> versions[i] in palletData && pallet in palletData[versions[i]]
  }

  function EveryVersionIncludes(palletData: map<nat, seq<string>>, versions: seq<nat>): string -> bool
  {
    pallet => InEveryVersion(palletData, versions, pallet)
  }

  /**
   * `palletsInAllVersions`: the names of `allPallets` that every listed
   * runtime includes, in `allPallets`' order and without repeats.
   */
  function PalletsInAllVersions(allPallets: seq<string>, versions: seq<nat>, palletData: map<nat, seq<string>>): (r: seq<string>)
    ensures forall x :: x in r <==> x in allPallets && InEveryVersion(palletData, versions, x)
    ensures IsSubseq(r, allPallets)
    ensures NoDup(allPallets) ==> NoDup(r)
  {
    FilterIsSubseq(allPallets, EveryVersionIncludes(palletData, versions));
    FilterNoDup(allPallets, EveryVersionIncludes(palletData, versions));
    Filter(allPallets, EveryVersionIncludes(palletData, versions))
  }

  /**
   * Over the pallets of all stored runtimes, the persistent pallets are
   * exactly the names every listed version includes.
   */
  lemma PersistentIsIntersection(allPallets: seq<string>, versions: seq<nat>, palletData: map<nat, seq<string>>)
    requires forall v :: v in versions ==> v in palletData
    requires forall x :: x in allPallets <==> exists v :: v in palletData && x in palletData[v]
    ensures versions != [] ==> forall x :: x in PalletsInAllVersions(allPallets, versions, palletData) <==>
              forall i :: 0 <= i < |versions| ==> x in palletData[versions[i]]
  {
    if versions != [] {
      forall x | forall i :: 0 <= i < |versions| ==> x in palletData[versions[i]]
        ensures x in allPallets
      {
        assert x in palletData[versions[0]];
      }
    }
  }

  /** For a single runtime, the persistent pallets are that runtime's own list without repeats. */
  lemma PersistentOfSingleVersion(palletData: map<nat, seq<string>>, v: nat)
    requires v in palletData
    ensures PalletsInAllVersions(Dedup(palletData[v]), [v], palletData) == Dedup(palletData[v])
  {
    FilterAll(Dedup(palletData[v]), EveryVersionIncludes(palletData, [v]));
  }

  /**
   * Two runtimes listing the same names in opposite orders: the persistent
   * names come out in the order the first runtime lists them.
   */
  lemma PersistentOrderExample(palletData: map<nat, seq<string>>)
    requires palletData == map[1 := ["a", "b"], 2 := ["b", "a"]]
    ensures PalletsInAllVersions(Dedup(Concatenated(palletData, [1, 2])), [1, 2], palletData) == ["a", "b"]
  {
    OrderExampleConcatenated(palletData);
    OrderExampleDedup();
    FilterAll(["a", "b"], EveryVersionIncludes(palletData, [1, 2]));
  }

  lemma OrderExampleConcatenated(palletData: map<nat, seq<string>>)
    requires palletData == map[1 := ["a", "b"], 2 := ["b", "a"]]
    ensures Concatenated(palletData, [1, 2]) == ["a", "b", "b", "a"]
  {
    var keys: seq<nat> := [1, 2];
    assert keys[..1] == [1] && keys[..1][..0] == [];
    assert Concatenated(palletData, [1]) == ["a", "b"];
  }

  lemma OrderExampleDedup()
    ensures Dedup(["a", "b", "b", "a"]) == ["a", "b"]
  {
    OrderExampleDedupPrefix();
    DedupSnoc(["a", "b"], "b");
    assert ["a", "b"] + ["b"] == ["a", "b", "b"];
    DedupSnoc(["a", "b", "b"], "a");
    assert ["a", "b", "b"] + ["a"] == ["a", "b", "b", "a"];
  }

  lemma OrderExampleDedupPrefix()
    ensures Dedup(["a", "b"]) == ["a", "b"]
  {
    DedupSnoc([], "a");
    assert [] + ["a"] == ["a"];
    DedupSnoc(["a"], "b");
    assert ["a"] + ["b"] == ["a", "b"];
  }

  /**
   * Runtime 100 with pallets A, B, C followed by runtime 101 with B, C, D:
   * the pallets present in both are B and C, in that order.
   */
  lemma ThreePalletPersistentExample(palletData: map<nat, seq<string>>)
    requires palletData == map[100 := ["A", "B", "C"], 101 := ["B", "C", "D"]]
    ensures PalletsInAllVersions(Dedup(Concatenated(palletData, [100, 101])), [100, 101], palletData) == ["B", "C"]
  {
    var keys: seq<nat> := [100, 101];
    assert keys[..1] == [100] && keys[..1][..0] == [];
    assert Concatenated(palletData, [100]) == ["A", "B", "C"];
    assert Concatenated(palletData, keys) == ["A", "B", "C"] + ["B", "C", "D"] == ["A", "B", "C", "B", "C", "D"];
    ThreePalletAllPallets();
    ThreePalletFilter(palletData);
  }

  lemma ThreePalletAllPallets()
    ensures Dedup(["A", "B", "C", "B", "C", "D"]) == ["A", "B", "C", "D"]
  {
    ThreePalletAllPalletsPrefix();
    DedupSnoc(["A", "B", "C", "B", "C"], "D");
    assert ["A", "B", "C", "B", "C"] + ["D"] == ["A", "B", "C", "B", "C", "D"];
  }

  lemma ThreePalletAllPalletsPrefix()
    ensures Dedup(["A", "B", "C", "B", "C"]) == ["A", "B", "C"]
  {
    ThreePalletAllPalletsRepeat();
    DedupSnoc(["A", "B", "C", "B"], "C");
    assert ["A", "B", "C", "B"] + ["C"] == ["A", "B", "C", "B", "C"];
  }

  lemma ThreePalletAllPalletsRepeat()
    ensures Dedup(["A", "B", "C", "B"]) == ["A", "B", "C"]
  {
    var abc: seq<string> := ["A", "B", "C"];
    assert NoDup(abc);
    DedupOfNoDup(abc);
    DedupSnoc(abc, "B");
    assert abc + ["B"] == ["A", "B", "C", "B"];
  }

  lemma ThreePalletFilter(palletData: map<nat, seq<string>>)
    requires palletData == map[100 := ["A", "B", "C"], 101 := ["B", "C", "D"]]
    ensures Filter(["A", "B", "C", "D"], EveryVersionIncludes(palletData, [100, 101])) == ["B", "C"]
  {
    var test := EveryVersionIncludes(palletData, [100, 101]);
    var vs: seq<nat> := [100, 101];
    assert !test("A") by { assert vs[1] == 101 && "A" !in palletData[vs[1]]; }
    assert test("B") && test("C");
    assert !test("D") by { assert vs[0] == 100 && "D" !in palletData[vs[0]]; }
    var s: seq<string> := ["A", "B", "C", "D"];
    assert s[..3] == ["A", "B", "C"] && s[..3][..2] == ["A", "B"] && s[..3][..2][..1] == ["A"];
    assert Filter(["A"], test) == [];
    assert Filter(["A", "B"], test) == ["B"];
    assert Filter(["A", "B", "C"], test) == ["B", "C"];
  }

  /** The closing two lines: the count headline and the persistent names. */
  function SummaryLines(versionCount: nat, persistent: seq<string>): (lines: seq<string>)
    ensures |lines| == 2
  {
    ["\nPallets present in all " + NatToString(versionCount) + " runtime versions ("
       + NatToString(|persistent|) + "):",
     Join(persistent, ", ")]
  }

  /**
   * The summary states its counts and its names: the two numbers of the
   * headline parse back to the number of versions and of persistent names,
   * and the second line splits back into the persistent names, provided
   * there is at least one and none contains a comma.
   */
  lemma SummaryLinesReadBack(versionCount: nat, persistent: seq<string>)
    ensures var head, v, p := SummaryLines(versionCount, persistent)[0], NatToString(versionCount), NatToString(|persistent|);
            var vAt := |"\nPallets present in all "|;
            var pAt := vAt + |v| + |" runtime versions ("|;
            && pAt + |p| <= |head|
            && head[vAt..vAt + |v|] == v && ParseDecimal(head[vAt..vAt + |v|]) == versionCount
            && head[pAt..pAt + |p|] == p && ParseDecimal(head[pAt..pAt + |p|]) == |persistent|
    ensures |persistent| > 0 && (forall k :: 0 <= k < |persistent| ==> ',' !in persistent[k])
            ==> SplitNames(SummaryLines(versionCount, persistent)[1]) == persistent
  {
    var v, p := NatToString(versionCount), NatToString(|persistent|);
    var beforeP := "\nPallets present in all " + v + " runtime versions (";
    var head := SummaryLines(versionCount, persistent)[0];
    assert head == "\nPallets present in all " + v + (" runtime versions (" + p + "):");
    assert head == beforeP + p + "):";
    SliceOfMiddle("\nPallets present in all ", v, " runtime versions (" + p + "):");
    SliceOfMiddle(beforeP, p, "):");
    ParseNatToString(versionCount);
    ParseNatToString(|persistent|);
    if |persistent| > 0 && (forall k :: 0 <= k < |persistent| ==> ',' !in persistent[k]) {
      SplitJoin(persistent);
    }
  }

  /** Everything one run computes; `lines` is the whole printed report. */
  datatype Report = Report(
    progress: seq<string>,
    palletData: map<nat, seq<string>>,
    versions: seq<nat>,
    diffs: seq<PairDiff>,
    persistent: seq<string>,
    lines: seq<string>)

  /** `pallet` is in the final pallet list of every collected version. */
  predicate InAllSnapshots(snaps: seq<Snapshot>, pallet: string) {
    forall k :: 0 <= k < |snaps| ==> pallet in LastPallets(snaps, SpecVersions(snaps)[k])
  }

  /**
   * `main` once the snapshots are in hand: collect them, sort the versions
   * in place, report every neighbouring pair, then the pallets present in
   * all versions. `Object.values(palletData)` visits a record's integer-like
   * keys in ascending numeric order, which is the sorted version list
   * without repeats.
   */
  method Run(snaps: seq<Snapshot>) returns (rep: Report)
    ensures |rep.progress| == |snaps|
    ensures forall k :: 0 <= k < |snaps| ==> rep.progress[k] == ProgressLine(snaps[k])
    ensures |rep.versions| == |snaps|
    ensures forall v :: v in rep.palletData <==> v in SpecVersions(snaps)
    ensures forall v :: v in rep.palletData ==> rep.palletData[v] == LastPallets(snaps, v)
    ensures forall v :: v in rep.versions <==> v in SpecVersions(snaps)
    ensures Sorted(rep.versions) && multiset(rep.versions) == multiset(SpecVersions(snaps))
    ensures |rep.diffs| == if |snaps| <= 1 then 0 else |snaps| - 1
    ensures forall k :: 0 <= k < |rep.diffs| ==>
              rep.diffs[k] == Diff(rep.versions[k], rep.versions[k + 1],
                                   rep.palletData[rep.versions[k]], rep.palletData[rep.versions[k + 1]])
    ensures forall x :: x in rep.persistent <==>
              snaps != [] && InAllSnapshots(snaps, x)
    ensures NoDup(rep.persistent)
    ensures snaps == [] ==> rep.diffs == [] && rep.persistent == []
    ensures |snaps| == 1 ==> rep.persistent == Dedup(snaps[0].pallets)
    ensures |snaps| >= 2 ==> forall x :: x in rep.persistent <==>
              forall k :: 0 <= k < |rep.diffs| ==> x in rep.diffs[k].stayed
    ensures rep.persistent == PalletsInAllVersions(Dedup(Concatenated(rep.palletData, Dedup(rep.versions))),
                                                   rep.versions, rep.palletData)
    ensures rep.lines == rep.progress + ReportLines(rep.diffs) + SummaryLines(|snaps|, rep.persistent)
  {
    var palletData, collected, progress := Collect(snaps);
    var versions := SortedCopy(collected);
    var diffs, pairLines, persistent := Analyse(palletData, versions);
    if snaps != [] {
      forall x ensures x in persistent <==> InAllSnapshots(snaps, x) {
        EveryVersionIsEverySnapshot(snaps, palletData, versions, x);
      }
    }
    if |snaps| == 1 {
      assert SpecVersions(snaps) == [snaps[0].specVersion];
      assert versions[0] == snaps[0].specVersion;
    }
    rep := Report(progress, palletData, versions, diffs, persistent, progress + pairLines + SummaryLines(|snaps|, persistent));
  }

  /**
   * Everything `main` does after sorting: the pair loop with its report
   * lines, then `allPallets` and `palletsInAllVersions`, over the stored
   * pallet lists `palletData` and the sorted `versions`.
   */
  method Analyse(palletData: map<nat, seq<string>>, versions: seq<nat>)
      returns (diffs: seq<PairDiff>, pairLines: seq<string>, persistent: seq<string>)
    requires forall v :: v in palletData <==> v in versions
    requires Sorted(versions)
    ensures |diffs| == if |versions| <= 1 then 0 else |versions| - 1
    ensures forall k :: 0 <= k < |diffs| ==>
              diffs[k] == Diff(versions[k], versions[k + 1], palletData[versions[k]], palletData[versions[k + 1]])
    ensures pairLines == ReportLines(diffs)
    ensures forall x :: x in persistent <==>
              versions != [] && forall i :: 0 <= i < |versions| ==> x in palletData[versions[i]]
    ensures NoDup(persistent)
    ensures versions == [] ==> persistent == []
    ensures |versions| == 1 ==> persistent == Dedup(palletData[versions[0]])
    ensures persistent == PalletsInAllVersions(Dedup(Concatenated(palletData, Dedup(versions))), versions, palletData)
    ensures |versions| >= 2 ==> forall x :: x in persistent <==>
              forall k :: 0 <= k < |diffs| ==> x in diffs[k].stayed
  {
    diffs, pairLines := DiffAdjacent(versions, palletData);
    persistent := FindPersistent(palletData, versions);
    if |versions| >= 2 {
      PersistentIsChainOfStayed(palletData, versions, persistent, diffs);
    }
  }

  /**
   * `allPallets` followed by `palletsInAllVersions`: the distinct names of
   * all stored runtimes, in order of first appearance, that every version
   * includes.
   */
  method FindPersistent(palletData: map<nat, seq<string>>, versions: seq<nat>) returns (persistent: seq<string>)
    requires forall v :: v in palletData <==> v in versions
    requires Sorted(versions)
    ensures forall x :: x in persistent <==>
              versions != [] && forall i :: 0 <= i < |versions| ==> x in palletData[versions[i]]
    ensures NoDup(persistent)
    ensures versions == [] ==> persistent == []
    ensures |versions| == 1 ==> persistent == Dedup(palletData[versions[0]])
    ensures persistent == PalletsInAllVersions(Dedup(Concatenated(palletData, Dedup(versions))), versions, palletData)
  {
    DedupOfSortedIsAscending(versions);
    var allPallets := CollectAllPallets(palletData, Dedup(versions));
    persistent := PalletsInAllVersions(allPallets, versions, palletData);
    PersistentIsIntersection(allPallets, versions, palletData);
    if versions == [] {
      assert forall x :: x !in allPallets;
    } else if |versions| == 1 {
      var v := versions[0];
      assert versions == [v] && Dedup(versions) == [v];
      assert [v][..0] == [];
      assert Concatenated(palletData, [v]) == palletData[v];
      PersistentOfSingleVersion(palletData, v);
    }
  }

  /**
   * With two or more versions, the names every version includes are the
   * names every neighbouring pair retained.
   */
  lemma PersistentIsChainOfStayed(palletData: map<nat, seq<string>>, versions: seq<nat>,
                                  persistent: seq<string>, diffs: seq<PairDiff>)
    requires forall v :: v in versions ==> v in palletData
    requires |versions| >= 2 && |diffs| == |versions| - 1
    requires forall k :: 0 <= k < |diffs| ==>
               diffs[k] == Diff(versions[k], versions[k + 1], palletData[versions[k]], palletData[versions[k + 1]])
    requires forall x :: x in persistent <==> forall i :: 0 <= i < |versions| ==> x in palletData[versions[i]]
    ensures forall x :: x in persistent <==> forall k :: 0 <= k < |diffs| ==> x in diffs[k].stayed
  {
    forall x ensures x in persistent <==> forall k :: 0 <= k < |diffs| ==> x in diffs[k].stayed {
      if forall k :: 0 <= k < |diffs| ==> x in diffs[k].stayed {
        forall i | 0 <= i < |versions| ensures x in palletData[versions[i]] {
          var k := if i < |versions| - 1 then i else i - 1;
          assert x in diffs[k].stayed;
          assert diffs[k].stayed == Stayed(palletData[versions[k]], palletData[versions[k + 1]]);
        }
      }
      if x in persistent {
        forall k | 0 <= k < |diffs| ensures x in diffs[k].stayed {
          assert x in palletData[versions[k]] && x in palletData[versions[k + 1]];
        }
      }
    }
  }

  /** `runtimeVersions.sort(...)` on an array holding the collected versions. */
  method SortedCopy(collected: seq<nat>) returns (versions: seq<nat>)
    ensures |versions| == |collected|
    ensures Sorted(versions) && multiset(versions) == multiset(collected)
    ensures forall v :: v in versions <==> v in collected
  {
    var a := new nat[|collected|](i requires 0 <= i < |collected| => collected[i]);
    assert a[..] == collected;
    SortVersions(a);
    versions := a[..];
    SameElements(versions, collected);
    assert |versions| == |multiset(versions)| == |multiset(collected)| == |collected|;
  }

  /** Sequences with the same multiset have the same members. */
  lemma SameElements(a: seq<nat>, b: seq<nat>)
    requires multiset(a) == multiset(b)
    ensures forall v :: v in a <==> v in b
  {
    forall v ensures v in a <==> v in b {
      assert v in a <==> v in multiset(a);
      assert v in b <==> v in multiset(b);
    }
  }

  /** Quantifying over the sorted versions is quantifying over the snapshots. */
  lemma EveryVersionIsEverySnapshot(snaps: seq<Snapshot>, palletData: map<nat, seq<string>>, versions: seq<nat>, x: string)
    requires forall v :: v in palletData <==> v in SpecVersions(snaps)
    requires forall v :: v in palletData ==> palletData[v] == LastPallets(snaps, v)
    requires forall v :: v in versions <==> v in SpecVersions(snaps)
    ensures (forall i :: 0 <= i < |versions| ==> x in palletData[versions[i]]) <==> InAllSnapshots(snaps, x)
  {
    var vs := SpecVersions(snaps);
    if forall i :: 0 <= i < |versions| ==> x in palletData[versions[i]] {
      forall k | 0 <= k < |snaps| ensures x in LastPallets(snaps, vs[k]) {
        assert vs[k] in versions;
        var i :| 0 <= i < |versions| && versions[i] == vs[k];
      }
    }
    if InAllSnapshots(snaps, x) {
      forall i | 0 <= i < |versions| ensures x in palletData[versions[i]] {
        assert versions[i] in vs;
        var k :| 0 <= k < |snaps| && vs[k] == versions[i];
      }
    }
  }
}
