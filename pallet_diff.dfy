/**
 * One step of the diff loop: the pallets removed, added and retained
 * between two neighbouring runtime versions, and the four report lines
 * printed for that pair.
 */
module PalletDiff {
  import opened Sequences
  import opened Text

  /** The result of comparing runtime `fromVersion` with `toVersion`. */
  datatype PairDiff = PairDiff(
    fromVersion: nat,
    toVersion: nat,
    removed: seq<string>,
    added: seq<string>,
    stayed: seq<string>)

  /** The filter tests `pallet => !other.has(pallet)` and `pallet => other.has(pallet)`. */
  function Absent(other: seq<string>): string -> bool
  {
    x => x !in other
  }

  function Present(other: seq<string>): string -> bool
  {
    x => x in other
  }

  /**
   * `[...prevPallets].filter(pallet => !currPallets.has(pallet))`: the
   * distinct names of `prev` missing from `curr`, in `prev`'s order.
   */
  function Removed(prev: seq<string>, curr: seq<string>): (r: seq<string>)
    ensures forall x :: x in r <==> x in prev && x !in curr
    ensures NoDup(r) && IsSubseq(r, Dedup(prev))
  {
    FilterNoDup(Dedup(prev), Absent(curr));
    FilterIsSubseq(Dedup(prev), Absent(curr));
    Filter(Dedup(prev), Absent(curr))
  }

  /**
   * `[...currPallets].filter(pallet => !prevPallets.has(pallet))`: the
   * distinct names of `curr` missing from `prev`, in `curr`'s order.
   */
  function Added(prev: seq<string>, curr: seq<string>): (r: seq<string>)
    ensures forall x :: x in r <==> x in curr && x !in prev
    ensures NoDup(r) && IsSubseq(r, Dedup(curr))
  {
    FilterNoDup(Dedup(curr), Absent(prev));
    FilterIsSubseq(Dedup(curr), Absent(prev));
    Filter(Dedup(curr), Absent(prev))
  }

  /**
   * `[...prevPallets].filter(pallet => currPallets.has(pallet))`: the
   * distinct names found in both lists, in `prev`'s order.
   */
  function Stayed(prev: seq<string>, curr: seq<string>): (r: seq<string>)
    ensures forall x :: x in r <==> x in prev && x in curr
    ensures NoDup(r) && IsSubseq(r, Dedup(prev))
  {
    FilterNoDup(Dedup(prev), Present(curr));
    FilterIsSubseq(Dedup(prev), Present(curr));
    Filter(Dedup(prev), Present(curr))
  }

  /**
   * The comparison of runtime `from`, with pallets `prev`, and runtime `to`,
   * with pallets `curr`. Removed and retained partition the distinct names
   * of `prev`, added and retained those of `curr`, and nothing is both
   * removed and added.
   */
  function Diff(from: nat, to: nat, prev: seq<string>, curr: seq<string>): (d: PairDiff)
    ensures d.fromVersion == from && d.toVersion == to
    ensures Elements(d.removed) + Elements(d.stayed) == Elements(prev)
    ensures Elements(d.added) + Elements(d.stayed) == Elements(curr)
    ensures Elements(d.stayed) == Elements(prev) * Elements(curr)
    ensures Elements(d.removed) !! Elements(d.added)
  {
    PairDiff(from, to, Removed(prev, curr), Added(prev, curr), Stayed(prev, curr))
  }

  /** Every distinct name of `prev` is counted once, as removed or as retained. */
  lemma {:induction false} DiffCounts(prev: seq<string>, curr: seq<string>)
    ensures |Removed(prev, curr)| + |Stayed(prev, curr)| == |Dedup(prev)|
  {
    FilterSplitCount(Dedup(prev), Present(curr), Absent(curr));
  }

  const NoneRemoved: string := "No pallets were removed"
  const NoneAdded: string := "No pallets were added"

  /** The common shape `<Kind> pallets (<count>): <names joined by ", ">`. */
  function Listing(kind: string, names: seq<string>): string {
    kind + " pallets (" + NatToString(|names|) + "): " + Join(names, ", ")
  }

  /**
   * A listing states its count: the digits after `<Kind> pallets (` parse
   * back to the number of names.
   */
  lemma ListingCountReadBack(kind: string, names: seq<string>)
    ensures var line, digits := Listing(kind, names), NatToString(|names|);
            var start := |kind| + |" pallets ("|;
            && start + |digits| <= |line|
            && line[start..start + |digits|] == digits
            && ParseDecimal(line[start..start + |digits|]) == |names|
  {
    var pre, digits, mid, tail := kind + " pallets (", NatToString(|names|), "): ", Join(names, ", ");
    assert Listing(kind, names) == pre + digits + mid + tail;
    PiecesOfConcat(pre, digits, mid, tail);
    ParseNatToString(|names|);
  }

  /**
   * A listing states its names: the text after `): ` splits back into the
   * names, provided there is at least one and none contains a comma.
   */
  lemma ListingNamesReadBack(kind: string, names: seq<string>)
    requires |names| > 0
    requires forall k :: 0 <= k < |names| ==> ',' !in names[k]
    ensures var line := Listing(kind, names);
            var start := |kind| + |" pallets ("| + |NatToString(|names|)| + |"): "|;
            && start <= |line|
            && SplitNames(line[start..]) == names
  {
    var pre, digits, mid, tail := kind + " pallets (", NatToString(|names|), "): ", Join(names, ", ");
    assert Listing(kind, names) == pre + digits + mid + tail;
    PiecesOfConcat(pre, digits, mid, tail);
    SplitJoin(names);
  }

  /** The second and the last pieces of `a + b + c + d`, cut out by position. */
  lemma PiecesOfConcat(a: string, b: string, c: string, d: string)
    ensures (a + b + c + d)[|a|..|a| + |b|] == b
    ensures (a + b + c + d)[|a| + |b| + |c|..] == d
  {
  }

  /** The removed-pallets line: the fixed text exactly when nothing was removed. */
  function RemovedLine(removed: seq<string>): (line: string)
    ensures line == NoneRemoved <==> removed == []
    ensures removed != [] ==> line == Listing("Removed", removed)
  {
    if |removed| > 0 then
      var l := Listing("Removed", removed);
      assert l[0] == 'R';
      l
    else NoneRemoved
  }

  /** The added-pallets line: the fixed text exactly when nothing was added. */
  function AddedLine(added: seq<string>): (line: string)
    ensures line == NoneAdded <==> added == []
    ensures added != [] ==> line == Listing("Added", added)
  {
    if |added| > 0 then
      var l := Listing("Added", added);
      assert l[0] == 'A';
      l
    else NoneAdded
  }

  /** The retained-pallets line is printed as a listing even when it is empty. */
  function RetainedLine(stayed: seq<string>): string {
    Listing("Retained", stayed)
  }

  function HeaderLine(from: nat, to: nat): string {
    "\nChanges from runtime " + NatToString(from) + " to " + NatToString(to) + ":"
  }

  /**
   * The header states its pair: the numbers after `Changes from runtime `
   * and after ` to ` parse back to the two versions.
   */
  lemma HeaderLineReadBack(from: nat, to: nat)
    ensures var line, f, t := HeaderLine(from, to), NatToString(from), NatToString(to);
            var fAt := |"\nChanges from runtime "|;
            var tAt := fAt + |f| + |" to "|;
            && tAt + |t| <= |line|
            && line[fAt..fAt + |f|] == f && ParseDecimal(line[fAt..fAt + |f|]) == from
            && line[tAt..tAt + |t|] == t && ParseDecimal(line[tAt..tAt + |t|]) == to
  {
    var f, t := NatToString(from), NatToString(to);
    var beforeT := "\nChanges from runtime " + f + " to ";
    assert HeaderLine(from, to) == "\nChanges from runtime " + f + (" to " + t + ":");
    assert HeaderLine(from, to) == beforeT + t + ":";
    SliceOfMiddle("\nChanges from runtime ", f, " to " + t + ":");
    SliceOfMiddle(beforeT, t, ":");
    ParseNatToString(from);
    ParseNatToString(to);
  }

  /** The four lines printed for one pair, in order. */
  function PairLines(d: PairDiff): (lines: seq<string>)
    ensures |lines| == 4
    ensures lines[1] == NoneRemoved <==> d.removed == []
    ensures lines[2] == NoneAdded <==> d.added == []
  {
    [HeaderLine(d.fromVersion, d.toVersion), RemovedLine(d.removed), AddedLine(d.added), RetainedLine(d.stayed)]
  }

  /** Every pair's block of four lines, one after another. */
  function ReportLines(diffs: seq<PairDiff>): (lines: seq<string>)
    ensures |lines| == 4 * |diffs|
    decreases |diffs|
  {
    if diffs == [] then []
    else
      ReportLines(diffs[..|diffs| - 1]) + PairLines(diffs[|diffs| - 1])
  }

  /** The k-th pair's block sits at lines 4k to 4k+3, so the blocks come in pair order. */
  lemma {:induction false} ReportLinesBlock(diffs: seq<PairDiff>, k: nat)
    requires k < |diffs|
    ensures ReportLines(diffs)[4 * k..4 * k + 4] == PairLines(diffs[k])
    decreases |diffs|
  {
    var init := diffs[..|diffs| - 1];
    var front, last := ReportLines(init), PairLines(diffs[|diffs| - 1]);
    assert ReportLines(diffs) == front + last;
    if k < |diffs| - 1 {
      ReportLinesBlock(init, k);
      SliceOfFront(front, last, 4 * k, 4 * k + 4);
    } else {
      SliceOfBack(front, last);
    }
  }

  lemma ReportLinesSnoc(diffs: seq<PairDiff>, d: PairDiff)
    ensures ReportLines(diffs + [d]) == ReportLines(diffs) + PairLines(d)
  {
    assert (diffs + [d])[..|diffs|] == diffs;
  }

  /**
   * Runtime 100 with pallets A, B, C followed by runtime 101 with B, C, D:
   * A was removed, D added, B and C retained.
   */
  lemma ThreePalletExample()
    ensures Diff(100, 101, ["A", "B", "C"], ["B", "C", "D"]) == PairDiff(100, 101, ["A"], ["D"], ["B", "C"])
  {
    var prev, curr := ["A", "B", "C"], ["B", "C", "D"];
    RemovedExample(prev, curr);
    AddedExample(prev, curr);
    StayedExample(prev, curr);
  }

  lemma RemovedExample(prev: seq<string>, curr: seq<string>)
    requires prev == ["A", "B", "C"] && curr == ["B", "C", "D"]
    ensures Removed(prev, curr) == ["A"]
  {
    assert NoDup(prev);
    DedupOfNoDup(prev);
    assert prev[..2] == ["A", "B"] && prev[..2][..1] == ["A"];
    assert Filter(["A"], Absent(curr)) == ["A"];
    assert Filter(["A", "B"], Absent(curr)) == ["A"];
  }

  lemma AddedExample(prev: seq<string>, curr: seq<string>)
    requires prev == ["A", "B", "C"] && curr == ["B", "C", "D"]
    ensures Added(prev, curr) == ["D"]
  {
    assert NoDup(curr);
    DedupOfNoDup(curr);
    assert curr[..2] == ["B", "C"] && curr[..2][..1] == ["B"];
    assert Filter(["B"], Absent(prev)) == [];
    assert Filter(["B", "C"], Absent(prev)) == [];
  }

  lemma StayedExample(prev: seq<string>, curr: seq<string>)
    requires prev == ["A", "B", "C"] && curr == ["B", "C", "D"]
    ensures Stayed(prev, curr) == ["B", "C"]
  {
    assert NoDup(prev);
    DedupOfNoDup(prev);
    assert prev[..2] == ["A", "B"] && prev[..2][..1] == ["A"];
    assert Filter(["A"], Present(curr)) == [];
    assert Filter(["A", "B"], Present(curr)) == ["B"];
  }
}
