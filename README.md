# Pallet diff engine

This is a model of the version-diff engine in `index.ts`. The script takes a chain's runtime upgrade points and reads, for each one, the runtime's `specVersion` and the names of its pallets (runtime modules). It then:

1. records the names under their version, with the last write winning, and pushes each version onto a list;
2. sorts that list numerically, in place;
3. for every pair of neighbouring versions, computes the pallets that were removed, added and retained, and prints a block of four lines;
4. gathers every pallet name of the stored lists (an overwritten list contributes nothing) and prints the ones that every listed version includes.

The network part is given here as input: the connection, the block-hash lookups and the historical state queries. The model receives a sequence of `Snapshot(block, specVersion, pallets)` values, one per upgrade point, in the upgrade list's order. Each `console.log` call becomes one string in a sequence of report lines.

Modules:

- `Sequences` (`sequences.dfy`) holds the JavaScript collection idioms.
  - `Dedup` stands for `[...new Set(list)]`: first occurrences, in order.
  - `Filter` stands for `Array.prototype.filter`.
  - There are lemmas on order (`IsSubseq`), duplicates and counts.
- `Text` (`text.dfy`) holds the string conversions.
  - It has decimal rendering and parsing of naturals, and `join(', ')`.
  - It proves that a joined list of names splits back into the same list.
- `VersionOrder` (`version_order.dfy`) holds the in-place numeric sort of the version array.
  - The sort is proved to give a sorted permutation.
  - Any sorted permutation is shown to be unique.
- `PalletDiff` (`pallet_diff.dfy`) covers one step of the pair loop.
  - `removed`, `added` and `stayed` have their set identities.
  - It also builds the four report lines per pair.
- `DiffEngine` (`engine.dfy`) holds `main`'s loops and the whole run.
  - It collects with last-write-wins, sorts, diffs neighbouring pairs and computes `allPallets` and `palletsInAllVersions`.

Versions are natural numbers. The code stores `specVersion.toString()` and compares the strings with `parseInt(a) - parseInt(b)`. `Text.ParseNatToString` and `Text.ComparatorIsNumeric` show that this orders the strings exactly as the integers they stand for. `Text.NatToStringInjective` shows that keying the record by string is keying it by number.

A version can repeat. The code does not reject that:

- `palletData[v]` keeps the last snapshot's pallets (`DiffEngine.LastPallets`).
- `runtimeVersions` keeps both entries.

So a repeated version yields a pair that compares a list with itself. The summary line counts `runtimeVersions.length`, repeats included. The model follows this behaviour.

Names keep the order in which they first appear: `removed` and `stayed` follow the previous version's list, `added` follows the current one, and the persistent names follow their first appearance over the stored lists in ascending version order. Line 67 prints every retained name, without a cap. A repeated version overwrites its stored list; nothing rejects it.

## Model

| member | source | states |
|---|---|---|
| Sequences.Dedup | index.ts:41-42 | `[...new Set(list)]` holds exactly the members of the list, without repeats, and is no longer than the list |
| Sequences.DedupIsSubseq | index.ts:41-42 | a Set spread keeps the list's order: the result is a subsequence of the input |
| Sequences.DedupOfNoDup | index.ts:41-42 | a list without repeats passes through a Set unchanged |
| Sequences.DedupSnoc | index.ts:73 | `Set.add` of one more name appends the name exactly when the Set does not hold it yet |
| Sequences.Filter | index.ts:45-51 | `filter(p)` keeps exactly the elements satisfying `p`, and is no longer than its input |
| Sequences.FilterIsSubseq | index.ts:45-51 | `filter` preserves order: its result is a subsequence of its input |
| Sequences.FilterNoDup | index.ts:45-51 | filtering a repeat-free list leaves it repeat-free |
| Sequences.FilterAll | index.ts:76-78 | when every element passes the test, `filter` returns its input unchanged |
| Sequences.FilterSplitCount | index.ts:45-51 | a filter and its negation together account for every element of the input |
| Text.NatToString | index.ts:25 | `toString()` of a natural is a non-empty run of decimal digits without a leading zero |
| Text.ParseDecimal | index.ts:34 | `parseInt` of a string of decimal digits; `ParseNatToString` states that it inverts `NatToString` |
| Text.ParseNatToString | index.ts:34 | `parseInt(n.toString())` gives back `n` |
| Text.NatToStringInjective | index.ts:27 | two versions have the same string key exactly when they are the same number |
| Text.ComparatorIsNumeric | index.ts:34 | the sort comparator's value on two version strings is the difference of the integers |
| Text.Join | index.ts:56 | `join` of one name is that name, and of no names is the empty string |
| Text.SplitJoin | index.ts:56 | a non-empty list of comma-free names is recovered exactly by splitting its `join(', ')` |
| VersionOrder.DedupOfSortedIsAscending | index.ts:72 | the distinct versions of a sorted list are strictly increasing, the order `Object.values` visits integer keys |
| VersionOrder.SortVersions | index.ts:34 | the version array is sorted non-decreasingly in place and holds the same versions, with multiplicity |
| VersionOrder.SortedPermutationUnique | index.ts:34 | two sorted arrangements of the same versions are equal, so the sorted order does not depend on the algorithm |
| PalletDiff.Absent | index.ts:45-48 | the filter test `pallet => !other.has(pallet)` itself; `Removed` and `Added` state what filtering by it keeps |
| PalletDiff.Present | index.ts:51 | the filter test `pallet => other.has(pallet)` itself; `Stayed` states what filtering by it keeps |
| PalletDiff.Removed | index.ts:45 | `removed` holds exactly the names of `prev` not in `curr`, without repeats, in `prev`'s de-duplicated order |
| PalletDiff.Added | index.ts:48 | `added` holds exactly the names of `curr` not in `prev`, without repeats, in `curr`'s de-duplicated order |
| PalletDiff.Stayed | index.ts:51 | `stayed` holds exactly the names in both lists, without repeats, in `prev`'s de-duplicated order |
| PalletDiff.Diff | index.ts:41-51 | removed and retained make up the names of `prev`; added and retained make up those of `curr`; retained is the intersection; removed and added are disjoint |
| PalletDiff.DiffCounts | index.ts:45-51 | the removed and retained counts add up to the number of distinct names of `prev` |
| PalletDiff.ThreePalletExample | index.ts:41-51 | versions 100 (A, B, C) and 101 (B, C, D) give removed A, added D, retained B and C |
| PalletDiff.RemovedExample | index.ts:45 | the removed part of that example is exactly A |
| PalletDiff.AddedExample | index.ts:48 | the added part of that example is exactly D |
| PalletDiff.StayedExample | index.ts:51 | the retained part of that example is exactly B, C |
| PalletDiff.ListingCountReadBack | index.ts:56 | the digits after `<Kind> pallets (` parse back to the number of names listed |
| PalletDiff.ListingNamesReadBack | index.ts:56 | the text after `): ` splits back into exactly the names listed, when none contains a comma |
| PalletDiff.Listing | index.ts:56-67 | the shared line shape `<Kind> pallets (<count>): <names>` of lines 56, 62 and 67; what it reads back to is stated by `ListingCountReadBack` and `ListingNamesReadBack` |
| PalletDiff.RemovedLine | index.ts:55-59 | the removed line is the fixed "No pallets were removed" exactly when nothing was removed, and otherwise the count-and-names listing |
| PalletDiff.AddedLine | index.ts:61-65 | the added line is the fixed "No pallets were added" exactly when nothing was added, and otherwise the count-and-names listing |
| PalletDiff.RetainedLine | index.ts:67 | the retained line is always the count-and-names listing, even with nothing retained |
| PalletDiff.HeaderLine | index.ts:53 | the header line of a pair, naming both versions |
| PalletDiff.HeaderLineReadBack | index.ts:53 | the numbers after `Changes from runtime ` and after ` to ` parse back to the two versions |
| PalletDiff.PairLines | index.ts:53-67 | each pair prints four lines, whose second and third are the fixed texts exactly when the removed and added lists are empty |
| PalletDiff.ReportLines | index.ts:37-68 | the pair loop prints four lines per pair |
| PalletDiff.ReportLinesBlock | index.ts:37-68 | lines 4k to 4k+3 of the pair report are exactly the k-th pair's block |
| PalletDiff.ReportLinesSnoc | index.ts:53-67 | one more pair appends exactly its four-line block to the report |
| DiffEngine.SpecVersions | index.ts:28 | the pushed versions are the snapshots' versions, one per snapshot, in collection order |
| DiffEngine.LastPallets | index.ts:27 | the list `palletData[v]` holds after the collection loop; `LastWriteWins` states that it is the final occurrence's |
| DiffEngine.ProgressLine | index.ts:30 | the progress line printed for one snapshot |
| DiffEngine.ProgressLineReadBack | index.ts:30 | the three numbers of the progress line parse back to the snapshot's version, block number and pallet count |
| DiffEngine.LastWriteWins | index.ts:27 | the pallets stored for a version are those of its final occurrence among the snapshots |
| DiffEngine.DistinctVersionsKeepAll | index.ts:27 | when no version repeats, every snapshot's pallets are stored unchanged |
| DiffEngine.Collect | index.ts:21-31 | the collection loop pushes every version in order, stores a key exactly for the versions seen with their last pallets, and prints one progress line per snapshot |
| DiffEngine.DiffAdjacent | index.ts:37-68 | the pair loop yields `n - 1` diffs for `n` versions, none for fewer than two; the k-th compares versions k and k+1; its lines are the pairs' blocks in order |
| DiffEngine.Concatenated | index.ts:72-73 | a name occurs in the stored lists visited in a key order exactly when some visited key's list holds it |
| DiffEngine.AddAll | index.ts:73 | adding a list's names one by one to the Set gives the Set of the names seen so far followed by that list |
| DiffEngine.AddStep | index.ts:73 | one `allPallets.add(pallet)` turns the Set of the names seen into the Set of those names followed by `pallet` |
| DiffEngine.CollectAllPallets | index.ts:71-74 | `allPallets` is the first-appearance de-duplication of the stored lists in ascending key order; it holds exactly the names of some stored list, once each |
| DiffEngine.ConcatenatedCoversAll | index.ts:71-74 | visiting every key collects exactly the names of every stored list |
| DiffEngine.InEveryVersion | index.ts:77 | `runtimeVersions.every(version => palletData[version].includes(pallet))` |
| DiffEngine.EveryVersionIncludes | index.ts:76-77 | the filter test of line 76 itself, built on `InEveryVersion`; `PalletsInAllVersions` states what filtering by it keeps |
| DiffEngine.PalletsInAllVersions | index.ts:76-78 | `palletsInAllVersions` holds exactly the names of `allPallets` that every listed version includes, in `allPallets`' order, without repeats when `allPallets` has none |
| DiffEngine.PersistentIsIntersection | index.ts:76-78 | with at least one version, a name is persistent exactly when every version's list includes it |
| DiffEngine.PersistentOfSingleVersion | index.ts:76-78 | for a single version the persistent pallets are that version's list without repeats |
| DiffEngine.PersistentIsChainOfStayed | index.ts:51 | with two or more versions, a name is in every version's list exactly when every neighbouring pair retained it |
| DiffEngine.FindPersistent | index.ts:71-78 | the persistent names are `palletsInAllVersions` over `allPallets` gathered in ascending key order, so their printed order is fixed; they are exactly those every version includes, without repeats; none for no versions; one version's de-duplicated list for a single version |
| DiffEngine.PersistentOrderExample | index.ts:71-81 | runtimes 1 (a, b) and 2 (b, a) give the persistent names a, b in that order: the order of first appearance over ascending keys |
| DiffEngine.OrderExampleConcatenated | index.ts:72-73 | visiting keys 1 then 2 of that record yields a, b, b, a |
| DiffEngine.OrderExampleDedup | index.ts:71-73 | adding a, b, b, a to an empty Set leaves a, b |
| DiffEngine.OrderExampleDedupPrefix | index.ts:71-73 | adding a, b to an empty Set leaves a, b |
| DiffEngine.ThreePalletPersistentExample | index.ts:71-78 | runtimes 100 (A, B, C) and 101 (B, C, D) have persistent pallets B, C, in that order |
| DiffEngine.ThreePalletAllPallets | index.ts:71-74 | for that example `allPallets` is A, B, C, D |
| DiffEngine.ThreePalletAllPalletsPrefix | index.ts:71-74 | adding A, B, C, B, C to an empty Set leaves A, B, C |
| DiffEngine.ThreePalletAllPalletsRepeat | index.ts:71-74 | adding A, B, C, B to an empty Set leaves A, B, C |
| DiffEngine.ThreePalletFilter | index.ts:76-78 | filtering A, B, C, D by presence in both runtimes leaves B, C |
| DiffEngine.SummaryLines | index.ts:80-81 | the summary is two lines; what they read back to is stated by `SummaryLinesReadBack` |
| DiffEngine.SummaryLinesReadBack | index.ts:80-81 | the two numbers of the headline parse back to the number of versions and of persistent names, and the second line splits back into the persistent names when there is at least one and none contains a comma |
| DiffEngine.SortedCopy | index.ts:34 | sorting the collected versions gives a non-decreasing permutation of them, of the same length and with the same members |
| DiffEngine.EveryVersionIsEverySnapshot | index.ts:76-77 | every sorted version including a name is every snapshot's version including it |
| DiffEngine.Analyse | index.ts:37-81 | over the stored lists and sorted versions: the pair diffs and their lines, and the persistent names in `allPallets`' order, with their empty, single-version and chain-of-retained characterisations |
| DiffEngine.Run | index.ts:17-81 | the whole run: progress lines, the stored record (a key per collected version, holding its last-written list), a sorted permutation of all collected versions, one diff per neighbouring pair over the stored lists, the persistent names in the order line 81 prints them (exactly those in every snapshot's final list, none without snapshots, the de-duplicated list of a lone snapshot, the names every pair retained), and the full report |

## Left out

- The connection set-up with `ApiPromise`, `WsProvider` and `api.isReady` (index.ts:5-9) is left out. It is network I/O.
- Block-hash resolution with `Promise.all` over `getBlockHash` (index.ts:11-15) is left out. It is a batch of concurrent remote calls.
- The historical state queries `api.at`, `Object.keys(apiAt.query)` and `getRuntimeVersion` (index.ts:22-25) are left out. They are foreign library calls, and their results are the `Snapshot` input.
- `console.log` and `console.error` side effects, and `process.exit` (index.ts:30, 53-67, 80-81, 84), are not modelled as effects. The printed text is modelled as sequences of lines.
- `parseInt` on a non-numeric string, where the comparator yields NaN, is left out. The code only feeds it `toString()` output of integers, which `Text.ParseNatToString` covers.
- `VersionOrder.SortVersions` is an insertion sort. The engine's sort algorithm is not specified and is not modelled. Only its outcome is: a sorted permutation, which `VersionOrder.SortedPermutationUnique` shows is unique.
- `CollectAllPallets` visits the stored lists in ascending numeric key order. A JavaScript engine does this only for keys below 2^32 - 1; larger integer-like keys are visited in insertion order. This changes only the order of `allPallets` and of the persistent names, not which names they hold.
- DiffEngine.SummaryLines: its contract states only that the summary is two lines; its text is its definition. `SummaryLinesReadBack` states what the numbers and names in that text read back to.
- PalletDiff.Listing, PalletDiff.RetainedLine, PalletDiff.HeaderLine and DiffEngine.ProgressLine: they have no contract of their own; their text is their definition. `ListingCountReadBack`, `ListingNamesReadBack`, `HeaderLineReadBack` and `ProgressLineReadBack` state what the numbers and names in that text read back to.
- DiffEngine.LastPallets, DiffEngine.InEveryVersion, DiffEngine.EveryVersionIncludes, PalletDiff.Absent, PalletDiff.Present and Text.ParseDecimal: they have no contract of their own. `LastWriteWins` states what `LastPallets` holds; `InEveryVersion`, `EveryVersionIncludes`, `Absent` and `Present` are the filter tests themselves, and `Removed`, `Added`, `Stayed` and `PalletsInAllVersions` state what filtering by them keeps; `ParseNatToString` states that `ParseDecimal` inverts `NatToString`.
- `PalletDiff.ListingNamesReadBack`, `DiffEngine.SummaryLinesReadBack` and `Text.SplitJoin` need pallet names without commas for the names to split back. Pallet names are identifiers.
- `new Set(undefined)` and `palletData[version].includes` on a missing key do not occur. Every sorted version has a stored list: `Collect` stores every key it pushes, and `DiffAdjacent` and `Analyse` require that.
- The code has no name sorting, no cap on the retained list and no duplicate-version error, so the model has none either.
