# Verse numbering: a Dafny model of comparing, resolving and caching

The repository compares Bible versification schemes, resolves verse references from one numbering to
another, and caches the results. This project models the parts of it that carry real logic and proves
what they promise. Sources are named by path and line.

## Divergence engine

`Refs`, `Catalog`, `Sorting`, `Schemes` and `SchemeLoading` hold verses, the book order, stable sorting and
schemes loaded from mapping lines. `DisjointSets`, `Composition` and `CompositionRun` compose two schemes
through a shared root with union-find and read off connected components. `Lis`, `Classification` and
`ClassificationRun` split alternate forms, type each relation and find order inversions with a longest
non-decreasing subsequence. `Grouping`, `Runs`, `Events` and `EventsRun` encode the outcome as ladder rows
and grouped events, `Bridges`, `BookFolds` and `EventList` complete the event list, and `Comparison` runs the
pipeline. `ComponentLaws`, `ScanLaws`, `PieceLaws`, `AlternateLaws`, `ClassificationLaws`, `SelfComparison`,
`SelfEvents`, `SideSwap`, `ComponentSwap` and `SwapLaws` hold the results. The theory takes the book order as
a parameter, so it holds for every order; `Catalog` has the shipped one.

Some results are exact conditions rather than the plain law one would expect:

- Splitting alternate forms picks side A when the sides share no book and both span several books, so the
  comparison of two schemes mirrors under an exchange of sides exactly when no component is like that
  (`SwapLaws.FirstPassMirrorsIff`). The `no_org_anchor` code goes to side A whenever side A lists a verse
  (`SideSwap.FirstPassCodesSwapIff`).
- A scheme compared with itself has no typed relation, but it can have events: a bridge whose verses are
  joined to something that is no bridge, or joined verses with different parts. There is no event exactly
  when neither occurs (`Comparison.SelfExplained`).
- Splitting loses the verses of a book that only one side has, when all books of the other side are shared
  (`AlternateLaws.SplitLosesIff`).

## Coordinate resolver

`References` and `Coordinates` parse and print references; `RelationAlgebra`, `Cover` and `Walking` are the
relations, the single hop and the walk over a chain. `Hulls` closes the many-to-many hull, `HullResults`
shapes its result, `RangeHulls` handles unequal zip ranges, and `Resolving` assembles the answer.
`ResultShape` and `RoundTrip` hold the results. `Derivation` and `Milestones` produce the rows the resolver
consumes. A hull's pivots are iterated as a set, so the pivot that labels a connector is left free: the
methods are proved against relations, and the results hold for every choice.

Chain round trips need each hop to return its verse (`RoundTrip.ReturnsAll`). For a single hop that is
exact. For longer chains it is sufficient only (`RoundTrip.ReturnsAllNotNecessary`): the descent through a
later hop can move a verse onto its own coordinate.

## Precomputed index and report cache

`IndexStores` has the index tables and the request-side operations; `IndexProtocol` interleaves requests,
input changes, crashes, recovery, sweeps and the steps of the one lock-holding worker. Each stretch between
two commits is one atomic step. A mapping row is modelled by the inputs its payload was resolved from, so
"up to date" means resolved from the current inputs of both sides. `BuildLogs` keeps, for a run, which build
wrote each row and since when. `IndexCoherence`, `IndexReclaims`, `StaleBuild` and `BatchAnswers` hold the
results. `Reports` and `ReportProtocol` do the same for the report
cache.

Three promises hold only under a condition:

- The index is never stale while every input change requeues the indexes it affects. A change that no hook
  sees is repaired by the next sweep, except exactly when it falls between the step that opened the pair of a
  row and the end of the same build: the fingerprint is taken when the build ends, so it covers inputs that
  the rows opened earlier do not (`IndexCoherence.SweptStaleIff`, `StaleBuild.UnseenChangeDuringBuildIsServed`).
- A batch answer with the index equals the answer without it unless the reference has surrounding
  whitespace and a payload is stored: the key lookup trims, the live parser does not
  (`BatchAnswers.BatchAgreesWithLive`).
- A superseded compute never writes while claims lock their rows in the order of their digests. A claim that
  locks late lets one write an outdated report; a digest that recurs lets one write a report that looks current
  (`ReportProtocol.LateClaimLetsSupersededWrite`, `ReturningDigestLetsSupersededWrite`). What only growing
  digests give in any case is that a current report was computed from current inputs
  (`ReportProtocol.CurrentReportIsCurrent`).

`SpanLookup` relates the preloaded span tables to the scanning finder, and `FailedAuth` relates the bounded
failure store to the full history.

Python's sets and dictionaries whose iteration order is observable are modelled by arbitrary choice or by
sequences in insertion order; clocks, random ids and the heartbeat test are parameters; the database is a
record of maps and sets.

## Model

| member | source | states |
|---|---|---|
| Refs.SpanRoundTrip | frvt/divergence/refs.py:37-48 | The span of consecutive verses of one chapter decodes to exactly those verses. |
| Catalog.RearrangedCodesTie | frvt/divergence/catalog.py:115-124 | Unknown codes made of the same letters in any order always tie, so the sort key is not injective and sorting has to be stable. |
| Sorting.SortSorts | frvt/divergence/compose.py:105-107 | Sorting by position yields an ordered permutation. |
| Sorting.SortIsStable | frvt/divergence/runs.py:23-25 | Elements with one key keep their input order, for every key. |
| SchemeLoading.SchemeLoader.Add | frvt/divergence/scheme.py:83-133 | One mapping line leaves exactly the scheme the aligned pairs describe, and unparseable or reversed lines leave it alone. |
| SchemeLoading.AlignCovers | frvt/divergence/scheme.py:94-122 | Alignment of two ranges drops no verse of either side and invents none, for equal, one-to-many and uneven lengths. |
| SchemeLoading.LineKeeps | frvt/divergence/scheme.py:123-133 | Any line keeps the loaded scheme well formed: listed verses exist or are a verse 0, have distinct targets, and no target is a verse 0. |
| SchemeLoading.PairsMapped | frvt/divergence/scheme.py:123-133 | After loading, a verse maps to a target exactly when it did before or a storable pair of the line says so. |
| DisjointSets.DisjointSet.Find | frvt/divergence/compose.py:24-30 | Finding terminates, halves paths without changing the partition or the links, and returns the representative of the node. |
| DisjointSets.DisjointSet.Union | frvt/divergence/compose.py:32-36 | Joining two nodes adds exactly their link and keeps the forest valid. |
| DisjointSets.SameRepIffConnected | frvt/divergence/compose.py:24-36 | Two nodes have one representative exactly when a path of unioned pairs connects them. |
| CompositionRun.ScanSide | frvt/divergence/compose.py:62-84 | The union loop over one side leaves the scan state that the verses and edges of that side define. |
| CompositionRun.ReadComponents | frvt/divergence/compose.py:98-102 | Grouping nodes by representative gives the connected components in order of their first node. |
| CompositionRun.ComposeSchemes | frvt/divergence/compose.py:43-142 | Composition of two schemes returns classified relations of their components, for any root or none. |
| ComponentLaws.ComponentsAreClasses | frvt/divergence/compose.py:98-102 | Every component is non-empty and holds exactly the nodes connected to its first one. |
| ComponentLaws.OneComponentEach | frvt/divergence/compose.py:62-102 | Every linked verse lies in exactly one component, together with exactly the nodes it is connected to. |
| ScanLaws.ScanBothSides | frvt/divergence/compose.py:62-84 | Participants and links of a side depend on that side only. |
| ScanLaws.ScanBothFlags | frvt/divergence/compose.py:72-83 | A verse carries the flags of its own edges and the missing-anchor flag, and no other verse's. |
| ScanLaws.ScanBothCollisions | frvt/divergence/compose.py:85-97 | A verse collides exactly when, on its own side, a default identity and an explicit mapping claim one root verse across chapters of one book. |
| Lis.LisKeep | frvt/divergence/classify.py:18-37 | The kept positions are a non-decreasing subsequence that no other one exceeds in length, over any total preorder. |
| Lis.WholeListKept | frvt/divergence/classify.py:18-37 | A list already in order is kept whole. |
| ClassificationLaws.PairMeans | frvt/divergence/classify.py:130-153 | When both sides are present, a relation has a type exactly when that type follows from its two verse lists: books spanned, chapters visited, one verse or several, verse 0, counts, segment flag; so the cases exclude each other. |
| ClassificationLaws.FirstPassMeans | frvt/divergence/classify.py:106-156 | When one side is absent: an exclusion exactly when that side lists verses, a one-sided type exactly when it lists none, no type exactly when both are absent; the approximate flag and the warning come with the types the source gives them to and no other. |
| ClassificationRun.RelationTable.Classify | frvt/divergence/classify.py:99-167 | In-place classification: a first pass on every relation, then for every A-side book exactly the relations off one longest backbone become inversions. |
| ClassificationRun.RelationTable.GroupByBook | frvt/divergence/classify.py:157-160 | Each bucket lists the two-sided relations of its book, in list order. |
| ClassificationLaws.KeptRelationsKeepOrder | frvt/divergence/classify.py:157-167 | Two relations of one A-side book that are no inversions stand in the same order on side B. |
| ClassificationLaws.FewestInversions | frvt/divergence/classify.py:157-167 | Removing the inversions of a book leaves it in B order, and no smaller removal does. |
| SelfComparison.SelfComparisonIsClean | frvt/divergence/compose.py:43-142 | A scheme compared with itself through any root, or none, has mirrored relations of no type and no inversion. |
| SideSwap.FirstPassSwaps | frvt/divergence/classify.py:106-156 | Exchanging the sides mirrors the first pass: merges and splits trade places, cardinalities reverse, everything but the warning code is equal. |
| SideSwap.FirstPassCodesSwapIff | frvt/divergence/classify.py:122-126 | The warning code mirrors exactly when its placement on side A is not a choice. |
| SideSwap.SplitSwapsIff | frvt/divergence/classify.py:40-96 | Splitting alternate forms mirrors piece for piece exactly when it does not have to pick one of two many-book sides with no common book. |
| AlternateLaws.SplitConserves | frvt/divergence/classify.py:40-96 | How often each verse of a component comes out of the split: a leftover never, a verse of an undivided side once for each book of the other, any other verse exactly once. |
| AlternateLaws.SplitLosesIff | frvt/divergence/classify.py:40-96 | A verse is lost exactly when the other side is not empty, lacks its book, and has no book that its own side lacks. |
| SwapLaws.ComponentTypesMirror | frvt/divergence/classify.py:106-156 | Every component has a mirror in the exchanged comparison, holding the same nodes with the sides exchanged, and the first pass gives it the mirrored type: merge and split trade places, cardinalities reverse, present verses, flags and warning follow. |
| SwapLaws.ComponentsPairOff | frvt/divergence/compose.py:62-140 | The mirror map is a bijection between the components of the two comparisons. |
| SwapLaws.ComposedMirrorsIff | frvt/divergence/compose.py:103-140 | The relations of the exchanged comparison are the mirrored ones, each as often, warning codes included and root order aside, exactly when no component makes the split choose one of two many-book sides. |
| SwapLaws.FirstPassMirrorsIff | frvt/divergence/classify.py:99-156 | The same condition is exact for the types, counts, flags and warnings of the first pass over the whole list. |
| Grouping.GroupsMaximal | frvt/divergence/events.py:240-280 | Greedy grouping loses and reorders nothing, links hold inside each group, and no two neighbouring groups could have been one. |
| Grouping.GroupsUnique | frvt/divergence/runs.py:26-65 | The greedy grouping is the only grouping with these properties. |
| Runs.BuildRuns | frvt/divergence/runs.py:16-80 | The row loop encodes the maximal groups of continuing relations in ladder order. |
| Runs.RowDecodes | frvt/divergence/runs.py:22-80 | A row of 1:1 relations has three single-chapter spans that decode to exactly its verse triples, and the type of each of them. |
| Runs.RowsAreLosslessAndMaximal | frvt/divergence/runs.py:22-65 | Concatenated rows give back all relations in ladder order, and no two neighbouring rows could have merged. |
| Runs.RowReadsBack | frvt/divergence/runs.py:16-80 | In any ladder, a row that opens with a 1:1 relation reads back to the coordinates and type of every relation in it, and any other row stands for one relation alone. |
| EventList.BuildEvents | frvt/divergence/events.py:174-316 | The grouping passes, the bridge and segment events and the folding of one-sided books follow one another, and the event types are written back. |
| EventsRun.ClassifiedKindsFit | frvt/divergence/events.py:230-290 | After classification exactly the one-sided types miss a side, so the two passes do not overlap. |
| EventsRun.EachTypedRelationOnce | frvt/divergence/events.py:230-314 | Each typed relation stands in exactly one group of exactly one pass, untyped relations in none. |
| EventsRun.ShiftEventDecodes | frvt/divergence/events.py:180-280 | An event of 1:1 renumber or title relations has two single-chapter spans of one length that decode to exactly its verse pairs. |
| Bridges.CrossIff | frvt/divergence/events.py:57-63 | Two present verses stand across from each other exactly when some relation holds both. |
| Bridges.AddBridges | frvt/divergence/events.py:65-98 | The loop yields one event, in order, for every bridge whose counterpart is empty or no bridge of the other side. |
| Bridges.AddSegments | frvt/divergence/events.py:99-119 | The loop yields one event for each pair of facing verses with different parts, keys in insertion order; its check for pairs seen before never fires. |
| BookFolds.FoldBookOneSided | frvt/divergence/events.py:122-171 | Removing one-sided events one by one and appending book events computes the fold of both sides. |
| BookFolds.FoldsIff | frvt/divergence/events.py:122-171 | A book gets its own event exactly when the other scheme lacks it and its one-sided events cover at least half of it, whatever was folded before. |
| EventList.BookEventIff | frvt/divergence/events.py:122-171 | The same in the finished event list of any comparison. |
| Comparison.CompareSchemes | frvt/divergence/report.py:50-90 | The pipeline: some classification of the composed relations explains both the sorted events and the ladder rows returned. |
| SelfEvents.PresentTogetherIff | frvt/divergence/compose.py:62-140 | Compared with itself, a scheme puts two present verses in one relation exactly when they are of one book and its mappings connect them through root verses. |
| Comparison.SelfExplained | frvt/divergence/report.py:50-90 | A scheme compared with itself, through any root or none, has ladder rows of type SAME only, and has no event exactly when what every bridge is joined to is a bridge and joined verses have the same parts. |
| Comparison.SelfComparisonCanShow | frvt/divergence/events.py:50-119 | The condition is needed: a bridge over an excluded verse, and a part on one of two verses mapped to one root verse, show as events of a self-comparison. |
| References.MatchIff | frvt/resolver/parse_ref.py:13-18 | The matcher accepts exactly the spelled-out grammar, and a string has at most one reading. |
| References.ParseIff | frvt/resolver/parse_ref.py:37-65 | A reference denotes a range exactly when a grammatical reading does; reversed ranges denote nothing. |
| References.PrintParse | frvt/resolver/parse_ref.py:83-85 | Parsing a printed single verse gives it back. |
| References.PrintInjective | frvt/resolver/normalize.py:18-24 | Comparing printed verses is comparing coordinates, whatever the book code. |
| References.KeyIdempotent | frvt/api/indexing/keys.py:12-33 | An index key is its own key. |
| References.SharedKey | frvt/api/indexing/keys.py:12-33 | Two references share a key exactly when, trimmed, they parse to the same single verse. |
| Coordinates.ExpandMembers | frvt/resolver/parse_ref.py:68-94 | Expansion of a range holds exactly the whole verses the range covers. |
| RelationAlgebra.GroupingMattersIff | frvt/resolver/compose.py:54-69 | Composition of three legs depends on grouping in exactly the cases where a split and a merge cancel on one side only and the third leg is exposed. |
| RelationAlgebra.DominantRelation | frvt/resolver/compose.py:31-42 | The running best is the dominant relation of the list. |
| RelationAlgebra.DominantDominates | frvt/resolver/compose.py:31-42 | The dominant relation is the strongest non-identity relation present, and missing exactly when all are identity. |
| RelationAlgebra.PathIsDominant | frvt/resolver/compose.py:54-69 | Along a path, leg-by-leg composition is the dominant relation unless an unexcluded path both splits and merges. |
| Cover.CoveringIsNarrowest | frvt/resolver/cover.py:62-98 | A row is found exactly when one applies, and no applicable row is narrower or, at equal width, of lower ordinal. |
| Cover.FindCoveringRecord | frvt/resolver/cover.py:62-98 | Collecting candidates, sorting them and taking the head finds that row. |
| Cover.ProjectionShape | frvt/resolver/cover.py:163-241 | A hop yields verses unless it excludes, keeps the part, and gathers siblings, the verse among them, exactly for a merge. |
| Cover.DescentNeverExcludes | frvt/resolver/cover.py:163-241 | Descending through rows as derived never excludes. |
| Cover.ClimbExcludesIff | frvt/resolver/cover.py:163-182 | Climbing excludes exactly when the narrowest covering row is an exclusion, base-less merges included. |
| VerseOrder.OrderedUnique | frvt/resolver/walk.py:14-19 | A sorted list without repetition is determined by its set of verses. |
| VerseOrder.SortSet | frvt/resolver/walk.py:14-19 | Sorting a set lists exactly its verses in emission order. |
| Walking.ApplyHopsForward | frvt/resolver/walk.py:40-62 | The climbing loop, early exit included, computes the walk over all hops and the sorted siblings. |
| Walking.ApplyHopsDownward | frvt/resolver/walk.py:65-84 | The descending loop, early exit included, computes the walk over all hops. |
| Walking.WalkShape | frvt/resolver/walk.py:40-84 | A walk keeps the part, composes to exclude exactly when some branch was excluded, and only then can lose every verse. |
| Walking.DescentArrives | frvt/resolver/walk.py:93-102 | A descent through derived rows excludes nothing and always arrives somewhere. |
| Hulls.CloseHull | frvt/resolver/resolve.py:62-94 | The worklist terminates, whatever the order of pushes, with exactly the nodes reachable from the query under the four neighbour functions. |
| Hulls.ReachableIsLeast | frvt/resolver/resolve.py:69-94 | The reachable nodes are the least set that holds the query and is closed under the neighbour functions. |
| Hulls.ClosingVisit | frvt/resolver/resolve.py:75-94 | Visiting a node keeps the worklist invariant and shrinks the unseen part of a finite universe of coordinates. |
| HullResults.LinkPivots | frvt/resolver/resolve.py:143-171 | Every pair that some pivot joins is linked exactly once, with the legs of one such pivot. |
| HullResults.BuildHull | frvt/resolver/resolve.py:62-180 | The hull result is the exclusion, single, split, merge or complex shape that its reachable sources and targets call for. |
| HullResults.LegsNeverExclude | frvt/resolver/walk.py:111-136 | No connector is labelled an exclusion. |
| RangeHulls.FindRangeTrigger | frvt/resolver/range_hull.py:94-158 | The two walks find the first least unequal zip row on the path, and none for part queries. |
| RangeHulls.LeastIsLeast | frvt/resolver/range_hull.py:65-69 | The chosen trigger is a candidate that no other candidate undercuts in width, ordinal, side and hop. |
| RangeHulls.CornersFit | frvt/resolver/range_hull.py:249-274 | Corner connectors leave the first and last source only, point at listed targets, and are pairwise distinct. |
| RangeHulls.EmitCorners | frvt/resolver/range_hull.py:249-274 | The corner loop emits them all; its check for pairs seen before never fires. |
| RangeHulls.BuildRangeHull | frvt/resolver/range_hull.py:277-350 | The range path declines or returns the range or complex result of its participants. |
| Resolving.ShareBcvIff | frvt/resolver/normalize.py:18-24 | Two spans share their printed coordinate and part exactly when they are one verse. |
| Resolving.TakeStep | frvt/resolver/resolve.py:193-211 | One member is excluded, fans out, or goes straight to its targets. |
| Resolving.AtomicResult | frvt/resolver/resolve.py:183-242 | The member loop yields the atomic result, or the hull when a member fans out, relations differ or a side is not contiguous. |
| Resolving.Assemble | frvt/resolver/resolve.py:245-260 | A triggered range yields to a complex hull, a declined one to the atomic path, and the result is normalized. |
| ResultShape.AssembledShaped | frvt/resolver/resolve.py:62-260 | Every result has the query among its sources, is an exclusion exactly when it has no target, and has distinct connectors in range; a range result has at least two sources, unequal counts and one connector from each end. |
| ResultShape.ComplexHullConnected | frvt/resolver/resolve.py:143-180 | In a complex hull every target, and every source beyond the query, carries a connector. |
| ResultShape.RangeOutcomeShaped | frvt/resolver/range_hull.py:277-350 | Whatever trigger is chosen, the range result keeps that shape. |
| RoundTrip.HopReturnsIff | frvt/resolver/cover.py:122-160 | Up and down one hop of equal-length disjoint zip rows returns a whole verse exactly when a source covers it or no base does. |
| RoundTrip.ZipResolve | frvt/resolver/resolve.py:183-260 | Over zip chains a whole verse resolves to one verse under a zip relation, `one_to_one` when it lands on itself. |
| RoundTrip.ChainRoundTrip | frvt/resolver/resolve.py:245-260 | Through a zip chain of any length and back, a verse that every hop returns comes back as itself, `one_to_one`. |
| RoundTrip.HopRoundTripIff | frvt/resolver/resolve.py:245-260 | Over a single hop that condition is exact for the assembled result. |
| RoundTrip.ReturnsAllNotNecessary | frvt/resolver/cover.py:122-160 | Over several hops it is sufficient only: a two-hop chain returns a verse that its second hop alone would not. |
| Derivation.DerivedIff | frvt/ingest/derive_mappings.py:36-157 | A row is derived exactly when one of the five sources calls for it: a parsing pair listed neither as merged nor as split, an exclusion, a merge with the base mapped to it if any, a split that has one, or a part. |
| Derivation.OrdinalsFollowSources | frvt/ingest/derive_mappings.py:36-157 | Ordinals number the rows, and every row of an earlier source has a lower one: mapped pairs, exclusions, merges, splits, parts. |
| Derivation.DerivedRows | frvt/ingest/derive_mappings.py:36-157 | Every derived row that parses is of the kind the resolver assumes: exclusions have no base, only merges may otherwise lack one. |
| Milestones.ApplyCombinedMilestoneSplits | frvt/ingest/derive_combined_milestones.py:28-111 | The span loop grows mappings and splits by exactly the implied additions. |
| Milestones.ProjectedEnds | frvt/ingest/derive_combined_milestones.py:192-230 | The image of a covered milestone runs from the image of its first verse to that of its last, inside the base range. |
| Milestones.MappingsKept | frvt/ingest/derive_combined_milestones.py:28-111 | Existing mapping keys keep their base. |
| Milestones.ApplyTwice | frvt/ingest/derive_combined_milestones.py:28-111 | Applying the milestone splits twice is applying them once. |
| Milestones.AddedSplitDerivedOnce | frvt/ingest/derive_mappings.py:48-138 | Every added split anchor has a mapping, and derivation emits exactly one split row and no zip or merge row for it. |
| IndexStores.IndexRegistry.DeleteMappingChunk | frvt/api/indexing/registry.py:278-329 | Deletes only rows touching the index, at most a page per direction, and nothing exactly when nothing is left. |
| IndexStores.IndexRegistry.RetargetDefaultIndexes | frvt/api/indexing/invalidation.py:78-123 | At most one defaulted index moves, and only onto a free pair; otherwise nothing changes. |
| IndexStores.IndexRegistry.DrainReclaim | frvt/api/indexing/worker.py:88-111 | An entry of a live index is dropped untouched; otherwise at most a page of its rows per direction goes, some whenever some are left, and the entry only with the last of them. |
| IndexStores.IndexRegistry.SweepFingerprints | frvt/api/indexing/worker.py:151-181 | Queues exactly the ready indexes whose inputs moved or cannot be read. |
| IndexStores.IndexRegistry.FindReadyPair | frvt/api/indexing/lookup.py:27-63 | Returns two ready indexes of the asked pairs, and nothing only when a side has none. |
| IndexCoherence.CacheAgreesWithLive | frvt/api/indexing/builder.py:45-255 | In every run of requests, hooked changes, crashes and worker steps, a payload served for two ready indexes was resolved from their current inputs. |
| IndexCoherence.ServedOrigin | frvt/api/indexing/builder.py:45-255 | In every run a served payload was written for one of its two indexes in a build that has since finished, and from the step that opened the pair to the one that finished it the worker was on that build. |
| IndexCoherence.StaleIff | frvt/api/indexing/builder.py:45-255 | In every run a served payload is stale exactly when, since the step that opened its pair, a change moved the inputs of one of its indexes without queueing that index. |
| IndexCoherence.HookedRunMatches | frvt/api/indexing/invalidation.py:126-142 | When every change is hooked, no ready index ever falls behind its inputs, in any run. |
| IndexCoherence.MatchingStaleIff | frvt/api/indexing/builder.py:235-255 | With matching fingerprints on both sides a served payload is stale exactly when an unseen change of the built index fell between the step that opened its pair and the end of that same build. |
| IndexCoherence.SweptStaleIff | frvt/api/indexing/worker.py:151-181 | After a sweep that is exactly what can still be stale, in every run. |
| BuildLogs.MovedIffUnseen | frvt/api/indexing/invalidation.py:22-142 | While an index stays built, its inputs have moved exactly when some change went uncaught. |
| StaleBuild.UnseenChangeDuringBuildIsServed | frvt/api/indexing/builder.py:235-255 | Such a change can fall there: a run in which it is served stale with matching fingerprints after a sweep, because the fingerprint is taken when the build ends. |
| IndexReclaims.NoRowLeaks | frvt/api/indexing/registry.py:172-226 | In every reachable state each side of every mapping row is a live index or queued for reclaim. |
| IndexReclaims.LiveRowsStay | frvt/api/indexing/worker.py:88-111 | In every run a row whose two indexes stay live is lost only to a rebuild of one of them: neither reclaim nor a request takes it. |
| IndexReclaims.OneIndexPerPair | frvt/api/indexing/registry.py:131-169 | No run gives one translation and versification two indexes. |
| BatchAnswers.ResolveEntries | frvt/api/resolve_batch.py:172-220 | Each entry, in request order, is the usable stored payload of its key or else the live answer. |
| BatchAnswers.IndexedAnswerIff | frvt/api/resolve_batch.py:172-191 | Against an up-to-date row the answers with and without the index agree exactly when the reference has no surrounding whitespace. |
| BatchAnswers.BatchAgreesWithLive | frvt/api/resolve_batch.py:172-220 | In every hooked run, with and without a ready pair agree exactly when no payload is stored or the reference has no surrounding whitespace. |
| Reports.ReportRow.Claim | frvt/api/divergence/registry.py:34-78 | A claim keeps a ready, freshly running or pending row of the same digest and resets any other, and schedules unless it kept a ready or running one. |
| Reports.ReportRow.StoreIfSame | frvt/api/divergence/compute.py:107-111 | The payload is stored exactly when the row still carries the digest the compute started under. |
| Reports.ReportRow.FailIfSame | frvt/api/divergence/compute.py:113-118 | A failure is stored under the same guard. |
| ReportProtocol.ReadyMatchesItsRun | frvt/api/divergence/compute.py:40-118 | Over all interleavings a ready report holds a payload made by a compute that started under the digest the row carries now. |
| ReportProtocol.SupersededNeverWrites | frvt/api/divergence/registry.py:113-183 | While claims lock their rows in the order of their digests, a compute whose row was claimed under another digest writes neither ready nor failed. |
| ReportProtocol.LateClaimLetsSupersededWrite | frvt/api/divergence/registry.py:43-60 | The digest is taken before the row is locked, so even while digests only grow a late claim can set a row back and a superseded compute writes, under a digest that is not current. |
| ReportProtocol.CurrentReportIsCurrent | frvt/api/divergence/compute.py:73-111 | While digests only grow, a ready report whose digest is current was computed from the current inputs alone, though they are loaded one after another and claims may lock late. |
| ReportProtocol.ReturningDigestLetsSupersededWrite | frvt/api/divergence/registry.py:113-129 | When a digest recurs, a superseded compute does write: a run that ends in a current-looking report read from other inputs. |
| SpanLookup.LoadSpanTables | frvt/api/ports/span_lookup.py:227-258 | The load loop fills the exact table and the per-chapter milestone lists. |
| SpanLookup.LookupPreloaded | frvt/api/ports/span_lookup.py:261-289 | Exact hit, whole-verse fallback, then first covering milestone of the chapter list. |
| SpanLookup.FindStoredSpan | frvt/api/ports/span_lookup.py:42-143 | The scan returns some row with the exact coordinates, else some row of the whole verse, else the first covering milestone. |
| SpanLookup.LookupIsScanAnswer | frvt/api/ports/span_lookup.py:227-289 | The preloaded tables give an answer the scan may give, for any rows and any query. |
| SpanLookup.FindersAgreeIff | frvt/api/ports/span_lookup.py:42-289 | The scan can answer nothing else, for every query, exactly when no two rows share their coordinates. |
| FailedAuth.FailedAuthLimiter.RegisterFailure | frvt/api/failed_auth_limiter.py:90-114 | Unless live failures of the client were evicted within the last window, the answer is that of the full failure history; otherwise it only counts too few. After the wait the oldest counted failure has left the window, and one second less would not do when the wait exceeds one. The store never exceeds its cap, and capacity victims fail no later than any client kept. |
| FailedAuth.FailedAuthLimiter.EvictIfNeeded | frvt/api/failed_auth_limiter.py:126-143 | Nothing goes below the cap; above it every expired client goes, then those with the oldest last failure, down to the cap. |
| FailedAuth.StoredCounts | frvt/api/failed_auth_limiter.py:116-124 | The store never counts more than the history holds, and exactly as much for a client that lost nothing recent. |

## Left out

- HTTP routers, request schemas, authentication middleware, logging and static serving: no state to reason about.
- SQL, sessions and locks: tables are maps, a lock with its check and write is one step, and object caching inside a database session is not modelled; neither are `VACUUM` and the mapping of OIDs to lock keys.
- USX, zip, XML, JSON and SHA-256: fingerprints are abstract values, equal exactly when the inputs are.
- Loading of maxima, exclusions, bridges and segments from a document, warning texts, and the supplement's choice of lines (`frvt/divergence/scheme.py:35-72`): `SchemeLoading` starts from parsed ranges.
- Part letters and the reference pattern of the divergence engine (`frvt/divergence/refs.py:14-29`): only the letter's presence is kept.
- Comparison.CompareSchemes: ends at sorted events and rows; type ids, notes and totals of the payload (`frvt/divergence/report.py:91-161`) are left out.
- EventList.BuildEvents: event codes, chapter lists and the text-omission flag (`frvt/divergence/events.py:202-227`) are not in the model, they feed notes and display only; one-sided relations are taken in A-anchored then B-anchored order, which is what sorting by side and position gives.
- SwapLaws.FirstPassMirrorsIff: ends at the first pass. Order inversions are not compared: a longest backbone need not be unique, and it is chosen per A-side book.
- Classification.SplitAlternates: books that tie in the book order keep first-appearance order where Python keeps set order.
- Runs.RowReadsBack: flag letters and exclusion bits are not claimed, because a merged row takes them only in part from the relations it absorbs.
- Rows whose references do not parse (`frvt/resolver/cover.py:50-59`): the resolver model starts from parsed rows; `Derivation.ParsedRow` says which derived rows those are.
- VerseOrder.SortSet: a whole verse and the same verse with an empty part text, which tie in Python, get a fixed order; no walk from one query mixes the two.
- HullResults.BuildHull: which pivot labels a pair shared by several pivots is free, and the single-path relation may come from any pivot.
- RoundTrip.ChainRoundTrip: sufficient condition for chains of several hops; the exact one is given per hop.
- Chain building from the database and the search for a shared ancestor (`frvt/resolver/chains.py`): the two hop lists are inputs.
- Attaching text and sequence numbers to resolved spans (`frvt/api/ports/resolver_port.py`): the result ends at coordinates.
- Queue order of the index worker and of reclaim: any pending index or queue entry may be next. Build notes, progress counters, timestamps and error texts are dropped.
- IndexCoherence.CacheAgreesWithLive: resolve is a function of the two sides' inputs and the reference, so labels that depend on set order in the hull are taken as fixed between a build and a live answer.
- The builder's loops (`frvt/api/indexing/builder.py:45-189`) are steps of `IndexProtocol` rather than methods, because every commit is a point where other processes act.
- A publication or cancel that lands between the builder's check and its commit is outside the model, since the check and the write are one step.
- Deletion of report rows: a compute whose row is gone writes nothing. Progress stages, heartbeats and timestamps are dropped.
- Liveness of the worker and of the report runner: only safety is decided by this code.
- FailedAuth.FailedAuthLimiter.RegisterFailure: among clients with equal last failures any may be evicted, where Python takes the first inserted; threads are serialized by the lock.
- Python's limit on the length of decimal literals, floating-point clocks (reals here), and Unicode beyond the whitespace list of `str.strip`.
- Jump menus, category heuristics, the web client, display strings and payload encoding: filtering and formatting.
