# Asset/vulnerability matcher: a Dafny model of `calculatePairs`

The repository reads three lists: platforms, assets and vulnerabilities. Each
asset and each vulnerability carries platform relations, which are a platform
id and a version range. The program reports an asset/vulnerability pair for
every asset relation and vulnerability relation that are on the same platform
and whose version ranges overlap. The matching engine is `calculatePairs`
(src/index.ts:160-228). It runs in three phases, and this project models all
three:

1. **Platform names.** A map from platform id to display name is built in list
   order, so the last platform with a repeated id wins.
2. **Per-platform index.** Every asset relation becomes an
   `(assetId, minVersion, maxVersion)` triple. Triples are grouped by platform,
   in asset order and then relation order. Each platform gets an interval tree.
   A triple is inserted when the version comparator orders `minVersion <=
   maxVersion`. Otherwise it is skipped, and the source logs a diagnostic.
   The run ends with an exception when the comparator cannot read a version,
   or when the tree refuses an accepted range whose numeric keys are inverted.
3. **Query and emit.** The engine visits every vulnerability and every one of
   its relations, in order. When the relation's platform has a tree, the tree
   is searched with the relation's range. Each asset found is appended as a
   record `{assetId, vulnerabilityId, commonPlatform}`. `commonPlatform` is the
   platform's name, or the literal `"asd"` when the name is missing or empty.

## How the model is built

- **Data.** `types.dfy` holds the records of src/types/main-types.ts as
  datatypes, plus `Option`, `Result` and the two errors the run can end with.
- **Interval tree.** `interval_tree.dfy` models the third-party tree as a value
  that holds its entries in insertion order.
  - `Insert` stores one entry.
  - `Search(lo, hi)` returns the entries that overlap the closed interval
    `[lo, hi]`.
- **Imperative model.** `calculate_pairs.dfy` (module `Matcher`) is
  `calculatePairs` as the loops it runs. The grouping, the tree building and
  the emit loop are methods that fill local maps and sequences step by step.
  Each method is proved equal to a function of `pairs_spec.dfy`.
- **Specification.** `pairs_spec.dfy` defines two things:
  - those functions, such as `Group`, `TreeOf`, `Trees`, `AllPairs` and
    `Pairs`;
  - reference definitions that do not mention grouping or trees. `Matching`
    filters the flattened asset relations. `Exposed` states, on the inputs
    alone, when relation `b` of asset `a` is exposed to relation `j` of
    vulnerability `i`.
- **Properties.** The remaining files prove what those functions mean:
  - `pairs_properties.dfy`: names and grouping;
  - `record_properties.dfy`: trees and the records of one relation;
  - `output_properties.dfy`: the whole output;
  - `examples_pairs.dfy`: worked cases.

Two library calls become parameters of the model:

- `parseFloat` becomes `key: string -> int`. It is used for the tree's
  endpoints and for the query's endpoints.
- `compareVersions.compare(min, max, "<=")` becomes
  `compare: (string, string) -> Option<bool>`. `None` stands for the library
  throwing on a version it cannot parse. The throw propagates out of
  `calculatePairs`, so the model's run ends in `Err(InvalidVersion(...))`.
- The tree's `insert` throws when `low > high`. A range the comparator
  accepts can still have inverted keys, because `parseFloat` reads "1.10" as
  1.1. The model's run then ends in `Err(InvertedInterval(...))`
  (`ExamplePairs.LossyKeysRejectRun`).

The results hold for every choice of `key` and `compare`.

Three behaviours of the code are worth stating plainly:

- **Missing platform name.** An unresolved or empty platform name is emitted
  as `"asd"` (src/index.ts:220). The relation is not skipped.
- **Vulnerability ranges.** Only asset ranges are checked (src/index.ts:190).
  A vulnerability range is searched as given, with the same overlap test
  (src/index.ts:212-215), even when it is inverted.
- **Unreadable versions.** The comparator's exception on an asset range ends
  the whole run (src/index.ts:190). The model returns `Err` exactly when some
  asset relation is not storable (`Matcher.CalculatePairs`).

## Model

| member | source | states |
|---|---|---|
| Matcher.CalculatePairs | src/index.ts:160-228 | The run fails exactly when some asset relation is not storable: the comparator cannot read its range, or accepts it while its keys are inverted so that the tree's insert throws. The error names such a relation. Otherwise the output is `Pairs`, whose meaning the lemmas below establish. |
| Matcher.GroupByPlatform | src/index.ts:170-182 | The grouping loop over all assets yields `Group(Flatten(assets))`: per platform, the triples of that platform's relations, in asset order and then relation order (see `PairsProperties.GroupContents`). |
| Matcher.GroupRelations | src/index.ts:172-181 | One asset's get/push/set steps extend the grouping by exactly that asset's triples, in relation order. |
| Matcher.BuildTree | src/index.ts:188-197 | A tree is built exactly when every triple on the platform is storable. The tree then holds the accepted ranges in order and skips the ones the comparator judges inverted. Otherwise the error is that of the first triple in the list that is not storable. |
| Matcher.BuildTrees | src/index.ts:183-200 | One tree per grouped platform, including a platform whose every range was skipped. The build fails exactly when some grouped triple is not storable, and the error is that triple's. |
| Matcher.EmitPairs | src/index.ts:202-225 | The nested query loop yields `AllPairs`: per vulnerability in order, per relation in order, the records of that relation's search. |
| Matcher.EmitVulnerability | src/index.ts:203-224 | One vulnerability's relations append exactly `VulnerabilityPairs` to the records emitted so far. |
| Matcher.EmitRelation | src/index.ts:204-223 | One relation appends nothing when its platform has no tree. Otherwise it appends one record per entry its search finds, named after the platform. |
| IntervalIndex.SearchExact | src/index.ts:212-215 | A search returns exactly the stored entries that overlap the query inclusively at both ends. Each comes back as many times as it was stored, and nothing else is returned. |
| IntervalIndex.SearchAfterInsert | src/index.ts:191 | After one more insertion, a search returns what it returned before, followed by the new entry when that entry overlaps the query. |
| PairsProperties.NameTableDomain | src/index.ts:166-168 | The name table has a key exactly for the ids of the listed platforms. |
| PairsProperties.NameTableLastWins | src/index.ts:166-168 | When ids repeat, the name of the last platform with that id is the one stored. |
| PairsProperties.CommonPlatformName | src/index.ts:211-220 | `commonPlatform` is the last listed name for the id when that name is non-empty. It is `"asd"` when the name is empty or no platform has the id. |
| PairsProperties.FlattenConcat | src/index.ts:171-182 | Relations are visited asset by asset: flattening distributes over concatenation of asset lists. |
| PairsProperties.RelationTriplesAt | src/index.ts:172-179 | An asset yields exactly one triple per relation, in relation order, carrying the asset id and the relation's range. |
| PairsProperties.FlattenMembers | src/index.ts:171-179 | Every visited triple is one relation of one asset, and every relation of every asset is visited. |
| PairsProperties.SelectMembers | src/index.ts:173-180 | A platform's list holds the triple of every relation on that platform, and nothing from another platform. |
| PairsProperties.SelectConcat | src/index.ts:171-182 | A platform's list keeps visiting order: grouping distributes over concatenation of the visited relations. |
| PairsProperties.GroupContents | src/index.ts:170-182 | The grouping has a key exactly for every platform some relation is on. Each key holds that platform's triples, in order, duplicates included. |
| PairsProperties.GroupedStorable | src/index.ts:187-197 | Every triple the tree loop meets is the triple of one asset relation. The loop meets no triple that is not storable exactly when every asset relation is storable. |
| PairsProperties.AllStorableConcat | src/index.ts:171-197 | Every relation of a concatenated list is storable exactly when every relation of each part is. |
| RecordProperties.TreeOfEntries | src/index.ts:189-197 | A tree holds an entry for a triple exactly when the comparator accepts the triple's range. Inverted ranges are never stored. |
| RecordProperties.TreeSearchIsMatching | src/index.ts:187-215 | Searching the tree built from a platform's group returns exactly the reference matches, in visiting order. A reference match is an accepted relation on that platform whose key interval overlaps the query. |
| RecordProperties.MatchingEmpty | src/index.ts:189-215 | With no accepted, overlapping relation on the platform, nothing matches. |
| RecordProperties.MatchingConcat | src/index.ts:171-215 | The matches of consecutive relation lists follow each other. |
| RecordProperties.MatchingMembers | src/index.ts:189-215 | Every match is the entry of one accepted, overlapping relation on the platform, and every such relation gives a match. |
| RecordProperties.RecordsAt | src/index.ts:216-222 | One record per entry found, in the order found, carrying the entry's asset id, the vulnerability id and the platform name. |
| RecordProperties.RecordsConcat | src/index.ts:216-222 | The records of consecutive searches follow each other. |
| RecordProperties.RelationPairsExact | src/index.ts:204-223 | One vulnerability relation contributes the records of its reference matches, in order, named after the platform. This includes a relation on a platform without a tree. |
| RecordProperties.RelationRecordCount | src/index.ts:210-222 | One vulnerability relation contributes as many records as there are accepted, overlapping asset relations on its platform, duplicates included. This relies on the model tree keeping every insertion; see `IntervalIndex.IntervalTree` under "Left out". |
| RecordProperties.IndexExists | src/index.ts:171-200 | A platform has a tree exactly when some asset relation is on it. This holds even when every range on it was skipped. |
| RecordProperties.UnknownPlatformYieldsNothing | src/index.ts:210-223 | A vulnerability relation on a platform no asset is on finds no tree and contributes no record. |
| OutputProperties.AllPairsConcat | src/index.ts:202-225 | The output is only appended to. The records of a vulnerability list are those of its first part followed by those of the rest. |
| OutputProperties.VulnerabilityPairsMembers | src/index.ts:203-224 | A vulnerability's records are exactly the records of its relations. |
| OutputProperties.AllPairsMembers | src/index.ts:202-225 | The run's records are exactly the records of the relations of the vulnerabilities. |
| OutputProperties.RelationRecordSound | src/index.ts:211-221 | A record of relation `j` of vulnerability `i` reports an exposure. Some asset relation on the same platform has an accepted range whose key interval overlaps the vulnerability's. The record carries that asset's id, the vulnerability's id and the platform's display name. |
| OutputProperties.RelationRecordComplete | src/index.ts:211-221 | Every exposure of relation `j` of vulnerability `i` is reported by a record of that relation. |
| OutputProperties.PairsSound | src/index.ts:160-228 | Every record of the run is the record of some exposure, defined on the inputs alone. |
| OutputProperties.PairsComplete | src/index.ts:160-228 | Every exposure, defined on the inputs alone, is reported by some record of the run. |
| OutputProperties.AllPairsCongruent | src/index.ts:187-225 | The output depends on the asset relations only through their reference matches. |
| OutputProperties.SkippedAssetChangesNothing | src/index.ts:189-196 | An asset whose every range the comparator judges inverted, listed at any position among the other assets, neither causes nor prevents a rejection, and it changes no record. |
| OutputProperties.SkippedTriplesChangeNothing | src/index.ts:189-196 | Triples whose ranges are all judged inverted, inserted at any position among the others, change no reference match and no rejection. |
| OutputProperties.VulnerabilityPairsAdditive | src/index.ts:175-222 | Counted with multiplicity, a vulnerability's records over two relation lists are the sum of its records over each. |
| OutputProperties.AllPairsAdditive | src/index.ts:175-225 | Counted with multiplicity, the run's records over two relation lists are the sum of its records over each. |
| OutputProperties.AssetsAdditive | src/index.ts:171-225 | Counted with multiplicity, the records for two asset lists together are the sum of the records for each. Nothing is deduplicated, because the model tree keeps every insertion; see `IntervalIndex.IntervalTree` under "Left out". |
| OutputProperties.DuplicateAssetDoublesRecords | src/index.ts:175-191 | Listing an asset twice makes every record it produces appear twice as often, because the model tree keeps every insertion; see `IntervalIndex.IntervalTree` under "Left out". |
| ExamplePairs.SingleRelations | src/index.ts:187-222 | With one asset and one vulnerability, each with a single relation, there is exactly one record when the platforms agree, the asset range is accepted and the key ranges overlap inclusively. Otherwise there is none. |
| ExamplePairs.TouchingRangesMatchOnce | src/index.ts:212-221 | Ranges [1,5] and [5,10] on the same platform touch at 5, and give exactly one record, named after the platform. |
| ExamplePairs.DisjointRangesDoNotMatch | src/index.ts:212-216 | Ranges [1,5] and [6,10] give no record. |
| ExamplePairs.InvertedAssetRangeIsSkipped | src/index.ts:190-196 | An asset range [2,1] gives no record, even against a vulnerability range [1,10] that covers both of its ends. |
| ExamplePairs.PlatformWithoutAssetsYieldsNothing | src/index.ts:210-223 | A vulnerability on a platform no asset is on gives no record. |
| ExamplePairs.MissingOrEmptyNameIsAsd | src/index.ts:211-220 | A platform absent from the platform list, or listed with an empty name, is reported as `"asd"`. |
| ExamplePairs.LossyKeysRejectRun | src/index.ts:190-191 | A range "1.9" to "1.10" that the comparator accepts, but whose keys read as 1.9 and 1.1, is not storable. The run is rejected with the tree's error. |

## Left out

- Reading and writing files (`ReadJsonFile`, `WriteResultToJsonFile`, src/index.ts:20-58) is I/O.
- The three `readAndValidate*` functions (src/index.ts:60-158) are left out. They wrap a JSON-schema validator and environment-variable paths. `calculatePairs` receives their already-validated lists.
- `main`, dotenv, `console.time` and the `console.error` diagnostic for an inverted range are process plumbing and logging. The diagnostic is modelled only as the range being skipped.
- `parseFloat` is modelled as an arbitrary `key` from strings to integers. Every result holds for any such function, including one that reads "1.10" as less than "1.9". Floating point itself and `NaN` are not modelled: `NaN` fails every comparison, so the tree's check would let such an interval through, and no integer behaves that way.
- The internals of `compare-versions` are modelled as an arbitrary `compare`, where `None` means the library throws.
- `IntervalIndex.IntervalTree`: the internals of `node-interval-tree` are not modelled, only its observable contract. Search results come back in insertion order, and the library's traversal order is not modelled. Every insertion is stored. Any refusal by the library to store an interval identical to a stored one (same `low`, `high` and asset id) is not modelled. The duplicate-counting rows (`RecordProperties.RelationRecordCount`, `OutputProperties.AssetsAdditive`, `OutputProperties.DuplicateAssetDoublesRecords`) therefore describe the model tree, which keeps every insertion. The library's throw on an inverted interval is modelled, as a rejected run.
- `Matcher.BuildTrees`: a JavaScript `Map` iterates in insertion order, but the loop picks platforms in an unspecified order. On a failing run, this affects only which relation that is not storable the error names. On a successful run the trees do not depend on the order.
- src/worker.ts is entirely commented out, and the parallel fan-out it sketches is concurrency. It is not part of this model, and neither is a worker count.
- `calculatePairs` is `async` but awaits nothing. It is modelled as a synchronous method whose rejected promise is the `Err` result.
