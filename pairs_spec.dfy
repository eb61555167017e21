/** What calculatePairs (src/index.ts:160-228) computes, phase by phase, as
    functions. The methods of module Matcher are proved equal to these, and the
    lemmas of module PairsProperties say what they mean.

    Two orders on version strings are kept apart, as the source keeps them:
    `compare` is the version comparator used to accept or skip a range
    (`compareVersions.compare(min, max, "<=")`, which throws on a string that is
    not a version: None here), and `key` is the numeric conversion used for the
    interval endpoints of stored ranges and of queries (`parseFloat`). */
module PairsSpec {
  import opened Types
  import opened IntervalIndex

  type VersionKey = string -> int
  type VersionCompare = (string, string) -> Option<bool>

  // ---------------------------------------------------------------------------
  // Phase 1: platform id -> display name

  /** `new Map(platforms.map(p => [p.id, p.name]))`: every listed id is a key,
      and a later platform with the same id overwrites an earlier one. */
  function NameTable(platforms: seq<Platform>): map<string, string> {
    if platforms == [] then map[]
    else
      var last := platforms[|platforms| - 1];
      NameTable(platforms[..|platforms| - 1])[last.id := last.name]
  }

  /** No platform after position i has the id of platforms[i]. */
  predicate LastWithId(platforms: seq<Platform>, i: nat)
    requires i < |platforms|
  {
    forall j :: i < j < |platforms| ==> platforms[j].id != platforms[i].id
  }

  /** The placeholder the source emits when the platform's name is missing
      or empty (`commonPlatform ? commonPlatform : "asd"`). */
  const Fallback := "asd"

  /** The `commonPlatform` of a record emitted for `platformId`. */
  function DisplayName(names: map<string, string>, platformId: string): string {
    if platformId in names && names[platformId] != "" then names[platformId] else Fallback
  }

  // ---------------------------------------------------------------------------
  // Phase 2: grouping by platform and building one interval tree per platform

  /** The `[assetId, minVersion, maxVersion]` tuple stored per platform. */
  datatype Triple = Triple(assetId: string, minVersion: string, maxVersion: string)

  /** A triple together with the platform it was grouped under. */
  datatype Tagged = Tagged(platformId: string, triple: Triple)

  function TagOf(assetId: string, rel: PlatformRelation): Tagged {
    Tagged(rel.platformId, Triple(assetId, rel.minVersion, rel.maxVersion))
  }

  /** The tagged triples of one asset's relations, in relation order. */
  function RelationTriples(assetId: string, rels: seq<PlatformRelation>): seq<Tagged> {
    if rels == [] then []
    else RelationTriples(assetId, rels[..|rels| - 1]) + [TagOf(assetId, rels[|rels| - 1])]
  }

  /** Every asset relation as a tagged triple: asset order, then relation
      order, which is the order in which the source visits them. */
  function Flatten(assets: seq<Asset>): seq<Tagged> {
    if assets == [] then []
    else
      var last := assets[|assets| - 1];
      Flatten(assets[..|assets| - 1]) + RelationTriples(last.id, last.platformRelations)
  }

  /** The triples of `flat` tagged with `platformId`, in order. */
  function Select(flat: seq<Tagged>, platformId: string): (r: seq<Triple>)
    ensures |r| <= |flat|
    ensures (forall k :: 0 <= k < |flat| ==> flat[k].platformId != platformId) ==> r == []
  {
    if flat == [] then []
    else
      var last := flat[|flat| - 1];
      Select(flat[..|flat| - 1], platformId) + (if last.platformId == platformId then [last.triple] else [])
  }

  /** One `get ... || []`, `push`, `set` step of the grouping loop. */
  function AddToGroup(groups: map<string, seq<Triple>>, t: Tagged): map<string, seq<Triple>> {
    var current := if t.platformId in groups then groups[t.platformId] else [];
    groups[t.platformId := current + [t.triple]]
  }

  /** The map `assetPlatformMap` after the grouping loop has visited `flat`:
      a key for every platform that occurs, holding that platform's triples
      in visiting order. */
  function Group(flat: seq<Tagged>): map<string, seq<Triple>> {
    if flat == [] then map[]
    else AddToGroup(Group(flat[..|flat| - 1]), flat[|flat| - 1])
  }

  /** The comparator accepts the range of `t` as ordered, so it is inserted. */
  predicate Accepted(compare: VersionCompare, t: Triple) {
    compare(t.minVersion, t.maxVersion) == Some(true)
  }

  /** The comparator gives a verdict on the range of `t` (it does not throw). */
  predicate Comparable(compare: VersionCompare, t: Triple) {
    compare(t.minVersion, t.maxVersion).Some?
  }

  /** Building the tree gets past `t`: the comparator judges its range, and
      when it accepts the range the tree accepts its keys, since the tree's
      `insert` throws when `low > high`. */
  predicate Storable(key: VersionKey, compare: VersionCompare, t: Triple) {
    Comparable(compare, t) && (Accepted(compare, t) ==> key(t.minVersion) <= key(t.maxVersion))
  }

  /** Every triple in `flat` gets past the tree build. */
  predicate AllStorable(key: VersionKey, compare: VersionCompare, flat: seq<Tagged>) {
    forall k :: 0 <= k < |flat| ==> Storable(key, compare, flat[k].triple)
  }

  /** The error a run is rejected with at a triple that is not storable: the
      comparator's, when it throws, and otherwise the tree's. */
  function Rejection(key: VersionKey, compare: VersionCompare, t: Triple): Error {
    if Comparable(compare, t) then InvertedInterval(t.assetId, key(t.minVersion), key(t.maxVersion))
    else InvalidVersion(t.assetId, t.minVersion, t.maxVersion)
  }

  /** The interval stored for an accepted triple. */
  function EntryOf(key: VersionKey, t: Triple): Entry {
    Entry(key(t.minVersion), key(t.maxVersion), t.assetId)
  }

  /** The tree built from one platform's triples: the accepted ones are
      inserted in order, the others skipped. */
  function TreeOf(ts: seq<Triple>, key: VersionKey, compare: VersionCompare): IntervalTree {
    if ts == [] then Empty
    else
      var tree, last := TreeOf(ts[..|ts| - 1], key, compare), ts[|ts| - 1];
      if Accepted(compare, last) then tree.Insert(EntryOf(key, last)) else tree
  }

  /** `assetPlatformIntervalTrees`: one tree per grouped platform. */
  function Trees(groups: map<string, seq<Triple>>, key: VersionKey, compare: VersionCompare): map<string, IntervalTree> {
    map p | p in groups :: TreeOf(groups[p], key, compare)
  }

  // ---------------------------------------------------------------------------
  // Phase 3: queries and emitted records

  /** One record per found entry, in the order found. */
  function Records(es: seq<Entry>, vulnerabilityId: string, name: string): seq<AssetVulnerabilityPair> {
    if es == [] then []
    else Records(es[..|es| - 1], vulnerabilityId, name) + [AssetVulnerabilityPair(es[|es| - 1].assetId, vulnerabilityId, name)]
  }

  /** The records one vulnerability relation contributes: nothing when its
      platform has no tree, else one per entry the search returns. */
  function RelationPairs(names: map<string, string>, trees: map<string, IntervalTree>, key: VersionKey,
                         vulnerabilityId: string, rel: PlatformRelation): seq<AssetVulnerabilityPair>
  {
    if rel.platformId in trees then
      Records(trees[rel.platformId].Search(key(rel.minVersion), key(rel.maxVersion)),
              vulnerabilityId, DisplayName(names, rel.platformId))
    else []
  }

  /** The records of one vulnerability: its relations' records, in relation order. */
  function VulnerabilityPairs(names: map<string, string>, trees: map<string, IntervalTree>, key: VersionKey,
                              vulnerabilityId: string, rels: seq<PlatformRelation>): seq<AssetVulnerabilityPair>
  {
    if rels == [] then []
    else
      VulnerabilityPairs(names, trees, key, vulnerabilityId, rels[..|rels| - 1])
        + RelationPairs(names, trees, key, vulnerabilityId, rels[|rels| - 1])
  }

  /** The `pairs` array after the query loop has visited `vulns`. */
  function AllPairs(names: map<string, string>, trees: map<string, IntervalTree>, key: VersionKey,
                    vulns: seq<Vulnerability>): seq<AssetVulnerabilityPair>
  {
    if vulns == [] then []
    else
      var last := vulns[|vulns| - 1];
      AllPairs(names, trees, key, vulns[..|vulns| - 1])
        + VulnerabilityPairs(names, trees, key, last.id, last.platformRelations)
  }

  /** The records of a run that is not rejected. */
  function Pairs(platforms: seq<Platform>, assets: seq<Asset>, vulns: seq<Vulnerability>,
                 key: VersionKey, compare: VersionCompare): seq<AssetVulnerabilityPair>
  {
    AllPairs(NameTable(platforms), Trees(Group(Flatten(assets)), key, compare), key, vulns)
  }

  // ---------------------------------------------------------------------------
  // Reference definition, independent of grouping and trees

  /** The stored entries that overlap [lo, hi] on `platformId`, read directly
      off the flattened asset relations: one per accepted relation on that
      platform whose key interval overlaps, in visiting order. */
  function Matching(flat: seq<Tagged>, platformId: string, lo: int, hi: int,
                    key: VersionKey, compare: VersionCompare): seq<Entry>
  {
    if flat == [] then []
    else
      var last := flat[|flat| - 1];
      Matching(flat[..|flat| - 1], platformId, lo, hi, key, compare)
        + (if Hit(last, platformId, lo, hi, key, compare) then [EntryOf(key, last.triple)] else [])
  }

  /** Tagged triple `t` is on `platformId`, accepted, and overlaps [lo, hi]. */
  predicate Hit(t: Tagged, platformId: string, lo: int, hi: int, key: VersionKey, compare: VersionCompare) {
    t.platformId == platformId && Accepted(compare, t.triple) && Overlaps(EntryOf(key, t.triple), lo, hi)
  }

  /** Reference for one record, stated on the inputs alone: relation j of
      vulnerability i and relation b of asset a name the same platform, the
      comparator accepts the asset's range, and the two key intervals overlap
      inclusively. */
  predicate Exposed(assets: seq<Asset>, vulns: seq<Vulnerability>, key: VersionKey, compare: VersionCompare,
                    i: int, j: int, a: int, b: int)
  {
    && 0 <= i < |vulns| && 0 <= j < |vulns[i].platformRelations|
    && 0 <= a < |assets| && 0 <= b < |assets[a].platformRelations|
    && var vrel, arel := vulns[i].platformRelations[j], assets[a].platformRelations[b];
       && arel.platformId == vrel.platformId
       && compare(arel.minVersion, arel.maxVersion) == Some(true)
       && key(arel.minVersion) <= key(vrel.maxVersion)
       && key(vrel.minVersion) <= key(arel.maxVersion)
  }

  /** The record an exposure is reported as. */
  function ExposureRecord(platforms: seq<Platform>, assets: seq<Asset>, vulns: seq<Vulnerability>, i: int, j: int, a: int)
    : AssetVulnerabilityPair
    requires 0 <= i < |vulns| && 0 <= j < |vulns[i].platformRelations| && 0 <= a < |assets|
  {
    AssetVulnerabilityPair(assets[a].id, vulns[i].id, DisplayName(NameTable(platforms), vulns[i].platformRelations[j].platformId))
  }
}
