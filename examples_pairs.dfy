/** Worked cases of calculatePairs (src/index.ts:160-228) on small inputs,
    with a comparator and a key that agree on the version strings used:
    inclusive boundaries, a gap, an inverted asset range, a platform without
    assets, and a platform with no name. */
module ExamplePairs {
  import opened Types
  import opened PairsSpec
  import opened IntervalIndex
  import opened PairsProperties
  import opened RecordProperties

  /** The numeric value of the version strings used below. */
  function Num(v: string): int {
    if v == "1" then 1 else if v == "2" then 2 else if v == "5" then 5
    else if v == "6" then 6 else if v == "10" then 10 else 0
  }

  /** A comparator that accepts every string and orders by `Num`. */
  function NumLe(a: string, b: string): Option<bool> {
    Some(Num(a) <= Num(b))
  }

  const P1 := Platform("P1", "P1-name")

  function AssetOn(id: string, platformId: string, lo: string, hi: string): Asset {
    Asset(id, id, [PlatformRelation(platformId, lo, hi)])
  }

  function VulnerabilityOn(id: string, platformId: string, lo: string, hi: string): Vulnerability {
    Vulnerability(id, id, [PlatformRelation(platformId, lo, hi)])
  }

  /** With one asset and one vulnerability, each with a single relation,
      there is one record exactly when both relations are on the same
      platform, the comparator accepts the asset's range and the two key
      ranges overlap inclusively; there is none otherwise. */
  lemma SingleRelations(platforms: seq<Platform>, asset: Asset, vulnerability: Vulnerability,
                        key: VersionKey, compare: VersionCompare)
    requires |asset.platformRelations| == 1 && |vulnerability.platformRelations| == 1
    ensures var arel, vrel := asset.platformRelations[0], vulnerability.platformRelations[0];
            Pairs(platforms, [asset], [vulnerability], key, compare)
              == if arel.platformId == vrel.platformId && compare(arel.minVersion, arel.maxVersion) == Some(true)
                    && key(arel.minVersion) <= key(vrel.maxVersion) && key(vrel.minVersion) <= key(arel.maxVersion)
                 then [AssetVulnerabilityPair(asset.id, vulnerability.id, DisplayName(NameTable(platforms), vrel.platformId))]
                 else []
  {
    var arel, vrel := asset.platformRelations[0], vulnerability.platformRelations[0];
    var t := TagOf(asset.id, arel);
    var trees := Trees(Group(Flatten([asset])), key, compare);
    assert trees == map[arel.platformId := TreeOf([t.triple], key, compare)] by {
      FlattenSingle(asset);
      GroupSingle(t);
    }
    var names := NameTable(platforms);
    var found := RelationPairs(names, trees, key, vulnerability.id, vrel);
    assert found == if arel.platformId == vrel.platformId && Accepted(compare, t.triple)
                       && Overlaps(EntryOf(key, t.triple), key(vrel.minVersion), key(vrel.maxVersion))
                    then [AssetVulnerabilityPair(asset.id, vulnerability.id, DisplayName(names, vrel.platformId))]
                    else [] by {
      if arel.platformId == vrel.platformId {
        var es := TreeOf([t.triple], key, compare).Search(key(vrel.minVersion), key(vrel.maxVersion));
        SearchSingle(t.triple, key, compare, key(vrel.minVersion), key(vrel.maxVersion));
        RecordsAt(es, vulnerability.id, DisplayName(names, vrel.platformId));
      }
    }
    AllPairsSingle(names, trees, key, vulnerability);
  }

  lemma AllPairsSingle(names: map<string, string>, trees: map<string, IntervalTree>, key: VersionKey,
                       vulnerability: Vulnerability)
    requires |vulnerability.platformRelations| == 1
    ensures AllPairs(names, trees, key, [vulnerability])
              == RelationPairs(names, trees, key, vulnerability.id, vulnerability.platformRelations[0])
  {
    var rels := vulnerability.platformRelations;
    assert rels[..0] == [];
    assert VulnerabilityPairs(names, trees, key, vulnerability.id, rels)
             == RelationPairs(names, trees, key, vulnerability.id, rels[0]);
    assert [vulnerability][..0] == [];
  }

  lemma GroupSingle(t: Tagged)
    ensures Group([t]) == map[t.platformId := [t.triple]]
  {
    assert [t][..0] == [];
    assert Group([t]) == AddToGroup(map[], t);
    assert [] + [t.triple] == [t.triple];
  }

  lemma FlattenSingle(asset: Asset)
    requires |asset.platformRelations| == 1
    ensures Flatten([asset]) == [TagOf(asset.id, asset.platformRelations[0])]
  {
    RelationTriplesAt(asset.id, asset.platformRelations);
    assert [asset][..0] == [];
  }

  lemma SearchSingle(t: Triple, key: VersionKey, compare: VersionCompare, lo: int, hi: int)
    ensures TreeOf([t], key, compare).Search(lo, hi)
              == if Accepted(compare, t) && Overlaps(EntryOf(key, t), lo, hi) then [EntryOf(key, t)] else []
  {
    var e := EntryOf(key, t);
    assert [t][..0] == [];
    SearchAfterInsert(Empty, e, lo, hi);
  }

  lemma NameTableP1()
    ensures NameTable([P1]) == map["P1" := "P1-name"]
  {
    assert [P1][..0] == [];
  }

  /** Ranges [1,5] and [5,10] touch at 5: exactly one record. */
  lemma TouchingRangesMatchOnce()
    ensures Pairs([P1], [AssetOn("A", "P1", "1", "5")], [VulnerabilityOn("V", "P1", "5", "10")], Num, NumLe)
              == [AssetVulnerabilityPair("A", "V", "P1-name")]
  {
    SingleRelations([P1], AssetOn("A", "P1", "1", "5"), VulnerabilityOn("V", "P1", "5", "10"), Num, NumLe);
    NameTableP1();
  }

  /** Ranges [1,5] and [6,10] do not meet: no record. */
  lemma DisjointRangesDoNotMatch()
    ensures Pairs([P1], [AssetOn("A", "P1", "1", "5")], [VulnerabilityOn("V", "P1", "6", "10")], Num, NumLe) == []
  {
    SingleRelations([P1], AssetOn("A", "P1", "1", "5"), VulnerabilityOn("V", "P1", "6", "10"), Num, NumLe);
    assert Num("5") == 5 && Num("6") == 6;
  }

  /** An asset range [2,1] is skipped, even though a vulnerability range
      [1,10] covers both of its ends. */
  lemma InvertedAssetRangeIsSkipped()
    ensures Pairs([P1], [AssetOn("A", "P1", "2", "1")], [VulnerabilityOn("V", "P1", "1", "10")], Num, NumLe) == []
  {
    SingleRelations([P1], AssetOn("A", "P1", "2", "1"), VulnerabilityOn("V", "P1", "1", "10"), Num, NumLe);
  }

  /** A vulnerability on a platform no asset is on yields no record. */
  lemma PlatformWithoutAssetsYieldsNothing()
    ensures Pairs([P1], [AssetOn("A", "P1", "1", "5")], [VulnerabilityOn("V", "P2", "1", "5")], Num, NumLe) == []
  {
    SingleRelations([P1], AssetOn("A", "P1", "1", "5"), VulnerabilityOn("V", "P2", "1", "5"), Num, NumLe);
  }

  /** A platform missing from the platform list, or listed with an empty
      name, is reported as "asd". */
  lemma MissingOrEmptyNameIsAsd()
    ensures Pairs([], [AssetOn("A", "P1", "1", "5")], [VulnerabilityOn("V", "P1", "1", "5")], Num, NumLe)
              == [AssetVulnerabilityPair("A", "V", "asd")]
    ensures Pairs([Platform("P1", "")], [AssetOn("A", "P1", "1", "5")], [VulnerabilityOn("V", "P1", "1", "5")], Num, NumLe)
              == [AssetVulnerabilityPair("A", "V", "asd")]
  {
    var asset, vulnerability := AssetOn("A", "P1", "1", "5"), VulnerabilityOn("V", "P1", "1", "5");
    assert NumLe("1", "5") == Some(true);
    SingleRelations([], asset, vulnerability, Num, NumLe);
    assert DisplayName(NameTable([]), "P1") == Fallback;
    SingleRelations([Platform("P1", "")], asset, vulnerability, Num, NumLe);
    assert DisplayName(NameTable([Platform("P1", "")]), "P1") == Fallback by {
      assert [Platform("P1", "")][..0] == [];
    }
  }

  /** Tenths of the number `parseFloat` reads from the version strings below:
      "1.10" reads as 1.1. */
  function Tenths(v: string): int {
    if v == "1.9" then 19 else if v == "1.10" then 11 else 0
  }

  /** A comparator that orders "1.9" before "1.10", as a semantic-version
      comparison does. */
  function SemanticLe(a: string, b: string): Option<bool> {
    Some(a == "1.9" && b == "1.10")
  }

  /** A range "1.9" to "1.10" passes the comparator, but its keys are
      inverted, so the tree's `insert` throws and the run is rejected. */
  lemma LossyKeysRejectRun()
    ensures !AllStorable(Tenths, SemanticLe, Flatten([AssetOn("A", "P1", "1.9", "1.10")]))
    ensures Rejection(Tenths, SemanticLe, Triple("A", "1.9", "1.10")) == InvertedInterval("A", 19, 11)
  {
    var asset := AssetOn("A", "P1", "1.9", "1.10");
    FlattenSingle(asset);
    var t := Flatten([asset])[0].triple;
    assert t == Triple("A", "1.9", "1.10");
    assert Tenths("1.9") == 19 && Tenths("1.10") == 11;
    assert !Storable(Tenths, SemanticLe, t);
  }
}
