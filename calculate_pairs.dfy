/** calculatePairs (src/index.ts:160-228) as the loops it runs. Each phase is
    a method over local maps and sequences that it fills step by step, proved
    equal to the function of module PairsSpec that specifies it. */
module Matcher {
  import opened Types
  import opened IntervalIndex
  import opened PairsSpec
  import opened PairsProperties

  /** Builds `assetPlatformMap`: for every asset, for every relation, append
      `[assetId, minVersion, maxVersion]` to the list of its platform. */
  method GroupByPlatform(assets: seq<Asset>) returns (groups: map<string, seq<Triple>>)
    ensures groups == Group(Flatten(assets))
  {
    groups := map[];
    for i := 0 to |assets|
      invariant groups == Group(Flatten(assets[..i]))
    {
      groups := GroupRelations(groups, assets[i], Flatten(assets[..i]));
      FlattenSnoc(assets, i);
    }
    assert assets[..|assets|] == assets;
  }

  /** The inner `forEach` of the grouping: one asset's relations, in order,
      each appended to its platform's list. */
  method GroupRelations(groups: map<string, seq<Triple>>, asset: Asset, ghost seen: seq<Tagged>)
    returns (updated: map<string, seq<Triple>>)
    requires groups == Group(seen)
    ensures updated == Group(seen + RelationTriples(asset.id, asset.platformRelations))
  {
    updated := groups;
    ghost var visited := seen;
    for j := 0 to |asset.platformRelations|
      invariant visited == seen + RelationTriples(asset.id, asset.platformRelations[..j])
      invariant updated == Group(visited)
    {
      var rel := asset.platformRelations[j];
      var platformData := if rel.platformId in updated then updated[rel.platformId] else [];
      platformData := platformData + [Triple(asset.id, rel.minVersion, rel.maxVersion)];
      updated := updated[rel.platformId := platformData];
      GroupSnoc(visited, TagOf(asset.id, rel));
      RelationTriplesSnoc(asset.id, asset.platformRelations, j);
      visited := visited + [TagOf(asset.id, rel)];
    }
    assert asset.platformRelations[..|asset.platformRelations|] == asset.platformRelations;
  }

  /** Builds one platform's tree: a triple whose range the comparator accepts
      is inserted, one it judges inverted is skipped (the source logs it), and
      the run is rejected at the first triple that is not storable: the
      comparator throws on its range, or the tree's `insert` throws on its
      keys. */
  method BuildTree(ts: seq<Triple>, key: VersionKey, compare: VersionCompare) returns (r: Result<IntervalTree>)
    ensures r.Ok? <==> forall k :: 0 <= k < |ts| ==> Storable(key, compare, ts[k])
    ensures r.Ok? ==> r.value == TreeOf(ts, key, compare)
    ensures r.Err? ==> exists k :: 0 <= k < |ts| && !Storable(key, compare, ts[k]) &&
                         (forall n :: 0 <= n < k ==> Storable(key, compare, ts[n])) &&
                         r.error == Rejection(key, compare, ts[k])
  {
    var tree := Empty;
    for i := 0 to |ts|
      invariant forall k :: 0 <= k < i ==> Storable(key, compare, ts[k])
      invariant tree == TreeOf(ts[..i], key, compare)
    {
      var t := ts[i];
      match compare(t.minVersion, t.maxVersion)
      case None =>
        return Err(InvalidVersion(t.assetId, t.minVersion, t.maxVersion));
      case Some(ordered) =>
        if ordered {
          var low, high := key(t.minVersion), key(t.maxVersion);
          if low > high {
            return Err(InvertedInterval(t.assetId, low, high));
          }
          tree := tree.Insert(Entry(low, high, t.assetId));
        }
      assert ts[..i + 1][..i] == ts[..i];
    }
    assert ts[..|ts|] == ts;
    return Ok(tree);
  }

  /** Builds `assetPlatformIntervalTrees`: one tree for every grouped
      platform, including one whose every range was skipped. */
  method BuildTrees(groups: map<string, seq<Triple>>, key: VersionKey, compare: VersionCompare)
    returns (r: Result<map<string, IntervalTree>>)
    ensures r.Ok? <==> forall p, k :: p in groups && 0 <= k < |groups[p]| ==> Storable(key, compare, groups[p][k])
    ensures r.Ok? ==> r.value == Trees(groups, key, compare)
    ensures r.Err? ==> exists p, k :: p in groups && 0 <= k < |groups[p]| &&
                         !Storable(key, compare, groups[p][k]) && r.error == Rejection(key, compare, groups[p][k])
  {
    var trees: map<string, IntervalTree> := map[];
    var todo := groups.Keys;
    while todo != {}
      invariant todo <= groups.Keys
      invariant trees.Keys == groups.Keys - todo
      invariant forall p :: p in trees ==> trees[p] == TreeOf(groups[p], key, compare)
      invariant forall p, k :: p in trees && 0 <= k < |groups[p]| ==> Storable(key, compare, groups[p][k])
      decreases |todo|
    {
      var platformId :| platformId in todo;
      var tree := BuildTree(groups[platformId], key, compare);
      if tree.Err? {
        return Err(tree.error);
      }
      trees := trees[platformId := tree.value];
      todo := todo - {platformId};
    }
    return Ok(trees);
  }

  /** The query loop: for every vulnerability, for every relation whose
      platform has a tree, search it with the relation's key interval and
      append one record per entry found. */
  method EmitPairs(names: map<string, string>, trees: map<string, IntervalTree>, key: VersionKey,
                   vulns: seq<Vulnerability>) returns (pairs: seq<AssetVulnerabilityPair>)
    ensures pairs == AllPairs(names, trees, key, vulns)
  {
    pairs := [];
    for i := 0 to |vulns|
      invariant pairs == AllPairs(names, trees, key, vulns[..i])
    {
      pairs := EmitVulnerability(pairs, names, trees, key, vulns[i]);
      AllPairsSnoc(names, trees, key, vulns, i);
    }
    assert vulns[..|vulns|] == vulns;
  }

  /** The relation loop for one vulnerability, in relation order. */
  method EmitVulnerability(pairs: seq<AssetVulnerabilityPair>, names: map<string, string>,
                           trees: map<string, IntervalTree>, key: VersionKey, vulnerability: Vulnerability)
    returns (extended: seq<AssetVulnerabilityPair>)
    ensures extended == pairs + VulnerabilityPairs(names, trees, key, vulnerability.id, vulnerability.platformRelations)
  {
    extended := pairs;
    var rels := vulnerability.platformRelations;
    for j := 0 to |rels|
      invariant extended == pairs + VulnerabilityPairs(names, trees, key, vulnerability.id, rels[..j])
    {
      extended := EmitRelation(extended, names, trees, key, vulnerability.id, rels[j]);
      assert extended == pairs + VulnerabilityPairs(names, trees, key, vulnerability.id, rels[..j + 1]) by {
        VulnerabilityPairsSnoc(names, trees, key, vulnerability.id, rels, j);
      }
    }
    assert rels[..|rels|] == rels;
  }

  /** One vulnerability relation: when its platform has a tree, search it and
      push one record per entry found, named after the platform. */
  method EmitRelation(pairs: seq<AssetVulnerabilityPair>, names: map<string, string>, trees: map<string, IntervalTree>,
                      key: VersionKey, vulnerabilityId: string, rel: PlatformRelation)
    returns (extended: seq<AssetVulnerabilityPair>)
    ensures extended == pairs + RelationPairs(names, trees, key, vulnerabilityId, rel)
  {
    extended := pairs;
    var vulnerabilityMinVersion, vulnerabilityMaxVersion := key(rel.minVersion), key(rel.maxVersion);
    if rel.platformId in trees {
      var commonPlatform := DisplayName(names, rel.platformId);
      var matchingAssets := trees[rel.platformId].Search(vulnerabilityMinVersion, vulnerabilityMaxVersion);
      for k := 0 to |matchingAssets|
        invariant extended == pairs + Records(matchingAssets[..k], vulnerabilityId, commonPlatform)
      {
        extended := extended + [AssetVulnerabilityPair(matchingAssets[k].assetId, vulnerabilityId, commonPlatform)];
        RecordsSnoc(matchingAssets, k, vulnerabilityId, commonPlatform);
      }
      assert matchingAssets[..|matchingAssets|] == matchingAssets;
    }
  }

  /** calculatePairs: the name table, the grouping, the trees, then the
      records. The run is rejected exactly when some asset relation is not
      storable (the comparator throws on its range, or the tree throws on the
      keys of a range the comparator accepts); otherwise its records are
      `Pairs`. */
  method CalculatePairs(platforms: seq<Platform>, assets: seq<Asset>, vulns: seq<Vulnerability>,
                        key: VersionKey, compare: VersionCompare)
    returns (r: Result<seq<AssetVulnerabilityPair>>)
    ensures r.Ok? <==> AllStorable(key, compare, Flatten(assets))
    ensures r.Ok? ==> r.value == Pairs(platforms, assets, vulns, key, compare)
    ensures r.Err? ==> exists k :: 0 <= k < |Flatten(assets)| &&
                         !Storable(key, compare, Flatten(assets)[k].triple) &&
                         r.error == Rejection(key, compare, Flatten(assets)[k].triple)
  {
    var platformHelperMap := NameTable(platforms);
    var assetPlatformMap := GroupByPlatform(assets);
    GroupedStorable(Flatten(assets), assetPlatformMap, key, compare);
    var built := BuildTrees(assetPlatformMap, key, compare);
    if built.Err? {
      return Err(built.error);
    }
    var pairs := EmitPairs(platformHelperMap, built.value, key, vulns);
    return Ok(pairs);
  }
}
