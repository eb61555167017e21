/** What the records of calculatePairs (src/index.ts:160-228) mean: the
    platform-name table keeps the last name per id, grouping loses and
    invents nothing, a tree holds exactly the accepted ranges, a search on
    the grouped trees equals a reference filter over the asset relations,
    and from that, which records a run emits, in what order and how often. */
module PairsProperties {
  import opened Types
  import opened IntervalIndex
  import opened PairsSpec

  // ---------------------------------------------------------------------------
  // Platform names

  /** The name table has a key exactly for every listed platform id. */
  lemma {:induction false} NameTableDomain(platforms: seq<Platform>, id: string)
    ensures id in NameTable(platforms) <==> exists i :: 0 <= i < |platforms| && platforms[i].id == id
  {
    if platforms != [] {
      var init := platforms[..|platforms| - 1];
      NameTableDomain(init, id);
      if id in NameTable(init) {
        var i :| 0 <= i < |init| && init[i].id == id;
        assert platforms[i].id == id;
      }
      if exists i :: 0 <= i < |platforms| && platforms[i].id == id {
        var i :| 0 <= i < |platforms| && platforms[i].id == id;
        if i < |init| { assert init[i].id == id; }
      }
    }
  }

  /** When ids repeat, the name of the last platform with that id wins. */
  lemma {:induction false} NameTableLastWins(platforms: seq<Platform>, i: nat)
    requires i < |platforms| && LastWithId(platforms, i)
    ensures platforms[i].id in NameTable(platforms)
    ensures NameTable(platforms)[platforms[i].id] == platforms[i].name
  {
    var init, last := platforms[..|platforms| - 1], platforms[|platforms| - 1];
    if i < |init| {
      assert platforms[|platforms| - 1].id != platforms[i].id;
      assert LastWithId(init, i) by {
        forall j | i < j < |init| ensures init[j].id != init[i].id {
          assert init[j] == platforms[j];
        }
      }
      NameTableLastWins(init, i);
    }
  }

  /** The `commonPlatform` of a record for platform `id`: the name of the last
      listed platform with that id when it is not empty, else "asd"; and "asd"
      when no platform has that id. */
  lemma CommonPlatformName(platforms: seq<Platform>, id: string)
    ensures forall i :: 0 <= i < |platforms| && platforms[i].id == id && LastWithId(platforms, i) ==>
              DisplayName(NameTable(platforms), id) == (if platforms[i].name != "" then platforms[i].name else Fallback)
    ensures (forall i :: 0 <= i < |platforms| ==> platforms[i].id != id) ==>
              DisplayName(NameTable(platforms), id) == Fallback
  {
    NameTableDomain(platforms, id);
    forall i | 0 <= i < |platforms| && platforms[i].id == id && LastWithId(platforms, i)
      ensures DisplayName(NameTable(platforms), id) == (if platforms[i].name != "" then platforms[i].name else Fallback)
    {
      NameTableLastWins(platforms, i);
    }
  }

  // ---------------------------------------------------------------------------
  // Grouping

  /** Flattening visits the assets in order: it distributes over concatenation. */
  lemma {:induction false} FlattenConcat(a1: seq<Asset>, a2: seq<Asset>)
    ensures Flatten(a1 + a2) == Flatten(a1) + Flatten(a2)
  {
    if a2 == [] {
      assert a1 + a2 == a1;
    } else {
      var init, last := a2[..|a2| - 1], a2[|a2| - 1];
      assert (a1 + a2)[..|a1 + a2| - 1] == a1 + init;
      FlattenConcat(a1, init);
    }
  }

  /** One more asset appends its relations' triples to the flattening. */
  lemma FlattenSnoc(assets: seq<Asset>, i: nat)
    requires i < |assets|
    ensures Flatten(assets[..i + 1]) == Flatten(assets[..i]) + RelationTriples(assets[i].id, assets[i].platformRelations)
  {
    assert assets[..i + 1][..i] == assets[..i];
  }

  /** One more relation appends its triple. */
  lemma RelationTriplesSnoc(assetId: string, rels: seq<PlatformRelation>, j: nat)
    requires j < |rels|
    ensures RelationTriples(assetId, rels[..j + 1]) == RelationTriples(assetId, rels[..j]) + [TagOf(assetId, rels[j])]
  {
    assert rels[..j + 1][..j] == rels[..j];
  }

  /** Grouping one more triple is one `AddToGroup` step. */
  lemma GroupSnoc(flat: seq<Tagged>, t: Tagged)
    ensures Group(flat + [t]) == AddToGroup(Group(flat), t)
  {
    assert (flat + [t])[..|flat|] == flat;
  }

  /** One tagged triple per relation of the asset, in relation order. */
  lemma {:induction false} RelationTriplesAt(assetId: string, rels: seq<PlatformRelation>)
    ensures |RelationTriples(assetId, rels)| == |rels|
    ensures forall b :: 0 <= b < |rels| ==> RelationTriples(assetId, rels)[b] == TagOf(assetId, rels[b])
  {
    if rels != [] {
      RelationTriplesAt(assetId, rels[..|rels| - 1]);
    }
  }

  /** Every flattened triple is one relation of one asset, and every relation
      of every asset is flattened. */
  lemma {:induction false} FlattenMembers(assets: seq<Asset>)
    ensures forall k :: 0 <= k < |Flatten(assets)| ==>
              exists a, b :: 0 <= a < |assets| && 0 <= b < |assets[a].platformRelations| &&
                Flatten(assets)[k] == TagOf(assets[a].id, assets[a].platformRelations[b])
    ensures forall a, b :: 0 <= a < |assets| && 0 <= b < |assets[a].platformRelations| ==>
              TagOf(assets[a].id, assets[a].platformRelations[b]) in Flatten(assets)
  {
    if assets == [] {
      assert Flatten(assets) == [];
    } else {
      var init, last := assets[..|assets| - 1], assets[|assets| - 1];
      FlattenMembers(init);
      var front, back := Flatten(init), RelationTriples(last.id, last.platformRelations);
      RelationTriplesAt(last.id, last.platformRelations);
      assert Flatten(assets) == front + back;
      forall k | 0 <= k < |Flatten(assets)|
        ensures exists a, b :: 0 <= a < |assets| && 0 <= b < |assets[a].platformRelations| &&
                  Flatten(assets)[k] == TagOf(assets[a].id, assets[a].platformRelations[b])
      {
        if k < |front| {
          var a, b :| 0 <= a < |init| && 0 <= b < |init[a].platformRelations| &&
                      front[k] == TagOf(init[a].id, init[a].platformRelations[b]);
          assert assets[a] == init[a];
        } else {
          assert Flatten(assets)[k] == TagOf(last.id, last.platformRelations[k - |front|]);
          assert assets[|assets| - 1] == last;
        }
      }
      forall a, b | 0 <= a < |assets| && 0 <= b < |assets[a].platformRelations|
        ensures TagOf(assets[a].id, assets[a].platformRelations[b]) in Flatten(assets)
      {
        if a < |init| {
          assert assets[a] == init[a];
          assert TagOf(init[a].id, init[a].platformRelations[b]) in front;
        } else {
          assert back[b] == TagOf(assets[a].id, assets[a].platformRelations[b]);
        }
      }
    }
  }

  /** A platform's group holds the triple of every relation on that platform,
      and only such triples. */
  lemma {:induction false} SelectMembers(flat: seq<Tagged>, platformId: string)
    ensures forall k :: 0 <= k < |flat| && flat[k].platformId == platformId ==> flat[k].triple in Select(flat, platformId)
    ensures forall t :: t in Select(flat, platformId) ==>
              exists k :: 0 <= k < |flat| && flat[k].platformId == platformId && flat[k].triple == t
  {
    if flat != [] {
      var init := flat[..|flat| - 1];
      SelectMembers(init, platformId);
      assert forall k :: 0 <= k < |init| ==> init[k] == flat[k];
    }
  }

  /** Grouping puts each triple in its own platform's group, once, keeping
      order: selecting from a concatenation concatenates the selections. */
  lemma {:induction false} SelectConcat(f1: seq<Tagged>, f2: seq<Tagged>, platformId: string)
    ensures Select(f1 + f2, platformId) == Select(f1, platformId) + Select(f2, platformId)
  {
    if f2 == [] {
      assert f1 + f2 == f1;
    } else {
      var init := f2[..|f2| - 1];
      assert (f1 + f2)[..|f1 + f2| - 1] == f1 + init;
      SelectConcat(f1, init, platformId);
    }
  }

  /** The grouping has a key exactly for every platform some relation is on,
      and each key holds that platform's triples in visiting order. */
  lemma {:induction false} GroupContents(flat: seq<Tagged>)
    ensures forall p :: p in Group(flat) <==> exists k :: 0 <= k < |flat| && flat[k].platformId == p
    ensures forall p :: p in Group(flat) ==> Group(flat)[p] == Select(flat, p)
  {
    if flat != [] {
      var init := flat[..|flat| - 1];
      GroupContents(init);
      assert forall k :: 0 <= k < |init| ==> init[k] == flat[k];
    }
  }

  /** The run is rejected exactly when some grouped triple is not storable,
      which is when the triple of some asset relation is not. */
  lemma GroupedStorable(flat: seq<Tagged>, groups: map<string, seq<Triple>>, key: VersionKey, compare: VersionCompare)
    requires groups == Group(flat)
    ensures AllStorable(key, compare, flat) <==>
              forall p, k :: p in groups && 0 <= k < |groups[p]| ==> Storable(key, compare, groups[p][k])
    ensures forall p, k :: p in groups && 0 <= k < |groups[p]| ==>
              exists n :: 0 <= n < |flat| && flat[n].triple == groups[p][k]
  {
    GroupContents(flat);
    forall p, k | p in groups && 0 <= k < |groups[p]|
      ensures exists n :: 0 <= n < |flat| && flat[n].triple == groups[p][k]
    {
      SelectMembers(flat, p);
      assert groups[p][k] in Select(flat, p);
    }
    if !AllStorable(key, compare, flat) {
      var n :| 0 <= n < |flat| && !Storable(key, compare, flat[n].triple);
      var p := flat[n].platformId;
      SelectMembers(flat, p);
      assert p in groups;
      var k :| 0 <= k < |groups[p]| && groups[p][k] == flat[n].triple;
      assert !Storable(key, compare, groups[p][k]);
    }
  }

  /** Storability of a concatenation is storability of both parts. */
  lemma AllStorableConcat(f: seq<Tagged>, g: seq<Tagged>, key: VersionKey, compare: VersionCompare)
    ensures AllStorable(key, compare, f + g) <==> AllStorable(key, compare, f) && AllStorable(key, compare, g)
  {
    assert forall k :: 0 <= k < |f| ==> (f + g)[k] == f[k];
    assert forall k :: 0 <= k < |g| ==> (f + g)[|f| + k] == g[k];
  }

  // ---------------------------------------------------------------------------
  // Appending records

  lemma RecordsSnoc(es: seq<Entry>, k: nat, vulnerabilityId: string, name: string)
    requires k < |es|
    ensures Records(es[..k + 1], vulnerabilityId, name)
              == Records(es[..k], vulnerabilityId, name) + [AssetVulnerabilityPair(es[k].assetId, vulnerabilityId, name)]
  {
    assert es[..k + 1][..k] == es[..k];
  }

  lemma VulnerabilityPairsSnoc(names: map<string, string>, trees: map<string, IntervalTree>, key: VersionKey,
                               vulnerabilityId: string, rels: seq<PlatformRelation>, j: nat)
    requires j < |rels|
    ensures VulnerabilityPairs(names, trees, key, vulnerabilityId, rels[..j + 1])
              == VulnerabilityPairs(names, trees, key, vulnerabilityId, rels[..j])
                 + RelationPairs(names, trees, key, vulnerabilityId, rels[j])
  {
    assert rels[..j + 1][..j] == rels[..j];
  }

  lemma AllPairsSnoc(names: map<string, string>, trees: map<string, IntervalTree>, key: VersionKey,
                     vulns: seq<Vulnerability>, i: nat)
    requires i < |vulns|
    ensures AllPairs(names, trees, key, vulns[..i + 1])
              == AllPairs(names, trees, key, vulns[..i])
                 + VulnerabilityPairs(names, trees, key, vulns[i].id, vulns[i].platformRelations)
  {
    assert vulns[..i + 1][..i] == vulns[..i];
  }
}
