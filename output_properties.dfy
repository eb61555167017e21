/** Properties of the whole output array of calculatePairs
    (src/index.ts:160-228): every record reports a real exposure and every
    exposure is reported (against the reference `Exposed`), records come
    grouped by vulnerability in input order, relations whose range the
    comparator judges inverted contribute nothing, and duplicates are kept:
    the multiset of records is additive in the asset list. */
module OutputProperties {
  import opened Types
  import opened IntervalIndex
  import opened PairsSpec
  import opened PairsProperties
  import opened RecordProperties

  // ---------------------------------------------------------------------------
  // Order: the output only grows, vulnerability by vulnerability

  /** The records of a vulnerability list are those of its first part followed
      by those of the rest; in particular the records of the first i
      vulnerabilities are a prefix of the output. */
  lemma {:induction false} AllPairsConcat(names: map<string, string>, trees: map<string, IntervalTree>, key: VersionKey,
                                          vs1: seq<Vulnerability>, vs2: seq<Vulnerability>)
    ensures AllPairs(names, trees, key, vs1 + vs2) == AllPairs(names, trees, key, vs1) + AllPairs(names, trees, key, vs2)
  {
    if vs2 == [] {
      assert vs1 + vs2 == vs1;
    } else {
      var init, last := vs2[..|vs2| - 1], vs2[|vs2| - 1];
      var tail := VulnerabilityPairs(names, trees, key, last.id, last.platformRelations);
      assert AllPairs(names, trees, key, vs1 + vs2) == AllPairs(names, trees, key, vs1 + init) + tail by {
        assert (vs1 + vs2)[..|vs1 + vs2| - 1] == vs1 + init;
        assert (vs1 + vs2)[|vs1 + vs2| - 1] == last;
      }
      AllPairsConcat(names, trees, key, vs1, init);
    }
  }

  // ---------------------------------------------------------------------------
  // Which relation a record comes from

  /** A record of one vulnerability comes from one of its relations, and every
      record of each relation is among them. */
  lemma {:induction false} VulnerabilityPairsMembers(names: map<string, string>, trees: map<string, IntervalTree>,
                                                     key: VersionKey, vulnerabilityId: string, rels: seq<PlatformRelation>)
    ensures forall rec :: rec in VulnerabilityPairs(names, trees, key, vulnerabilityId, rels) ==>
              exists j :: 0 <= j < |rels| && rec in RelationPairs(names, trees, key, vulnerabilityId, rels[j])
    ensures forall j, rec :: 0 <= j < |rels| && rec in RelationPairs(names, trees, key, vulnerabilityId, rels[j]) ==>
              rec in VulnerabilityPairs(names, trees, key, vulnerabilityId, rels)
  {
    if rels != [] {
      var init := rels[..|rels| - 1];
      VulnerabilityPairsMembers(names, trees, key, vulnerabilityId, init);
      assert forall j :: 0 <= j < |init| ==> init[j] == rels[j];
    }
  }

  /** A record of the run comes from one relation of one vulnerability, and
      every record of every such relation is in the output. */
  lemma {:induction false} AllPairsMembers(names: map<string, string>, trees: map<string, IntervalTree>,
                                           key: VersionKey, vulns: seq<Vulnerability>)
    ensures forall rec :: rec in AllPairs(names, trees, key, vulns) ==>
              exists i, j :: 0 <= i < |vulns| && 0 <= j < |vulns[i].platformRelations| &&
                rec in RelationPairs(names, trees, key, vulns[i].id, vulns[i].platformRelations[j])
    ensures forall i, j, rec ::
              (0 <= i < |vulns| && 0 <= j < |vulns[i].platformRelations| &&
               rec in RelationPairs(names, trees, key, vulns[i].id, vulns[i].platformRelations[j])) ==>
              rec in AllPairs(names, trees, key, vulns)
  {
    if vulns != [] {
      var init, last := vulns[..|vulns| - 1], vulns[|vulns| - 1];
      AllPairsMembers(names, trees, key, init);
      VulnerabilityPairsMembers(names, trees, key, last.id, last.platformRelations);
      assert forall i :: 0 <= i < |init| ==> init[i] == vulns[i];
    }
  }

  // ---------------------------------------------------------------------------
  // Soundness and completeness

  /** A record of relation j of vulnerability i reports an exposure of that
      relation, under the platform's display name. */
  lemma RelationRecordSound(platforms: seq<Platform>, assets: seq<Asset>, vulns: seq<Vulnerability>,
                            key: VersionKey, compare: VersionCompare, i: nat, j: nat, rec: AssetVulnerabilityPair)
    requires i < |vulns| && j < |vulns[i].platformRelations|
    requires rec in RelationPairs(NameTable(platforms), TreesFor(Flatten(assets), key, compare), key,
                                  vulns[i].id, vulns[i].platformRelations[j])
    ensures exists a, b :: Exposed(assets, vulns, key, compare, i, j, a, b) &&
              rec == ExposureRecord(platforms, assets, vulns, i, j, a)
  {
    var flat, rel := Flatten(assets), vulns[i].platformRelations[j];
    var p, lo, hi := rel.platformId, key(rel.minVersion), key(rel.maxVersion);
    var name := DisplayName(NameTable(platforms), p);
    var found := Matching(flat, p, lo, hi, key, compare);
    RelationPairsExact(NameTable(platforms), flat, key, compare, vulns[i].id, rel);
    RecordsAt(found, vulns[i].id, name);
    var n :| 0 <= n < |found| && Records(found, vulns[i].id, name)[n] == rec;
    MatchingMembers(flat, p, lo, hi, key, compare);
    assert found[n] in found;
    var k :| 0 <= k < |flat| && Hit(flat[k], p, lo, hi, key, compare) && found[n] == EntryOf(key, flat[k].triple);
    FlattenMembers(assets);
    var a, b :| 0 <= a < |assets| && 0 <= b < |assets[a].platformRelations| &&
                flat[k] == TagOf(assets[a].id, assets[a].platformRelations[b]);
    assert Exposed(assets, vulns, key, compare, i, j, a, b);
  }

  /** Every exposure of relation j of vulnerability i is reported by a record
      of that relation. */
  lemma RelationRecordComplete(platforms: seq<Platform>, assets: seq<Asset>, vulns: seq<Vulnerability>,
                               key: VersionKey, compare: VersionCompare, i: nat, j: nat, a: nat, b: nat)
    requires Exposed(assets, vulns, key, compare, i, j, a, b)
    ensures ExposureRecord(platforms, assets, vulns, i, j, a)
              in RelationPairs(NameTable(platforms), TreesFor(Flatten(assets), key, compare), key,
                               vulns[i].id, vulns[i].platformRelations[j])
  {
    var flat, rel := Flatten(assets), vulns[i].platformRelations[j];
    var p, lo, hi := rel.platformId, key(rel.minVersion), key(rel.maxVersion);
    var name := DisplayName(NameTable(platforms), p);
    var found := Matching(flat, p, lo, hi, key, compare);
    var t := TagOf(assets[a].id, assets[a].platformRelations[b]);
    FlattenMembers(assets);
    assert t in flat;
    var k :| 0 <= k < |flat| && flat[k] == t;
    assert Hit(flat[k], p, lo, hi, key, compare);
    MatchingMembers(flat, p, lo, hi, key, compare);
    assert EntryOf(key, t.triple) in found;
    var n :| 0 <= n < |found| && found[n] == EntryOf(key, t.triple);
    RecordsAt(found, vulns[i].id, name);
    assert Records(found, vulns[i].id, name)[n] == ExposureRecord(platforms, assets, vulns, i, j, a);
    RelationPairsExact(NameTable(platforms), flat, key, compare, vulns[i].id, rel);
  }

  /** Every record of a run is an exposure: same platform, accepted asset
      range, inclusively overlapping key intervals, the iterated
      vulnerability's id, and the platform's display name. */
  lemma PairsSound(platforms: seq<Platform>, assets: seq<Asset>, vulns: seq<Vulnerability>,
                   key: VersionKey, compare: VersionCompare)
    ensures forall rec :: rec in Pairs(platforms, assets, vulns, key, compare) ==>
              exists i, j, a, b :: Exposed(assets, vulns, key, compare, i, j, a, b) &&
                rec == ExposureRecord(platforms, assets, vulns, i, j, a)
  {
    var names, trees := NameTable(platforms), TreesFor(Flatten(assets), key, compare);
    AllPairsMembers(names, trees, key, vulns);
    forall rec | rec in Pairs(platforms, assets, vulns, key, compare)
      ensures exists i, j, a, b :: Exposed(assets, vulns, key, compare, i, j, a, b) &&
                rec == ExposureRecord(platforms, assets, vulns, i, j, a)
    {
      var i, j :| 0 <= i < |vulns| && 0 <= j < |vulns[i].platformRelations| &&
                  rec in RelationPairs(names, trees, key, vulns[i].id, vulns[i].platformRelations[j]);
      RelationRecordSound(platforms, assets, vulns, key, compare, i, j, rec);
    }
  }

  /** Every exposure is reported by some record of the run. */
  lemma PairsComplete(platforms: seq<Platform>, assets: seq<Asset>, vulns: seq<Vulnerability>,
                      key: VersionKey, compare: VersionCompare)
    ensures forall i, j, a, b :: Exposed(assets, vulns, key, compare, i, j, a, b) ==>
              ExposureRecord(platforms, assets, vulns, i, j, a) in Pairs(platforms, assets, vulns, key, compare)
  {
    var names, trees := NameTable(platforms), TreesFor(Flatten(assets), key, compare);
    AllPairsMembers(names, trees, key, vulns);
    forall i, j, a, b | Exposed(assets, vulns, key, compare, i, j, a, b)
      ensures ExposureRecord(platforms, assets, vulns, i, j, a) in Pairs(platforms, assets, vulns, key, compare)
    {
      RelationRecordComplete(platforms, assets, vulns, key, compare, i, j, a, b);
    }
  }

  // ---------------------------------------------------------------------------
  // Output as a function of the reference matches

  /** Two relation lists with the same reference matches for every platform
      and query give the same output. */
  lemma {:induction false} AllPairsCongruent(names: map<string, string>, f1: seq<Tagged>, f2: seq<Tagged>,
                                             key: VersionKey, compare: VersionCompare, vulns: seq<Vulnerability>)
    requires forall p, lo, hi :: Matching(f1, p, lo, hi, key, compare) == Matching(f2, p, lo, hi, key, compare)
    ensures AllPairs(names, TreesFor(f1, key, compare), key, vulns) == AllPairs(names, TreesFor(f2, key, compare), key, vulns)
  {
    if vulns != [] {
      var init, last := vulns[..|vulns| - 1], vulns[|vulns| - 1];
      AllPairsCongruent(names, f1, f2, key, compare, init);
      VulnerabilityPairsCongruent(names, f1, f2, key, compare, last.id, last.platformRelations);
    }
  }

  lemma {:induction false} VulnerabilityPairsCongruent(names: map<string, string>, f1: seq<Tagged>, f2: seq<Tagged>,
                                                       key: VersionKey, compare: VersionCompare,
                                                       vulnerabilityId: string, rels: seq<PlatformRelation>)
    requires forall p, lo, hi :: Matching(f1, p, lo, hi, key, compare) == Matching(f2, p, lo, hi, key, compare)
    ensures VulnerabilityPairs(names, TreesFor(f1, key, compare), key, vulnerabilityId, rels)
              == VulnerabilityPairs(names, TreesFor(f2, key, compare), key, vulnerabilityId, rels)
  {
    if rels != [] {
      var rel := rels[|rels| - 1];
      VulnerabilityPairsCongruent(names, f1, f2, key, compare, vulnerabilityId, rels[..|rels| - 1]);
      RelationPairsExact(names, f1, key, compare, vulnerabilityId, rel);
      RelationPairsExact(names, f2, key, compare, vulnerabilityId, rel);
    }
  }

  /** An asset whose every range the comparator judges inverted, listed
      anywhere among the others, is skipped without error and changes nothing
      in the output, even though its platforms get (empty) trees. */
  lemma SkippedAssetChangesNothing(platforms: seq<Platform>, before: seq<Asset>, skipped: Asset, after: seq<Asset>,
                                   vulns: seq<Vulnerability>, key: VersionKey, compare: VersionCompare)
    requires forall b :: 0 <= b < |skipped.platformRelations| ==>
               compare(skipped.platformRelations[b].minVersion, skipped.platformRelations[b].maxVersion) == Some(false)
    ensures (AllStorable(key, compare, Flatten(before + [skipped] + after))
             <==> AllStorable(key, compare, Flatten(before + after)))
    ensures Pairs(platforms, before + [skipped] + after, vulns, key, compare) == Pairs(platforms, before + after, vulns, key, compare)
  {
    var f, g, h := Flatten(before), RelationTriples(skipped.id, skipped.platformRelations), Flatten(after);
    assert Flatten(before + [skipped] + after) == f + g + h by {
      assert Flatten([skipped]) == g by {
        assert [skipped][..0] == [];
      }
      FlattenConcat(before, [skipped]);
      FlattenConcat(before + [skipped], after);
    }
    FlattenConcat(before, after);
    RelationTriplesAt(skipped.id, skipped.platformRelations);
    SkippedTriplesChangeNothing(f, g, h, key, compare);
    AllPairsCongruent(NameTable(platforms), f + g + h, f + h, key, compare, vulns);
  }

  /** Triples whose ranges are all judged inverted, inserted anywhere among
      the others, neither reject a run nor add a match. */
  lemma SkippedTriplesChangeNothing(f: seq<Tagged>, g: seq<Tagged>, h: seq<Tagged>, key: VersionKey, compare: VersionCompare)
    requires forall k :: 0 <= k < |g| ==> compare(g[k].triple.minVersion, g[k].triple.maxVersion) == Some(false)
    ensures AllStorable(key, compare, f + g + h) <==> AllStorable(key, compare, f + h)
    ensures forall p, lo, hi :: Matching(f + g + h, p, lo, hi, key, compare) == Matching(f + h, p, lo, hi, key, compare)
  {
    assert AllStorable(key, compare, f + g + h) <==> AllStorable(key, compare, f + h) by {
      assert AllStorable(key, compare, g);
      AllStorableConcat(f, g, key, compare);
      AllStorableConcat(f + g, h, key, compare);
      AllStorableConcat(f, h, key, compare);
    }
    forall p, lo, hi ensures Matching(f + g + h, p, lo, hi, key, compare) == Matching(f + h, p, lo, hi, key, compare) {
      SkippedMatchNothing(f, g, h, p, lo, hi, key, compare);
    }
  }

  lemma SkippedMatchNothing(f: seq<Tagged>, g: seq<Tagged>, h: seq<Tagged>, platformId: string, lo: int, hi: int,
                            key: VersionKey, compare: VersionCompare)
    requires forall k :: 0 <= k < |g| ==> compare(g[k].triple.minVersion, g[k].triple.maxVersion) == Some(false)
    ensures Matching(f + g + h, platformId, lo, hi, key, compare) == Matching(f + h, platformId, lo, hi, key, compare)
  {
    MatchingConcat(f + g, h, platformId, lo, hi, key, compare);
    MatchingConcat(f, g, platformId, lo, hi, key, compare);
    MatchingConcat(f, h, platformId, lo, hi, key, compare);
    MatchingEmpty(g, platformId, lo, hi, key, compare);
    assert Matching(f + g, platformId, lo, hi, key, compare) == Matching(f, platformId, lo, hi, key, compare) + [];
  }

  // ---------------------------------------------------------------------------
  // Multiplicity: nothing is deduplicated

  lemma {:induction false} VulnerabilityPairsAdditive(names: map<string, string>, f1: seq<Tagged>, f2: seq<Tagged>,
                                                      key: VersionKey, compare: VersionCompare,
                                                      vulnerabilityId: string, rels: seq<PlatformRelation>)
    ensures multiset(VulnerabilityPairs(names, TreesFor(f1 + f2, key, compare), key, vulnerabilityId, rels))
              == multiset(VulnerabilityPairs(names, TreesFor(f1, key, compare), key, vulnerabilityId, rels))
                 + multiset(VulnerabilityPairs(names, TreesFor(f2, key, compare), key, vulnerabilityId, rels))
  {
    if rels != [] {
      var rel := rels[|rels| - 1];
      var p, lo, hi := rel.platformId, key(rel.minVersion), key(rel.maxVersion);
      var name := DisplayName(names, p);
      VulnerabilityPairsAdditive(names, f1, f2, key, compare, vulnerabilityId, rels[..|rels| - 1]);
      RelationPairsExact(names, f1 + f2, key, compare, vulnerabilityId, rel);
      RelationPairsExact(names, f1, key, compare, vulnerabilityId, rel);
      RelationPairsExact(names, f2, key, compare, vulnerabilityId, rel);
      MatchingConcat(f1, f2, p, lo, hi, key, compare);
      RecordsConcat(Matching(f1, p, lo, hi, key, compare), Matching(f2, p, lo, hi, key, compare), vulnerabilityId, name);
    }
  }

  lemma {:induction false} AllPairsAdditive(names: map<string, string>, f1: seq<Tagged>, f2: seq<Tagged>,
                                            key: VersionKey, compare: VersionCompare, vulns: seq<Vulnerability>)
    ensures multiset(AllPairs(names, TreesFor(f1 + f2, key, compare), key, vulns))
              == multiset(AllPairs(names, TreesFor(f1, key, compare), key, vulns))
                 + multiset(AllPairs(names, TreesFor(f2, key, compare), key, vulns))
  {
    if vulns != [] {
      var init, last := vulns[..|vulns| - 1], vulns[|vulns| - 1];
      AllPairsAdditive(names, f1, f2, key, compare, init);
      VulnerabilityPairsAdditive(names, f1, f2, key, compare, last.id, last.platformRelations);
    }
  }

  /** The records of a run over two asset lists, counted with multiplicity,
      are those of the two runs together: every accepted overlapping relation
      yields its own record, whether or not an equal one was already emitted. */
  lemma AssetsAdditive(platforms: seq<Platform>, a1: seq<Asset>, a2: seq<Asset>, vulns: seq<Vulnerability>,
                       key: VersionKey, compare: VersionCompare)
    ensures multiset(Pairs(platforms, a1 + a2, vulns, key, compare))
              == multiset(Pairs(platforms, a1, vulns, key, compare)) + multiset(Pairs(platforms, a2, vulns, key, compare))
  {
    FlattenConcat(a1, a2);
    AllPairsAdditive(NameTable(platforms), Flatten(a1), Flatten(a2), key, compare, vulns);
  }

  /** Listing an asset twice doubles every record it produces. */
  lemma DuplicateAssetDoublesRecords(platforms: seq<Platform>, asset: Asset, vulns: seq<Vulnerability>,
                                     key: VersionKey, compare: VersionCompare, rec: AssetVulnerabilityPair)
    ensures multiset(Pairs(platforms, [asset, asset], vulns, key, compare))[rec]
              == 2 * multiset(Pairs(platforms, [asset], vulns, key, compare))[rec]
  {
    assert [asset, asset] == [asset] + [asset];
    AssetsAdditive(platforms, [asset], [asset], vulns, key, compare);
  }
}
