/** Which records calculatePairs (src/index.ts:160-228) emits. A search of a
    grouped platform's tree returns exactly `Matching`, a filter read directly
    off the asset relations; from that follow soundness and completeness
    against `Exposed`, the fate of inverted ranges and of platforms without a
    tree, output order, and multiplicity. */
module RecordProperties {
  import opened Types
  import opened IntervalIndex
  import opened PairsSpec
  import opened PairsProperties

  // ---------------------------------------------------------------------------
  // Trees

  /** A tree holds an entry for a triple exactly when the comparator accepts
      the triple's range: accepted ranges are inserted, the others skipped. */
  lemma {:induction false} TreeOfEntries(ts: seq<Triple>, key: VersionKey, compare: VersionCompare)
    ensures forall k :: 0 <= k < |ts| && Accepted(compare, ts[k]) ==> EntryOf(key, ts[k]) in TreeOf(ts, key, compare).entries
    ensures forall e :: e in TreeOf(ts, key, compare).entries ==>
              exists k :: 0 <= k < |ts| && Accepted(compare, ts[k]) && e == EntryOf(key, ts[k])
  {
    if ts != [] {
      var init := ts[..|ts| - 1];
      TreeOfEntries(init, key, compare);
      assert forall k :: 0 <= k < |init| ==> init[k] == ts[k];
    }
  }

  lemma TreeOfSnoc(ts: seq<Triple>, t: Triple, key: VersionKey, compare: VersionCompare)
    ensures TreeOf(ts + [t], key, compare)
              == if Accepted(compare, t) then TreeOf(ts, key, compare).Insert(EntryOf(key, t)) else TreeOf(ts, key, compare)
  {
    assert (ts + [t])[..|ts|] == ts;
  }

  /** Searching the tree built from a platform's group finds exactly the
      reference matches, in the same order. */
  lemma {:induction false} TreeSearchIsMatching(flat: seq<Tagged>, platformId: string, lo: int, hi: int,
                                                key: VersionKey, compare: VersionCompare)
    ensures TreeOf(Select(flat, platformId), key, compare).Search(lo, hi) == Matching(flat, platformId, lo, hi, key, compare)
  {
    if flat != [] {
      var init, last := flat[..|flat| - 1], flat[|flat| - 1];
      TreeSearchIsMatching(init, platformId, lo, hi, key, compare);
      var before := TreeOf(Select(init, platformId), key, compare);
      var step := if Hit(last, platformId, lo, hi, key, compare) then [EntryOf(key, last.triple)] else [];
      assert Matching(flat, platformId, lo, hi, key, compare) == before.Search(lo, hi) + step;
      if last.platformId == platformId {
        assert Select(flat, platformId) == Select(init, platformId) + [last.triple];
        TreeOfSnoc(Select(init, platformId), last.triple, key, compare);
        if Accepted(compare, last.triple) {
          SearchAfterInsert(before, EntryOf(key, last.triple), lo, hi);
        } else {
          assert step == [];
        }
      } else {
        assert Select(flat, platformId) == Select(init, platformId);
        assert step == [];
      }
    }
  }

  /** With no hit among the relations, nothing matches. */
  lemma {:induction false} MatchingEmpty(flat: seq<Tagged>, platformId: string, lo: int, hi: int,
                                         key: VersionKey, compare: VersionCompare)
    requires forall k :: 0 <= k < |flat| ==> !Hit(flat[k], platformId, lo, hi, key, compare)
    ensures Matching(flat, platformId, lo, hi, key, compare) == []
  {
    if flat != [] {
      var init := flat[..|flat| - 1];
      assert forall k :: 0 <= k < |init| ==> init[k] == flat[k];
      MatchingEmpty(init, platformId, lo, hi, key, compare);
    }
  }

  /** Matches of consecutive relation lists follow each other. */
  lemma {:induction false} MatchingConcat(f1: seq<Tagged>, f2: seq<Tagged>, platformId: string, lo: int, hi: int,
                                          key: VersionKey, compare: VersionCompare)
    ensures Matching(f1 + f2, platformId, lo, hi, key, compare)
              == Matching(f1, platformId, lo, hi, key, compare) + Matching(f2, platformId, lo, hi, key, compare)
  {
    if f2 == [] {
      assert f1 + f2 == f1;
    } else {
      var init := f2[..|f2| - 1];
      assert (f1 + f2)[..|f1 + f2| - 1] == f1 + init;
      MatchingConcat(f1, init, platformId, lo, hi, key, compare);
    }
  }

  /** Every match is the entry of one hit relation, and every hit relation
      gives a match. */
  lemma {:induction false} MatchingMembers(flat: seq<Tagged>, platformId: string, lo: int, hi: int,
                                           key: VersionKey, compare: VersionCompare)
    ensures forall k :: 0 <= k < |flat| && Hit(flat[k], platformId, lo, hi, key, compare) ==>
              EntryOf(key, flat[k].triple) in Matching(flat, platformId, lo, hi, key, compare)
    ensures forall e :: e in Matching(flat, platformId, lo, hi, key, compare) ==>
              exists k :: 0 <= k < |flat| && Hit(flat[k], platformId, lo, hi, key, compare) && e == EntryOf(key, flat[k].triple)
  {
    if flat != [] {
      var init := flat[..|flat| - 1];
      assert forall k :: 0 <= k < |init| ==> init[k] == flat[k];
      MatchingMembers(init, platformId, lo, hi, key, compare);
    }
  }

  // ---------------------------------------------------------------------------
  // Records of one vulnerability relation

  lemma {:induction false} RecordsAt(es: seq<Entry>, vulnerabilityId: string, name: string)
    ensures |Records(es, vulnerabilityId, name)| == |es|
    ensures forall n :: 0 <= n < |es| ==>
              Records(es, vulnerabilityId, name)[n] == AssetVulnerabilityPair(es[n].assetId, vulnerabilityId, name)
  {
    if es != [] {
      RecordsAt(es[..|es| - 1], vulnerabilityId, name);
    }
  }

  lemma {:induction false} RecordsConcat(e1: seq<Entry>, e2: seq<Entry>, vulnerabilityId: string, name: string)
    ensures Records(e1 + e2, vulnerabilityId, name) == Records(e1, vulnerabilityId, name) + Records(e2, vulnerabilityId, name)
  {
    if e2 == [] {
      assert e1 + e2 == e1;
    } else {
      var init := e2[..|e2| - 1];
      assert (e1 + e2)[..|e1 + e2| - 1] == e1 + init;
      RecordsConcat(e1, init, vulnerabilityId, name);
    }
  }

  /** The trees built from all asset relations. */
  function TreesFor(flat: seq<Tagged>, key: VersionKey, compare: VersionCompare): map<string, IntervalTree> {
    Trees(Group(flat), key, compare)
  }

  /** There is one tree per grouped platform. */
  lemma TreesKeys(groups: map<string, seq<Triple>>, key: VersionKey, compare: VersionCompare)
    ensures Trees(groups, key, compare).Keys == groups.Keys
  {
  }

  /** The central fact: what one vulnerability relation contributes is one
      record per reference match, in visiting order, named after its
      platform. A platform without a tree is one no asset relation is on, and
      it contributes nothing. */
  lemma RelationPairsExact(names: map<string, string>, flat: seq<Tagged>, key: VersionKey, compare: VersionCompare,
                           vulnerabilityId: string, rel: PlatformRelation)
    ensures RelationPairs(names, TreesFor(flat, key, compare), key, vulnerabilityId, rel)
              == Records(Matching(flat, rel.platformId, key(rel.minVersion), key(rel.maxVersion), key, compare),
                         vulnerabilityId, DisplayName(names, rel.platformId))
  {
    var p, lo, hi := rel.platformId, key(rel.minVersion), key(rel.maxVersion);
    GroupContents(flat);
    if p in Group(flat) {
      TreeSearchIsMatching(flat, p, lo, hi, key, compare);
    } else {
      MatchingEmpty(flat, p, lo, hi, key, compare);
    }
  }

  /** One vulnerability relation contributes as many records as there are
      hit asset relations on its platform, duplicates included. */
  lemma RelationRecordCount(names: map<string, string>, flat: seq<Tagged>, key: VersionKey, compare: VersionCompare,
                            vulnerabilityId: string, rel: PlatformRelation)
    ensures |RelationPairs(names, TreesFor(flat, key, compare), key, vulnerabilityId, rel)|
              == |Matching(flat, rel.platformId, key(rel.minVersion), key(rel.maxVersion), key, compare)|
  {
    RelationPairsExact(names, flat, key, compare, vulnerabilityId, rel);
    RecordsAt(Matching(flat, rel.platformId, key(rel.minVersion), key(rel.maxVersion), key, compare),
              vulnerabilityId, DisplayName(names, rel.platformId));
  }

  // ---------------------------------------------------------------------------
  // Index existence

  /** A platform has a tree exactly when some asset relation is on it, even
      when every range on it is skipped (the tree is then empty). */
  lemma IndexExists(assets: seq<Asset>, platformId: string, key: VersionKey, compare: VersionCompare)
    ensures platformId in TreesFor(Flatten(assets), key, compare) <==>
              exists a, b :: 0 <= a < |assets| && 0 <= b < |assets[a].platformRelations| &&
                assets[a].platformRelations[b].platformId == platformId
  {
    var flat := Flatten(assets);
    TreesKeys(Group(flat), key, compare);
    GroupContents(flat);
    if k :| 0 <= k < |flat| && flat[k].platformId == platformId {
      assert exists a, b :: 0 <= a < |assets| && 0 <= b < |assets[a].platformRelations| &&
               assets[a].platformRelations[b].platformId == platformId by {
        FlattenMembers(assets);
        var a, b :| 0 <= a < |assets| && 0 <= b < |assets[a].platformRelations| &&
                    flat[k] == TagOf(assets[a].id, assets[a].platformRelations[b]);
        assert assets[a].platformRelations[b].platformId == platformId;
      }
    }
    if a, b :| 0 <= a < |assets| && 0 <= b < |assets[a].platformRelations| &&
               assets[a].platformRelations[b].platformId == platformId {
      assert exists k :: 0 <= k < |flat| && flat[k].platformId == platformId by {
        FlattenMembers(assets);
        var t := TagOf(assets[a].id, assets[a].platformRelations[b]);
        assert t in flat;
        var k :| 0 <= k < |flat| && flat[k] == t;
        assert flat[k].platformId == platformId;
      }
    }
  }

  /** A vulnerability relation on a platform no asset is on yields no record. */
  lemma UnknownPlatformYieldsNothing(names: map<string, string>, assets: seq<Asset>, key: VersionKey,
                                     compare: VersionCompare, vulnerabilityId: string, rel: PlatformRelation)
    requires forall a, b :: 0 <= a < |assets| && 0 <= b < |assets[a].platformRelations| ==>
               assets[a].platformRelations[b].platformId != rel.platformId
    ensures rel.platformId !in TreesFor(Flatten(assets), key, compare)
    ensures RelationPairs(names, TreesFor(Flatten(assets), key, compare), key, vulnerabilityId, rel) == []
  {
    IndexExists(assets, rel.platformId, key, compare);
  }
}
