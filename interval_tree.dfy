/** The per-platform interval index. The source uses a third-party interval
    tree (imported at src/index.ts:12); only its observable contract is modelled:
    `insert(low, high, data)` stores one interval, and `search(lo, hi)` returns
    the data of every stored interval that overlaps the closed query interval
    [lo, hi]. The tree is a value holding its entries in insertion order. */
module IntervalIndex {

  /** One stored interval [low, high] carrying an asset id. */
  datatype Entry = Entry(low: int, high: int, assetId: string)

  /** Closed-interval overlap, inclusive at both ends: [e.low, e.high] and
      [lo, hi] share at least one point. */
  predicate Overlaps(e: Entry, lo: int, hi: int) {
    e.low <= hi && lo <= e.high
  }

  datatype IntervalTree = IntervalTree(entries: seq<Entry>) {

    /** The tree after `insert(low, high, assetId)`. */
    function Insert(e: Entry): IntervalTree {
      IntervalTree(entries + [e])
    }

    /** The result of `search(lo, hi)`. */
    function Search(lo: int, hi: int): seq<Entry> {
      Overlapping(entries, lo, hi)
    }
  }

  /** The entries of `es` that overlap [lo, hi], in their order in `es`. */
  function Overlapping(es: seq<Entry>, lo: int, hi: int): seq<Entry> {
    if es == [] then []
    else
      var last := es[|es| - 1];
      Overlapping(es[..|es| - 1], lo, hi) + (if Overlaps(last, lo, hi) then [last] else [])
  }

  /** A search returns exactly the stored entries that overlap the query,
      each as many times as it was stored, and nothing else. */
  lemma {:induction false} SearchExact(tree: IntervalTree, lo: int, hi: int)
    ensures forall e :: e in tree.Search(lo, hi) <==> e in tree.entries && Overlaps(e, lo, hi)
    ensures forall e :: multiset(tree.Search(lo, hi))[e] == if Overlaps(e, lo, hi) then multiset(tree.entries)[e] else 0
  {
    OverlappingExact(tree.entries, lo, hi);
  }

  lemma {:induction false} OverlappingExact(es: seq<Entry>, lo: int, hi: int)
    ensures forall e :: e in Overlapping(es, lo, hi) <==> e in es && Overlaps(e, lo, hi)
    ensures forall e :: multiset(Overlapping(es, lo, hi))[e] == if Overlaps(e, lo, hi) then multiset(es)[e] else 0
  {
    if es != [] {
      var init, last := es[..|es| - 1], es[|es| - 1];
      OverlappingExact(init, lo, hi);
      assert es == init + [last];
    }
  }

  /** Searching a tree after one more insertion finds what it found before,
      followed by the new entry when that one overlaps. */
  lemma SearchAfterInsert(tree: IntervalTree, e: Entry, lo: int, hi: int)
    ensures tree.Insert(e).Search(lo, hi) == tree.Search(lo, hi) + (if Overlaps(e, lo, hi) then [e] else [])
  {
    assert (tree.entries + [e])[..|tree.entries|] == tree.entries;
  }

  /** An empty tree answers every search with nothing. */
  const Empty := IntervalTree([])
}
