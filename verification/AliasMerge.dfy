/** What merging one active set into another does to the books and to the partition. */
module AliasMerge {
  import opened Options
  import opened AliasSets

  predicate Active(h: Heap, x: SetId) {
    x in h.sets && h.sets[x].forward.None?
  }

  // ---- no active must-alias set is empty ----

  /** The books while set `a` may still be waiting for its first reference. */
  ghost predicate NearlyBooks(h: Heap, a: SetId) {
    && a in h.sets && a < h.next && ForwardOk(h, a) && h.sets[a].refCount == Refs(h, {}, a)
    && forall x :: x != a ==> BookAt(h, {}, multiset{}, x)
  }

  lemma {:induction false} BooksAreNearly(h: Heap, a: SetId)
    requires Books(h, {}, multiset{}) && a in h.sets
    ensures NearlyBooks(h, a)
  {
    assert BookAt(h, {}, multiset{}, a);
    forall x ensures x != a ==> BookAt(h, {}, multiset{}, x) {
      assert BookAt(h, {}, multiset{}, x);
    }
  }

  lemma {:induction false} NearlyIsBooks(h: Heap, a: SetId)
    requires NearlyBooks(h, a) && h.sets[a].refCount >= 1
    ensures Books(h, {}, multiset{})
  {
    forall x ensures BookAt(h, {}, multiset{}, x) {
    }
  }

  /** A set that forwards has, directly or through sets forwarding to it, a pointer. */
  lemma {:induction false} ForwarderHasPointer(h: Heap, a: SetId, x: SetId) returns (p: Pointer)
    requires NearlyBooks(h, a) && Partition(h) && Active(h, a) && x in h.sets && h.sets[x].forward.Some?
    ensures PointerAt(h, p) && Tracked(h, p) && x in h.root && Home(h, p) == h.root[x]
    decreases h.next - x
  {
    assert BookAt(h, {}, multiset{}, x) && SetAt(h, x);
    if Attached(h.recs, x) != {} {
      p :| p in Attached(h.recs, x);
      assert PointerAt(h, p);
    } else {
      assert Forwarders(h.sets, {}, x) != {};
      var t :| t in Forwarders(h.sets, {}, x);
      assert BookAt(h, {}, multiset{}, t) && SetAt(h, t);
      p := ForwarderHasPointer(h, a, t);
    }
  }

  /** A referenced active set without unknown instructions has a pointer. */
  lemma {:induction false} ReferencedHasPointer(h: Heap, a: SetId, x: SetId)
    requires NearlyBooks(h, a) && Partition(h) && Active(h, a) && Active(h, x) && h.sets[x].refCount >= 1
    ensures h.sets[x].unknown == [] ==> h.sets[x].ptrs != []
    ensures !h.sets[x].may ==> h.sets[x].ptrs != [] && h.sets[x].unknown == []
  {
    assert x != a ==> BookAt(h, {}, multiset{}, x);
    assert SetAt(h, x);
    if h.sets[x].unknown == [] {
      if Attached(h.recs, x) != {} {
        var p :| p in Attached(h.recs, x);
        assert PointerAt(h, p);
      } else {
        assert Forwarders(h.sets, {}, x) != {};
        var t :| t in Forwarders(h.sets, {}, x);
        assert SetAt(h, t);
        var p := ForwarderHasPointer(h, a, t);
      }
    }
  }

  /** The asserts of `aliasesPointer`: a must-alias set has a pointer and no unknown instructions. */
  lemma {:induction false} MustHasPointer(h: Heap, x: SetId)
    requires Books(h, {}, multiset{}) && Partition(h) && Active(h, x)
    ensures h.sets[x].unknown == [] ==> h.sets[x].ptrs != []
    ensures !h.sets[x].may ==> h.sets[x].ptrs != [] && h.sets[x].unknown == []
  {
    BooksAreNearly(h, x);
    assert BookAt(h, {}, multiset{}, x);
    ReferencedHasPointer(h, x, x);
  }

  // ---- the merge ----

  /** The surviving set, with `may` as the outcome of the alias check. */
  function Survivor(s: AliasSet, t: AliasSet, may: bool): AliasSet {
    s.(access := s.access.Join(t.access), may := may, unknown := s.unknown + t.unknown,
       refCount := s.refCount + 1 + (if s.unknown == [] && t.unknown != [] then 1 else 0),
       ptrs := s.ptrs + t.ptrs, size := s.size + (if t.ptrs != [] then t.size else 0))
  }

  /** The set that forwards from now on. */
  function Emptied(t: AliasSet, into: SetId): AliasSet {
    t.(forward := Some(into), unknown := [], ptrs := [], size := if t.ptrs != [] then 0 else t.size)
  }

  function Rerooted(root: map<SetId, SetId>, a: SetId, b: SetId): map<SetId, SetId> {
    map x | x in root :: if root[x] == b then a else root[x]
  }

  /** `b` merged into `a`; the reference that `b` held for its unknown instructions is still counted. */
  function Merged(h: Heap, a: SetId, b: SetId, may: bool): Heap
    requires a in h.sets && b in h.sets
  {
    var s, t := h.sets[a], h.sets[b];
    h.(sets := h.sets[a := Survivor(s, t, may)][b := Emptied(t, a)],
       total := h.total + (if may then (if s.may then 0 else s.size) + (if t.may then 0 else t.size) else 0),
       root := Rerooted(h.root, a, b))
  }

  function UnknownDebt(h: Heap, b: SetId): multiset<SetId>
    requires b in h.sets
  {
    if h.sets[b].unknown != [] then multiset{b} else multiset{}
  }

  ghost predicate CanMerge(h: Heap, a: SetId, b: SetId, may: bool) {
    && NearlyBooks(h, a) && Partition(h) && Active(h, a) && Active(h, b) && a != b
    && (h.sets[a].may || h.sets[a].refCount >= 1)
    && Rank(a, h.any) < Rank(b, h.any) && (h.sets[a].may || h.sets[b].may ==> may)
    && !h.sets[b].any
  }

  lemma {:induction false} MergedBookAt(h: Heap, a: SetId, b: SetId, may: bool, y: SetId)
    requires CanMerge(h, a, b, may)
    ensures BookAt(Merged(h, a, b, may), {}, UnknownDebt(h, b), y)
  {
    var h' := Merged(h, a, b, may);
    if y != a {
      assert BookAt(h, {}, multiset{}, y);
      SameForwarders(h.sets, h'.sets, {}, y);
    } else {
      MergedBookAtSurvivor(h, a, b, may);
    }
  }

  lemma {:induction false} MergedBookAtSurvivor(h: Heap, a: SetId, b: SetId, may: bool)
    requires CanMerge(h, a, b, may)
    ensures BookAt(Merged(h, a, b, may), {}, UnknownDebt(h, b), a)
  {
    var h' := Merged(h, a, b, may);
    assert Forwarders(h'.sets, {}, a) == Forwarders(h.sets, {}, a) + {b};
    assert Attached(h'.recs, a) == Attached(h.recs, a);
  }

  lemma {:induction false} MergedBooks(h: Heap, a: SetId, b: SetId, may: bool)
    requires CanMerge(h, a, b, may)
    ensures Books(Merged(h, a, b, may), {}, UnknownDebt(h, b))
  {
    forall y ensures BookAt(Merged(h, a, b, may), {}, UnknownDebt(h, b), y) {
      MergedBookAt(h, a, b, may, y);
    }
  }

  lemma {:induction false} MergedSetAt(h: Heap, a: SetId, b: SetId, may: bool, x: SetId)
    requires CanMerge(h, a, b, may)
    ensures SetAt(Merged(h, a, b, may), x)
  {
    var h' := Merged(h, a, b, may);
    assert SetAt(h, x) && SetAt(h, a) && SetAt(h, b);
    if x in h.sets {
      assert SetAt(h, h.root[x]);
      assert h'.root[x] == if h.root[x] == b then a else h.root[x];
      forall p | p in h'.sets[x].ptrs
        ensures Tracked(h', p) && h'.recs[p].set_.value in h'.root && Home(h', p) == x
      {
      }
      if x == a {
        MergedDistinct(h, a, b, may);
      }
    }
  }

  lemma {:induction false} MergedDistinct(h: Heap, a: SetId, b: SetId, may: bool)
    requires CanMerge(h, a, b, may)
    ensures var ps := h.sets[a].ptrs + h.sets[b].ptrs;
            forall i, j :: 0 <= i < j < |ps| ==> ps[i] != ps[j]
  {
    assert SetAt(h, a) && SetAt(h, b);
    var ps, n := h.sets[a].ptrs + h.sets[b].ptrs, |h.sets[a].ptrs|;
    forall i, j | 0 <= i < j < |ps| ensures ps[i] != ps[j] {
      if i < n <= j {
        assert Home(h, h.sets[a].ptrs[i]) == a && Home(h, h.sets[b].ptrs[j - n]) == b;
      }
    }
  }

  lemma {:induction false} MergedPointerAt(h: Heap, a: SetId, b: SetId, may: bool, p: Pointer)
    requires CanMerge(h, a, b, may)
    ensures PointerAt(Merged(h, a, b, may), p)
    ensures Tracked(h, p) && h.recs[p].set_.value in h.root ==>
              Home(Merged(h, a, b, may), p) == if Home(h, p) == b then a else Home(h, p)
  {
    assert PointerAt(h, p);
    if Tracked(h, p) {
      assert SetAt(h, h.recs[p].set_.value);
    }
  }

  /** The partition with the members of `b` moved to `a`. */
  function Moved(homes: map<Pointer, SetId>, a: SetId, b: SetId): map<Pointer, SetId> {
    map p | p in homes :: if homes[p] == b then a else homes[p]
  }

  lemma {:induction false} MergedPartition(h: Heap, a: SetId, b: SetId, may: bool)
    requires CanMerge(h, a, b, may)
    ensures Partition(Merged(h, a, b, may))
    ensures Homes(Merged(h, a, b, may)) == Moved(Homes(h), a, b)
  {
    forall x ensures SetAt(Merged(h, a, b, may), x) {
      MergedSetAt(h, a, b, may, x);
    }
    forall p ensures PointerAt(Merged(h, a, b, may), p) {
      MergedPointerAt(h, a, b, may, p);
    }
    forall p | p in Homes(h) ensures Homes(Merged(h, a, b, may))[p] == Moved(Homes(h), a, b)[p] {
      MergedPointerAt(h, a, b, may, p);
    }
  }

  /** A set without pointers takes its size along into oblivion. */
  function LostSize(s: AliasSet): int {
    if s.ptrs == [] && s.may then s.size else 0
  }

  lemma {:induction false} MergedDrift(h: Heap, a: SetId, b: SetId, may: bool)
    requires CanMerge(h, a, b, may)
    ensures Drift(Merged(h, a, b, may)) == Drift(h) + LostSize(h.sets[b])
  {
    var h' := Merged(h, a, b, may);
    assert BookAt(h, {}, multiset{}, b);
    ReferencedHasPointer(h, a, b);
    var mid := h.sets[a := Survivor(h.sets[a], h.sets[b], may)];
    MaySizesChange(h.sets, mid, h.next, a);
    MaySizesChange(mid, h'.sets, h.next, b);
  }

  /** Sets that have no part in the merge stay active, and keep all but their reference count, or stay inactive. */
  ghost predicate BystanderAt(h: Heap, h': Heap, a: SetId, b: SetId, y: SetId) {
    && (y != a && y != b && Active(h, y) ==>
          Active(h', y) && h'.sets[y] == h.sets[y].(refCount := h'.sets[y].refCount))
    && (Active(h', y) ==> Active(h, y))
    && (y in h'.sets ==> y in h.sets && h'.sets[y].forward == if y == b then Some(a) else h.sets[y].forward)
  }

  lemma {:induction false} BystanderStays(h: Heap, h': Heap, a: SetId, b: SetId, may: bool, y: SetId)
    requires CanMerge(h, a, b, may)
    requires Pruned(Merged(h, a, b, may), h', {}) && Books(h', {}, multiset{}) && Partition(h')
    ensures BystanderAt(h, h', a, b, y)
  {
    assert PrunedAt(Merged(h, a, b, may), h', {}, y);
    if y != a && y != b && Active(h, y) {
      assert BookAt(h, {}, multiset{}, y);
      ReferencedHasPointer(h, a, y);
      assert SetAt(h, y);
      if h.sets[y].ptrs != [] {
        var p := h.sets[y].ptrs[0];
        MergedPointerAt(h, a, b, may, p);
        assert PointerAt(h', p);
      }
    }
  }

  /** After the merge, whether or not `b` has been given up. */
  ghost predicate MergeDone(h: Heap, h': Heap, a: SetId, b: SetId, may: bool)
    requires CanMerge(h, a, b, may)
  {
    && Books(h', {}, multiset{}) && Partition(h')
    && Homes(h') == Moved(Homes(h), a, b)
    && Active(h', a) && h'.sets[a] == Survivor(h.sets[a], h.sets[b], may).(refCount := h'.sets[a].refCount)
    && !Active(h', b) && Above(h, h', b) && (forall y :: BystanderAt(h, h', a, b, y))
    && Drift(h') == Drift(h) + LostSize(h.sets[b])
    && h'.recs == h.recs && h'.any == h.any && h'.next == h.next
  }

  lemma {:induction false} MergedAbove(h: Heap, a: SetId, b: SetId, may: bool)
    requires CanMerge(h, a, b, may)
    ensures Above(h, Merged(h, a, b, may), b)
  {
    forall y ensures AboveAt(h, Merged(h, a, b, may), b, y) {
    }
  }

  lemma {:induction false} MergeIsDone(h: Heap, h': Heap, a: SetId, b: SetId, may: bool)
    requires CanMerge(h, a, b, may)
    requires var m := Merged(h, a, b, may);
             && Pruned(m, h', {}) && Above(m, h', b) && Books(h', {}, multiset{}) && Drift(h') == Drift(m)
             && (h.sets[b].unknown == [] ==> h' == m)
    ensures MergeDone(h, h', a, b, may)
  {
    var m := Merged(h, a, b, may);
    MergedPartition(h, a, b, may);
    MergedDrift(h, a, b, may);
    MergedAbove(h, a, b, may);
    AboveTwice(h, m, h', b, b);
    PrunedIsShortened(m, h');
    ShorteningKeepsPartition(m, h', multiset{});
    SurvivorStays(h, h', a, b, may);
    forall y ensures BystanderAt(h, h', a, b, y) {
      BystanderStays(h, h', a, b, may, y);
    }
  }

  lemma {:induction false} SurvivorStays(h: Heap, h': Heap, a: SetId, b: SetId, may: bool)
    requires CanMerge(h, a, b, may)
    requires Pruned(Merged(h, a, b, may), h', {}) && Books(h', {}, multiset{})
    requires h.sets[b].unknown == [] ==> h' == Merged(h, a, b, may)
    ensures Active(h', a) && h'.sets[a] == Survivor(h.sets[a], h.sets[b], may).(refCount := h'.sets[a].refCount)
    ensures !Active(h', b)
  {
    var m := Merged(h, a, b, may);
    assert PrunedAt(m, h', {}, a) && PrunedAt(m, h', {}, b);
    assert BookAt(h', {}, multiset{}, b);
  }
}
