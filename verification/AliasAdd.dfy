/** What adding a pointer, an unknown instruction or a set does to the books and to the partition. */
module AliasAdd {
  import opened Options
  import opened AliasSets
  import opened AliasMerge

  // ---- a new set ----

  function WithSet(h: Heap, s: AliasSet): Heap {
    h.(sets := h.sets[h.next := s], next := h.next + 1, root := h.root[h.next := h.next])
  }

  /** No set has been created yet under the number `next`. */
  ghost predicate NextIsFree(h: Heap) {
    h.next !in h.sets && Attached(h.recs, h.next) == {} && Forwarders(h.sets, {}, h.next) == {}
    && forall p :: Tracked(h, p) ==> h.recs[p].set_.value != h.next
  }

  lemma {:induction false} NextFree(h: Heap)
    requires Books(h, {}, multiset{}) && Partition(h)
    ensures NextIsFree(h)
  {
    assert BookAt(h, {}, multiset{}, h.next);
    forall p | Tracked(h, p) ensures h.recs[p].set_.value != h.next {
      assert PointerAt(h, p);
    }
    forall t ensures t !in Forwarders(h.sets, {}, h.next) {
      assert BookAt(h, {}, multiset{}, t);
    }
  }

  /** A set without members has no part in the partition. */
  lemma {:induction false} NewSetPartition(h: Heap, s: AliasSet)
    requires Books(h, {}, multiset{}) && Partition(h)
    requires s.forward.None? && s.ptrs == [] && s.unknown == [] && s.size == 0
    requires (s.any <==> h.any == Some(h.next)) && (s.any ==> s.may)
    ensures Partition(WithSet(h, s)) && Homes(WithSet(h, s)) == Homes(h)
  {
    NextFree(h);
    var h' := WithSet(h, s);
    forall x ensures SetAt(h', x) {
      NewSetKeepsSet(h, s, x);
    }
    forall p ensures PointerAt(h', p) {
      assert PointerAt(h, p);
    }
  }

  lemma {:induction false} NewSetKeepsSet(h: Heap, s: AliasSet, x: SetId)
    requires Partition(h) && NextIsFree(h)
    requires s.forward.None? && s.ptrs == [] && s.unknown == [] && s.size == 0
    requires (s.any <==> h.any == Some(h.next)) && (s.any ==> s.may)
    ensures SetAt(WithSet(h, s), x)
  {
    assert SetAt(h, x);
    if x in h.sets {
      NewSetKeepsList(h, s, x);
      assert h.root[x] != h.next && (h.sets[x].forward.Some? ==> h.sets[x].forward.value != h.next);
    }
  }

  lemma {:induction false} NewSetKeepsList(h: Heap, s: AliasSet, x: SetId)
    requires SetAt(h, x) && x in h.sets && NextIsFree(h)
    ensures ListAt(WithSet(h, s), x)
  {
  }

  lemma {:induction false} NewSetBooks(h: Heap, s: AliasSet)
    requires Books(h, {}, multiset{}) && Partition(h) && s.forward.None? && s.unknown == [] && s.refCount == 0
    ensures NearlyBooks(WithSet(h, s), h.next)
    ensures Drift(WithSet(h, s)) == Drift(h) - MaySize(s)
  {
    NextFree(h);
    var h' := WithSet(h, s);
    forall x ensures x != h.next ==> BookAt(h', {}, multiset{}, x) {
      assert BookAt(h, {}, multiset{}, x);
      SameForwarders(h.sets, h'.sets, {}, x);
    }
    SameForwarders(h.sets, h'.sets, {}, h.next);
    MaySizesChange(h.sets, h'.sets, h.next, h.next);
  }

  // ---- a pointer ----

  /** Records that differ in tags only. */
  ghost predicate Retagged(recs: Records, recs': Records) {
    && recs'.Keys == recs.Keys
    && forall p :: p in recs ==> recs'[p].set_ == recs[p].set_ && (recs[p].tag.Some? ==> recs'[p].tag.Some?)
  }

  lemma {:induction false} RetaggingIsNoMatter(h: Heap, recs': Records)
    requires Retagged(h.recs, recs')
    ensures forall x :: Attached(recs', x) == Attached(h.recs, x)
    ensures forall ex, owed, x :: BookAt(h, ex, owed, x) ==> BookAt(h.(recs := recs'), ex, owed, x)
    ensures Partition(h) ==> Partition(h.(recs := recs')) && Homes(h.(recs := recs')) == Homes(h)
    ensures Drift(h.(recs := recs')) == Drift(h)
  {
    var h' := h.(recs := recs');
    forall x ensures Attached(recs', x) == Attached(h.recs, x) {
    }
    if Partition(h) {
      forall x ensures SetAt(h', x) {
        assert SetAt(h, x);
      }
      forall p ensures PointerAt(h', p) {
        assert PointerAt(h, p);
      }
    }
  }

  /** `p` added to the list of `a`, which is a may-alias set from now on if `may`. */
  function WithPointer(h: Heap, a: SetId, p: Pointer, tag: Tag, may: bool): Heap
    requires a in h.sets
  {
    var s := h.sets[a];
    h.(sets := h.sets[a := s.(may := may, size := s.size + 1, ptrs := s.ptrs + [p], refCount := s.refCount + 1)],
       recs := h.recs[p := Record(Some(a), Some(tag))],
       total := h.total + if may then 1 + (if s.may then 0 else s.size) else 0)
  }

  ghost predicate CanAdd(h: Heap, a: SetId, p: Pointer, may: bool) {
    && NearlyBooks(h, a) && Partition(h) && Active(h, a) && p in h.recs && h.recs[p].set_.None?
    && (h.sets[a].may ==> may)
  }

  lemma {:induction false} AddedBooks(h: Heap, a: SetId, p: Pointer, tag: Tag, may: bool)
    requires CanAdd(h, a, p, may)
    ensures Books(WithPointer(h, a, p, tag, may), {}, multiset{})
  {
    forall x ensures BookAt(WithPointer(h, a, p, tag, may), {}, multiset{}, x) {
      AddedBookAt(h, a, p, tag, may, x);
    }
  }

  lemma {:induction false} AddedAttached(h: Heap, a: SetId, p: Pointer, tag: Tag, x: SetId)
    requires p in h.recs && h.recs[p].set_.None?
    ensures |Attached(h.recs[p := Record(Some(a), Some(tag))], x)| == |Attached(h.recs, x)| + if x == a then 1 else 0
  {
    var b := Attached(h.recs[p := Record(Some(a), Some(tag))], x);
    if x == a {
      assert b == Attached(h.recs, x) + {p};
    } else {
      assert b == Attached(h.recs, x);
    }
  }

  lemma {:induction false} AddedBookAt(h: Heap, a: SetId, p: Pointer, tag: Tag, may: bool, x: SetId)
    requires CanAdd(h, a, p, may)
    ensures BookAt(WithPointer(h, a, p, tag, may), {}, multiset{}, x)
  {
    var h' := WithPointer(h, a, p, tag, may);
    AddedAttached(h, a, p, tag, x);
    SameForwarders(h.sets, h'.sets, {}, x);
    if x != a {
      assert BookAt(h, {}, multiset{}, x);
    }
  }

  lemma {:induction false} AddedPartition(h: Heap, a: SetId, p: Pointer, tag: Tag, may: bool)
    requires CanAdd(h, a, p, may)
    ensures Partition(WithPointer(h, a, p, tag, may))
    ensures Homes(WithPointer(h, a, p, tag, may)) == Homes(h)[p := a]
  {
    var h' := WithPointer(h, a, p, tag, may);
    assert SetAt(h, a);
    forall x ensures SetAt(h', x) {
      assert SetAt(h, x);
      if x in h.sets {
        AddedListAt(h, a, p, tag, may, x);
        assert SetAt(h, h.root[x]);
      }
    }
    forall q ensures PointerAt(h', q) {
      assert PointerAt(h, q);
    }
  }

  lemma {:induction false} AddedListAt(h: Heap, a: SetId, p: Pointer, tag: Tag, may: bool, x: SetId)
    requires CanAdd(h, a, p, may) && x in h.sets
    ensures ListAt(WithPointer(h, a, p, tag, may), x)
  {
    var h' := WithPointer(h, a, p, tag, may);
    assert SetAt(h, x) && SetAt(h, a);
    assert forall q :: q in h.sets[x].ptrs ==> q != p;
    forall q | q in h'.sets[x].ptrs
      ensures Tracked(h', q) && h'.recs[q].set_.value in h'.root && Home(h', q) == x
    {
      if q != p {
        assert q in h.sets[x].ptrs;
      }
    }
  }

  lemma {:induction false} AddedDrift(h: Heap, a: SetId, p: Pointer, tag: Tag, may: bool)
    requires CanAdd(h, a, p, may)
    ensures Drift(WithPointer(h, a, p, tag, may)) == Drift(h)
  {
    MaySizesChange(h.sets, WithPointer(h, a, p, tag, may).sets, h.next, a);
  }

  // ---- an unknown instruction ----

  function WithUnknown(h: Heap, a: SetId, i: Inst, access: Access): Heap
    requires a in h.sets
  {
    var s := h.sets[a];
    h.(sets := h.sets[a := s.(unknown := s.unknown + [i], refCount := s.refCount + (if s.unknown == [] then 1 else 0),
                              may := true, access := access)])
  }

  lemma {:induction false} UnknownAdded(h: Heap, a: SetId, i: Inst, access: Access)
    requires NearlyBooks(h, a) && Partition(h) && Active(h, a)
    ensures Books(WithUnknown(h, a, i, access), {}, multiset{})
    ensures Partition(WithUnknown(h, a, i, access)) && Homes(WithUnknown(h, a, i, access)) == Homes(h)
    ensures Drift(WithUnknown(h, a, i, access)) == Drift(h) - if h.sets[a].may then 0 else h.sets[a].size
  {
    var h' := WithUnknown(h, a, i, access);
    forall x ensures BookAt(h', {}, multiset{}, x) {
      SameForwarders(h.sets, h'.sets, {}, x);
      if x != a {
        assert BookAt(h, {}, multiset{}, x);
      }
    }
    forall x ensures SetAt(h', x) {
      assert SetAt(h, x);
    }
    forall p ensures PointerAt(h', p) {
      assert PointerAt(h, p);
    }
    MaySizesChange(h.sets, h'.sets, h.next, a);
  }

  /** The total is not the size of the may-alias sets in general: an unknown instruction makes
      a must-alias set a may-alias set, and its pointers are not counted then. */
  lemma {:induction false} UnknownSpoilsTotal() returns (h: Heap)
    ensures Books(h, {}, multiset{}) && Partition(h) && Active(h, 0)
    ensures Drift(h) == 0 && Drift(WithUnknown(h, 0, 0, MOD_REF)) == -1
  {
    h := Heap(map[0 := EMPTY_SET.(refCount := 1, ptrs := [7], size := 1)],
              map[7 := Record(Some(0), Some(0))], None, 1, 0,
              map[0 := 0]);
    assert Attached(h.recs, 0) == {7} && Forwarders(h.sets, {}, 0) == {};
    forall x ensures BookAt(h, {}, multiset{}, x) && SetAt(h, x) {
    }
    forall p ensures PointerAt(h, p) {
    }
    assert MaySizes(h.sets, 1) == MaySizes(h.sets, 0) + MaySize(h.sets[0]);
    BooksAreNearly(h, 0);
    UnknownAdded(h, 0, 0, MOD_REF);
  }
}
