/** Merging all sets into one once the tracker is saturated. */
module AliasSaturate {
  import opened Options
  import opened AliasSets
  import opened AliasMerge
  import opened AliasAdd
  import opened AliasGather

  const ANY_SET := EMPTY_SET.(access := MOD_REF, may := true, any := true)

  /** The tracker with the set that all others are going to be merged into. */
  function Opened(h: Heap): Heap {
    WithSet(h.(any := Some(h.next)), ANY_SET)
  }

  function ActiveBefore(h: Heap, n: SetId): set<SetId> {
    set x | x in h.sets && x < n && Active(h, x)
  }

  /** Sets before `n` forward to `z`; the others, and those are still to be visited, are as they were. */
  ghost predicate DoneAt(h0: Heap, h: Heap, z: SetId, n: SetId, y: SetId) {
    && (y in h.sets && y != z ==> y in h0.sets && y < z)
    && (y < n && y in h.sets ==> h.sets[y].forward == Some(z))
    && (n <= y < z ==> (y in h.sets <==> y in h0.sets) && (y in h0.sets ==> h.sets[y] == h0.sets[y]))
  }

  ghost predicate Everything(h0: Heap, h: Heap, z: SetId, n: SetId)
    requires z in h.sets
  {
    forall x :: x in ActiveBefore(h0, n) ==> Absorbed(h0.sets[x], h.sets[z])
  }

  /** All sets before `n` have been merged into `z`. */
  ghost predicate Saturating(h0: Heap, h: Heap, z: SetId, n: SetId) {
    && Books(h0, {}, multiset{}) && Partition(h0) && h0.any == None && z == h0.next
    && NearlyBooks(h, z) && Partition(h) && Active(h, z)
    && h.sets[z].any && h.sets[z].may && h.sets[z].access == MOD_REF
    && h.any == Some(z) && h.next == z + 1 && h.recs == h0.recs && n <= z
    && (forall y :: DoneAt(h0, h, z, n, y))
    && Homes(h) == Gathered(Homes(h0), ActiveBefore(h0, n), z)
    && Everything(h0, h, z, n) && Holds(h0, ActiveBefore(h0, n), n, z, h.sets[z])
    && (h.sets[z].refCount >= 1 || forall y: SetId :: y < n ==> y !in h0.sets)
    && (NoUnknown(h0) ==> NoUnknown(h))
    && Drift(h) == Drift(h0) + Lost(h0, h0.sets.Keys, n)
  }

  lemma {:induction false} MarkedSaturated(h: Heap)
    requires Books(h, {}, multiset{}) && Partition(h) && h.any == None
    ensures var h' := h.(any := Some(h.next));
            Books(h', {}, multiset{}) && Partition(h') && Homes(h') == Homes(h) && Drift(h') == Drift(h)
  {
    var h' := h.(any := Some(h.next));
    forall x ensures BookAt(h', {}, multiset{}, x) && SetAt(h', x) {
      assert BookAt(h, {}, multiset{}, x) && SetAt(h, x);
    }
    forall p ensures PointerAt(h', p) {
      assert PointerAt(h, p);
    }
  }

  lemma {:induction false} SaturatingStart(h: Heap)
    requires Books(h, {}, multiset{}) && Partition(h) && h.any == None
    ensures Saturating(h, Opened(h), h.next, 0)
  {
    var h1, h' := h.(any := Some(h.next)), Opened(h);
    MarkedSaturated(h);
    NewSetPartition(h1, ANY_SET);
    NewSetBooks(h1, ANY_SET);
    NextFree(h);
    forall y ensures DoneAt(h, h', h.next, 0, y) {
      assert BookAt(h, {}, multiset{}, y);
    }
    assert Gathered(Homes(h), {}, h.next) == Homes(h);
    assert ActiveBefore(h, 0) == {};
    assert Holds(h, {}, 0, h.next, ANY_SET);
    assert h'.sets[h.next] == ANY_SET;
  }

  lemma {:induction false} NothingThere(h0: Heap, h: Heap, z: SetId, n: SetId)
    requires Saturating(h0, h, z, n) && n < z && n !in h.sets
    ensures Saturating(h0, h, z, n + 1)
  {
    var m := n + 1;
    assert DoneAt(h0, h, z, n, n);
    assert ActiveBefore(h0, m) == ActiveBefore(h0, n);
    forall y ensures DoneAt(h0, h, z, m, y) {
      assert DoneAt(h0, h, z, n, y);
    }
  }

  /** The next active set can be merged. */
  lemma {:induction false} CanSaturate(h0: Heap, h: Heap, z: SetId, n: SetId)
    requires Saturating(h0, h, z, n) && n < z && Active(h, n)
    ensures CanMerge(h, z, n, true)
  {
    assert SetAt(h, n) && SetAt(h, z);
  }

  lemma {:induction false} EverythingStays(h0: Heap, h: Heap, h': Heap, z: SetId, n: SetId)
    requires Active(h, z) && Active(h, n) && Everything(h0, h, z, n) && n in h0.sets && h.sets[n] == h0.sets[n]
    requires CanMerge(h, z, n, true) && MergeDone(h, h', z, n, true)
    ensures Everything(h0, h', z, n + 1)
  {
    assert Absorbed(h.sets[n], h'.sets[z]) && Absorbed(h.sets[z], h'.sets[z]);
    var m := n + 1;
    forall x | x in ActiveBefore(h0, m) ensures Absorbed(h0.sets[x], h'.sets[z]) {
      assert x != n ==> x in ActiveBefore(h0, n);
    }
  }

  lemma {:induction false} ContentsStay(h0: Heap, h: Heap, h': Heap, z: SetId, n: SetId)
    requires Books(h0, {}, multiset{}) && Partition(h0) && n != z
    requires Active(h, z) && Active(h, n) && n in h0.sets && h.sets[n] == h0.sets[n]
    requires Holds(h0, ActiveBefore(h0, n), n, z, h.sets[z])
    requires CanMerge(h, z, n, true) && MergeDone(h, h', z, n, true)
    ensures Holds(h0, ActiveBefore(h0, n) + {n}, n + 1, z, h'.sets[z])
  {
    MustHasPointer(h0, n);
    HoldsNext(h0, ActiveBefore(h0, n), n, z, h.sets[z], h'.sets[z]);
  }

  lemma {:induction false} NextDone(h0: Heap, h: Heap, h': Heap, z: SetId, n: SetId, m: SetId)
    requires m == n + 1 && (forall y :: DoneAt(h0, h, z, n, y)) && h.any == Some(z) && n < z && Active(h, n)
    requires CanMerge(h, z, n, true) && MergeDone(h, h', z, n, true)
    ensures forall y :: DoneAt(h0, h', z, m, y)
  {
    forall y ensures DoneAt(h0, h', z, m, y) {
      assert DoneAt(h0, h, z, n, y) && BystanderAt(h, h', z, n, y) && AboveAt(h, h', n, y);
    }
  }

  lemma {:induction false} ActiveMerged(h0: Heap, h: Heap, h': Heap, z: SetId, n: SetId)
    requires Saturating(h0, h, z, n) && n < z && Active(h, n)
    requires CanMerge(h, z, n, true) && MergeDone(h, h', z, n, true)
    ensures Saturating(h0, h', z, n + 1)
  {
    var m := n + 1;
    assert DoneAt(h0, h, z, n, n);
    assert ActiveBefore(h0, m) == ActiveBefore(h0, n) + {n};
    MovedNext(Homes(h0), ActiveBefore(h0, n), z, n);
    NextDone(h0, h, h', z, n, m);
    EverythingStays(h0, h, h', z, n);
    ContentsStay(h0, h, h', z, n);
    BooksAreNearly(h', z);
    assert BookAt(h', {}, multiset{}, z);
    if NoUnknown(h0) {
      MergeKeepsNoUnknown(h, h', z, n, true);
    }
  }

  // ---- a set that forwards already ----

  /** `n` forwards to `z`, which has counted the reference; the one to its former target is owed. */
  function Rerouted(h: Heap, n: SetId, z: SetId): Heap
    requires n in h.sets && z in h.sets
  {
    h.(sets := h.sets[n := h.sets[n].(forward := Some(z))][z := h.sets[z].(refCount := h.sets[z].refCount + 1)])
  }

  /** The target of a set that is visited has been visited before, so it forwards to `z`. */
  lemma {:induction false} TargetDone(h0: Heap, h: Heap, z: SetId, n: SetId)
    requires Saturating(h0, h, z, n) && n < z && n in h.sets && h.sets[n].forward.Some?
    ensures var f := h.sets[n].forward.value;
            && f < n && f in h.sets && h.sets[f].forward == Some(z) && n in h.root && h.root[n] == z
            && Books(h, {}, multiset{})
  {
    var f := h.sets[n].forward.value;
    assert DoneAt(h0, h, z, n, n) && BookAt(h0, {}, multiset{}, n);
    assert BookAt(h, {}, multiset{}, n);
    assert DoneAt(h0, h, z, n, f);
    assert SetAt(h, n) && SetAt(h, f) && SetAt(h, z);
    NearlyIsBooks(h, z);
  }

  lemma {:induction false} ReroutedBooks(h: Heap, n: SetId, f: SetId, z: SetId)
    requires Books(h, {}, multiset{}) && n in h.sets && h.sets[n].forward == Some(f)
    requires Active(h, z) && h.any == Some(z) && f != z
    ensures Books(Rerouted(h, n, z), {}, multiset{f}) && Drift(Rerouted(h, n, z)) == Drift(h)
  {
    var h' := Rerouted(h, n, z);
    assert BookAt(h, {}, multiset{}, n);
    forall y ensures BookAt(h', {}, multiset{f}, y) {
      assert BookAt(h, {}, multiset{}, y);
      ReroutedForwarders(h, n, f, z, y);
    }
    var mid := h.sets[n := h.sets[n].(forward := Some(z))];
    MaySizesChange(h.sets, mid, h.next, n);
    MaySizesChange(mid, h'.sets, h.next, z);
  }

  lemma {:induction false} ReroutedForwarders(h: Heap, n: SetId, f: SetId, z: SetId, y: SetId)
    requires n in h.sets && h.sets[n].forward == Some(f) && z in h.sets && f != z && n != z
    ensures |Forwarders(Rerouted(h, n, z).sets, {}, y)|
         == |Forwarders(h.sets, {}, y)| + (if y == z then 1 else 0) - if y == f then 1 else 0
  {
    var a, b := Forwarders(h.sets, {}, y), Forwarders(Rerouted(h, n, z).sets, {}, y);
    ReroutedForwarder(h, n, f, z, y, a, b);
    if y == z {
      assert b == a + {n};
    } else if y == f {
      assert a == b + {n};
    } else {
      assert a == b;
    }
  }

  lemma {:induction false} ReroutedForwarder(h: Heap, n: SetId, f: SetId, z: SetId, y: SetId, a: set<SetId>,
          b: set<SetId>)
    requires n in h.sets && h.sets[n].forward == Some(f) && z in h.sets && f != z && n != z
    requires a == Forwarders(h.sets, {}, y) && b == Forwarders(Rerouted(h, n, z).sets, {}, y)
    ensures n in a <==> y == f
    ensures n in b <==> y == z
    ensures forall t :: t != n ==> (t in a <==> t in b)
  {
  }

  lemma {:induction false} ReroutedShortens(h: Heap, n: SetId, f: SetId, z: SetId)
    requires Books(h, {}, multiset{}) && Partition(h) && n in h.sets && h.sets[n].forward == Some(f) && n in h.root
    requires h.root[n] == z
    requires Active(h, z) && h.any == Some(z) && f != z
    ensures Shortened(h, Rerouted(h, n, z))
    ensures Partition(Rerouted(h, n, z)) && Homes(Rerouted(h, n, z)) == Homes(h)
  {
    assert SetAt(h, z);
    forall y ensures ShortAt(h, Rerouted(h, n, z), y) {
      assert SetAt(h, y);
    }
    ReroutedBooks(h, n, f, z);
    ShorteningKeepsPartition(h, Rerouted(h, n, z), multiset{f});
  }

  lemma {:induction false} ForwarderRerouted(h0: Heap, h: Heap, h': Heap, z: SetId, n: SetId)
    requires Saturating(h0, h, z, n) && n < z && n in h.sets && h.sets[n].forward.Some?
    requires var m := Rerouted(h, n, z);
             Pruned(m, h', {}) && Above(m, h', h.sets[n].forward.value) && Books(h', {}, multiset{}) &&
                 Drift(h') == Drift(m)
    ensures Saturating(h0, h', z, n + 1)
  {
    var m, k, f := Rerouted(h, n, z), n + 1, h.sets[n].forward.value;
    TargetDone(h0, h, z, n);
    ReroutedBooks(h, n, f, z);
    ReroutedShortens(h, n, f, z);
    PrunedIsShortened(m, h');
    ShorteningKeepsPartition(m, h', multiset{});
    assert DoneAt(h0, h, z, n, n);
    assert ActiveBefore(h0, k) == ActiveBefore(h0, n);
    forall y ensures DoneAt(h0, h', z, k, y) {
      assert DoneAt(h0, h, z, n, y) && PrunedAt(m, h', {}, y) && AboveAt(m, h', f, y);
    }
    ReroutedTarget(h0, h, h', z, n);
    BooksAreNearly(h', z);
    assert BookAt(h', {}, multiset{}, z);
    if NoUnknown(h0) {
      PrunedNoUnknown(m, h');
    }
  }

  lemma {:induction false} ReroutedTarget(h0: Heap, h: Heap, h': Heap, z: SetId, n: SetId)
    requires Saturating(h0, h, z, n) && n < z && n in h.sets && h.sets[n].forward.Some?
    requires Pruned(Rerouted(h, n, z), h', {}) && Above(Rerouted(h, n, z), h', h.sets[n].forward.value)
    requires Books(h', {}, multiset{})
    ensures Active(h', z) && h'.sets[z] == h.sets[z].(refCount := h'.sets[z].refCount)
  {
    var m, f := Rerouted(h, n, z), h.sets[n].forward.value;
    TargetDone(h0, h, z, n);
    assert PrunedAt(m, h', {}, z) && AboveAt(m, h', f, n) && BookAt(h', {}, multiset{}, n);
  }

  lemma {:induction false} PrunedNoUnknown(h: Heap, h': Heap)
    requires Pruned(h, h', {}) && NoUnknown(h)
    ensures NoUnknown(h')
  {
    forall x | x in h'.sets ensures h'.sets[x].unknown == [] {
      assert PrunedAt(h, h', {}, x);
    }
  }

  lemma {:induction false} SaturatedDrift(h0: Heap, h: Heap, z: SetId)
    requires Saturating(h0, h, z, z)
    ensures Drift(h) == FullDrift(h0) && (NoUnknown(h0) ==> NoUnknown(h) && Drift(h) == Drift(h0))
  {
    if NoUnknown(h0) {
      NothingToLose(h0, h0.sets.Keys, z);
    }
  }

  lemma {:induction false} SaturatedHomes(h0: Heap, h: Heap, z: SetId)
    requires Saturating(h0, h, z, z)
    ensures Homes(h) == map p | p in Homes(h0) :: z
  {
    forall p | p in Homes(h0) ensures Homes(h)[p] == z {
      assert PointerAt(h0, p);
      var x := Homes(h0)[p];
      assert BookAt(h0, {}, multiset{}, x) && SetAt(h0, h0.recs[p].set_.value);
      assert x in ActiveBefore(h0, z);
    }
  }

  /** Set `z` has everything that was in the active sets, and may be accessed in any way. */
  ghost predicate Saturated(h0: Heap, h: Heap, z: SetId) {
    && Active(h, z) && h.sets[z].may && h.sets[z].any && h.sets[z].access.ref && h.sets[z].access.mod
    && Holds(h0, ActiveBefore(h0, z), z, z, h.sets[z]) && h.recs == h0.recs
  }

  /** In the end there is one set, and everything is in it. */
  lemma {:induction false} SaturatingDone(h0: Heap, h: Heap, z: SetId)
    requires Saturating(h0, h, z, z) && h0.sets != map[]
    ensures Books(h, {}, multiset{}) && Partition(h) && OneActive(h) && Grows(h0, h)
    ensures h.any == Some(z) && Active(h, z) && h.sets[z].access == MOD_REF && h.recs == h0.recs
    ensures Saturated(h0, h, z)
    ensures Homes(h) == map p | p in Homes(h0) :: z
  {
    var x0 :| x0 in h0.sets;
    assert BookAt(h0, {}, multiset{}, x0);
    NearlyIsBooks(h, z);
    forall x: SetId | Active(h, x) ensures h.any == Some(x) {
      assert DoneAt(h0, h, z, z, x);
    }
    forall x | Active(h0, x) ensures exists y :: Active(h, y) && Absorbed(h0.sets[x], h.sets[y]) {
      assert BookAt(h0, {}, multiset{}, x);
      assert x in ActiveBefore(h0, z);
      assert Absorbed(h0.sets[x], h.sets[z]);
    }
    SaturatedHomes(h0, h, z);
  }
}
