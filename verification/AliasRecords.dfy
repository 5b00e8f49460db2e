/** Redirecting a pointer's record to the set it has been merged into, and forgetting a pointer. */
module AliasRecords {
  import opened Options
  import opened AliasSets
  import opened AliasMerge
  import opened AliasGather
  import opened AliasPlace

  /** The same sets are active, and they differ in reference counts only. */
  ghost predicate SteadyAt(h: Heap, h': Heap, y: SetId) {
    && (Active(h', y) <==> Active(h, y))
    && (Active(h, y) ==> h'.sets[y] == h.sets[y].(refCount := h'.sets[y].refCount))
  }

  ghost predicate Steady(h: Heap, h': Heap) {
    forall y :: SteadyAt(h, h', y)
  }

  lemma {:induction false} SteadyTwice(h0: Heap, h1: Heap, h2: Heap)
    requires Steady(h0, h1) && Steady(h1, h2)
    ensures Steady(h0, h2)
  {
    forall y ensures SteadyAt(h0, h2, y) {
      assert SteadyAt(h0, h1, y) && SteadyAt(h1, h2, y);
    }
  }

  lemma {:induction false} SteadyGrows(h: Heap, h': Heap)
    requires Steady(h, h')
    ensures Grows(h, h')
    ensures h'.any == h.any && OneActive(h) && Partition(h) ==> OneActive(h')
  {
    forall x | Active(h, x) ensures exists y :: Active(h', y) && Absorbed(h.sets[x], h'.sets[y]) {
      assert SteadyAt(h, h', x);
      assert Absorbed(h.sets[x], h'.sets[x]);
    }
    if h'.any == h.any && OneActive(h) && Partition(h) {
      if h.any.Some? {
        forall x: SetId | Active(h', x) ensures h'.any == Some(x) {
          assert SteadyAt(h, h', x);
        }
        OneActiveIsActive(h);
        assert SteadyAt(h, h', h.any.value);
      }
    }
  }

  /** Changing records does not concern the sets. */
  lemma {:induction false} SameSetsGrow(h: Heap, h': Heap)
    requires h'.sets == h.sets && h'.any == h.any
    ensures Steady(h, h') && Grows(h, h') && (OneActive(h) ==> OneActive(h'))
  {
    forall y ensures SteadyAt(h, h', y) {
    }
    SteadyGrows(h, h');
    if OneActive(h) && h.any.Some? {
      forall x: SetId | Active(h', x) ensures h'.any == Some(x) {
        assert Active(h, x);
      }
    }
  }

  /** Looking up the set of a known pointer changes reference counts and what its record refers to. */
  lemma {:induction false} RefreshedIsRenewed(aa: Oracle, h0: Heap, h: Heap, h': Heap, loc: Location, a: SetId)
    requires loc.ptr in h0.recs && Refreshed(aa, h0, h, loc) && Steady(h, h') && Active(h', a)
    requires h'.recs.Keys == h.recs.Keys && forall q :: q in h.recs ==> h'.recs[q].tag == h.recs[q].tag
    ensures Renewed(aa, h0, h', loc, a)
  {
    var xs, seen := Uniting(aa, h0, loc), h0.(recs := Seen(aa, h0.recs, loc));
    var u := if xs == {} then a else First(xs);
    forall q ensures TagAt(aa, h0.recs, h'.recs, loc, None, q) {
    }
    assert SteadyAt(h, h', u);
    forall y ensures OthersAt(h0, h', xs, u, y) {
      assert SteadyAt(h, h', y) && (xs != {} ==> OthersAt(seen, h, xs, u, y));
    }
  }

  lemma {:induction false} SteadyFullDrift(h: Heap, h': Heap)
    requires Steady(h, h') && Drift(h') == Drift(h) && h'.next == h.next
    ensures FullDrift(h') == FullDrift(h)
  {
    forall x ensures LostIn(h', h'.sets.Keys, x) == LostIn(h, h.sets.Keys, x) {
      assert SteadyAt(h, h', x);
    }
    SameFullDrift(h, h');
  }

  lemma {:induction false} SteadySelf(h: Heap)
    ensures Steady(h, h) && Grows(h, h)
  {
    SameSetsGrow(h, h);
  }

  lemma {:induction false} SteadyKeeps(h: Heap, h': Heap)
    requires Steady(h, h') && Partition(h') && NoUnknown(h)
    ensures NoUnknown(h')
  {
    forall x | x in h'.sets ensures h'.sets[x].unknown == [] {
      assert SetAt(h', x) && SteadyAt(h, h', x);
    }
  }

  /** The set of a saturated tracker does not forward. */
  lemma {:induction false} OneActiveIsActive(h: Heap)
    requires OneActive(h) && Partition(h) && h.any.Some?
    ensures Active(h, h.any.value)
  {
    var z := h.any.value;
    assert SetAt(h, z);
    assert Active(h, h.root[z]);
  }

  /** A search in a saturated tracker finds its set. */
  lemma {:induction false} SaturatedFinds(aa: Oracle, h0: Heap, h: Heap, q: Query, found: Option<SetId>)
    requires Books(h0, {}, multiset{}) && Gathering(aa, h0, h, q, h0.next, found)
    ensures h0.any.Some? ==> found.Some?
  {
    if h0.any.Some? {
      var z := h0.any.value;
      OneActiveIsActive(h0);
      assert SetAt(h0, z) && BookAt(h0, {}, multiset{}, z);
      assert z in Selected(aa, h0, q, h0.next);
    }
  }

  /** Shortening does not remove a set with members. */
  lemma {:induction false} ShortenedSteady(h: Heap, h': Heap)
    requires Books(h, {}, multiset{}) && Partition(h) && Shortened(h, h') && Partition(h')
    ensures Steady(h, h')
  {
    forall y ensures SteadyAt(h, h', y) {
      assert ShortAt(h, h', y);
      if Active(h, y) {
        MustHasPointer(h, y);
        assert SetAt(h, y);
        if h.sets[y].ptrs != [] {
          var q := h.sets[y].ptrs[0];
          assert Home(h, q) == y;
          assert PointerAt(h', q);
        }
      }
    }
  }

  ghost predicate Peopled(h: Heap) {
    forall y :: Active(h, y) ==> h.sets[y].ptrs != [] || h.sets[y].unknown != []
  }

  lemma {:induction false} BooksArePeopled(h: Heap)
    requires Books(h, {}, multiset{}) && Partition(h)
    ensures Peopled(h)
  {
    forall y | Active(h, y) ensures h.sets[y].ptrs != [] || h.sets[y].unknown != [] {
      MustHasPointer(h, y);
    }
  }

  /** Dropping references does not touch active sets that have members. */
  lemma {:induction false} ReleasedSteady(h: Heap, h': Heap)
    requires Partition(h) && Peopled(h) && Pruned(h, h', {}) && Partition(h')
    ensures Steady(h, h')
  {
    forall y ensures SteadyAt(h, h', y) {
      assert PrunedAt(h, h', {}, y) && SetAt(h, y);
      if Active(h, y) && h.sets[y].ptrs != [] {
        var q := h.sets[y].ptrs[0];
        assert Home(h, q) == y;
        assert PointerAt(h', q);
      }
    }
  }

  // ---- PointerRec::getAliasSet ----

  /** The record of `p` moved to `dest`, the reference counted; the one to its former set is owed. */
  function Reattached(h: Heap, p: Pointer, dest: SetId): Heap
    requires p in h.recs && dest in h.sets
  {
    h.(recs := h.recs[p := h.recs[p].(set_ := Some(dest))],
       sets := h.sets[dest := h.sets[dest].(refCount := h.sets[dest].refCount + 1)])
  }

  lemma {:induction false} ReattachedBooks(h: Heap, p: Pointer, x: SetId, dest: SetId)
    requires Books(h, {}, multiset{}) && p in h.recs && h.recs[p].set_ == Some(x) && dest in h.sets && x in h.sets
    requires x != dest
    ensures Books(Reattached(h, p, dest), {}, multiset{x}) && Drift(Reattached(h, p, dest)) == Drift(h)
  {
    var h' := Reattached(h, p, dest);
    forall y ensures BookAt(h', {}, multiset{x}, y) {
      ReattachedBookAt(h, p, x, dest, y);
    }
    MaySizesChange(h.sets, h'.sets, h.next, dest);
  }

  lemma {:induction false} ReattachedPointers(recs: Records, p: Pointer, x: SetId, dest: SetId, y: SetId)
    requires p in recs && recs[p].set_ == Some(x) && x != dest
    ensures |Attached(recs[p := recs[p].(set_ := Some(dest))], y)|
         == |Attached(recs, y)| + (if y == dest then 1 else 0) - if y == x then 1 else 0
  {
    var b := Attached(recs[p := recs[p].(set_ := Some(dest))], y);
    if y == dest {
      assert b == Attached(recs, y) + {p};
    } else if y == x {
      assert Attached(recs, y) == b + {p};
    } else {
      assert b == Attached(recs, y);
    }
  }

  lemma {:induction false} ReattachedBookAt(h: Heap, p: Pointer, x: SetId, dest: SetId, y: SetId)
    requires Books(h, {}, multiset{}) && p in h.recs && h.recs[p].set_ == Some(x) && dest in h.sets && x in h.sets
    requires x != dest
    ensures BookAt(Reattached(h, p, dest), {}, multiset{x}, y)
  {
    var h' := Reattached(h, p, dest);
    assert BookAt(h, {}, multiset{}, y);
    ReattachedPointers(h.recs, p, x, dest, y);
    SameForwarders(h.sets, h'.sets, {}, y);
  }

  lemma {:induction false} ReattachedPartition(h: Heap, p: Pointer, x: SetId, dest: SetId)
    requires Partition(h) && p in h.recs && h.recs[p].set_ == Some(x) && dest in h.sets
    requires x in h.root && h.root[x] == dest && Active(h, dest)
    ensures Partition(Reattached(h, p, dest)) && Homes(Reattached(h, p, dest)) == Homes(h)
    ensures Steady(h, Reattached(h, p, dest))
  {
    var h' := Reattached(h, p, dest);
    assert SetAt(h, dest);
    forall y ensures SetAt(h', y) {
      assert SetAt(h, y);
    }
    forall q ensures PointerAt(h', q) {
      assert PointerAt(h, q);
    }
    forall y ensures SteadyAt(h, h', y) {
    }
  }

  // ---- copyValue ----

  /** Set `a` has one more pointer at the end, whose record says what that of the original says; nothing else
      has changed but what counts and refers. */
  ghost predicate CopyAdded(aa: Oracle, h: Heap, h': Heap, from: Pointer, to: Pointer, a: SetId) {
    && Active(h, a) && Active(h', a)
    && h'.sets[a] == h.sets[a].(ptrs := h.sets[a].ptrs + [to], size := h.sets[a].size + 1,
                                refCount := h'.sets[a].refCount)
    && (forall y :: y != a ==> SteadyAt(h, h', y))
    && from in h.recs && h.recs[from].tag.Some?
    && var loc := Location(to, h.recs[from].tag.value); forall q :: TagAt(aa, h.recs, h'.recs, loc, None, q)
  }

  lemma {:induction false} JoinedCopy(aa: Oracle, h: Heap, h1: Heap, from: Pointer, to: Pointer, a: SetId)
    requires Steady(h, h1) && Active(h1, a) && from in h.recs && h.recs[from].tag.Some? && to in h.recs && from != to
    requires h1.recs.Keys == h.recs.Keys && forall q :: q in h.recs ==> h1.recs[q].tag == h.recs[q].tag
    ensures CopyAdded(aa, h, Joined(aa, h1, a, Location(to, h.recs[from].tag.value), true, true), from, to, a)
  {
    var loc := Location(to, h.recs[from].tag.value);
    var h' := Joined(aa, h1, a, loc, true, true);
    assert SteadyAt(h, h1, a);
    forall y ensures y != a ==> SteadyAt(h, h', y) {
      assert SteadyAt(h, h1, y);
    }
    forall q ensures TagAt(aa, h.recs, h'.recs, loc, None, q) {
    }
  }

  /** The empty record of the copy makes no difference. */
  lemma {:induction false} CopiedIsAdded(aa: Oracle, h: Heap, h1: Heap, h': Heap, from: Pointer, to: Pointer, a: SetId)
    requires h1 == h.(recs := h.recs[to := Record(None, None)]) && to !in h.recs && from in h.recs
    requires CopyAdded(aa, h1, h', from, to, a)
    ensures CopyAdded(aa, h, h', from, to, a)
  {
    var loc := Location(to, h.recs[from].tag.value);
    forall y ensures y != a ==> SteadyAt(h, h', y) {
      assert y != a ==> SteadyAt(h1, h', y);
    }
    forall q ensures TagAt(aa, h.recs, h'.recs, loc, None, q) {
      assert TagAt(aa, h1.recs, h'.recs, loc, None, q);
    }
  }

  // ---- deleteValue ----

  function Without(ps: seq<Pointer>, p: Pointer): (r: seq<Pointer>)
    ensures forall q :: q in r <==> q in ps && q != p
    ensures |r| <= |ps|
  {
    if ps == [] then [] else (if ps[0] == p then [] else [ps[0]]) + Without(ps[1..], p)
  }

  /** Leaving out a pointer keeps the others in order; a list has every pointer once. */
  lemma {:induction false} WithoutOnce(ps: seq<Pointer>, p: Pointer, i: nat)
    requires forall j, k :: 0 <= j < k < |ps| ==> ps[j] != ps[k]
    requires i < |ps| && ps[i] == p
    ensures Without(ps, p) == ps[..i] + ps[i + 1..]
  {
    if i == 0 {
      WithoutNone(ps[1..], p);
    } else {
      WithoutOnce(ps[1..], p, i - 1);
      assert ps[1..][..i - 1] == ps[1..i] && ps[1..][i..] == ps[i + 1..];
    }
  }

  lemma {:induction false} WithoutNone(ps: seq<Pointer>, p: Pointer)
    requires p !in ps
    ensures Without(ps, p) == ps
  {
    if ps != [] {
      WithoutNone(ps[1..], p);
    }
  }

  function Shrunk(s: AliasSet, p: Pointer): AliasSet {
    s.(ptrs := Without(s.ptrs, p), size := if s.may then s.size - 1 else s.size)
  }

  /** `p` taken out of `a`, whose reference is owed. */
  function Forgotten(h: Heap, p: Pointer, a: SetId): Heap
    requires a in h.sets
  {
    h.(recs := h.recs - {p}, sets := h.sets[a := Shrunk(h.sets[a], p)],
       total := h.total - if h.sets[a].may then 1 else 0)
  }

  ghost predicate CanForget(h: Heap, p: Pointer, a: SetId) {
    Books(h, {}, multiset{}) && Partition(h) && p in h.recs && h.recs[p].set_ == Some(a) && Active(h, a)
  }

  lemma {:induction false} ForgottenBooks(h: Heap, p: Pointer, a: SetId)
    requires CanForget(h, p, a)
    ensures Books(Forgotten(h, p, a), {}, multiset{a}) && Drift(Forgotten(h, p, a)) == Drift(h)
  {
    var h' := Forgotten(h, p, a);
    forall y ensures BookAt(h', {}, multiset{a}, y) {
      ForgottenBookAt(h, p, a, y);
    }
    assert BookAt(h, {}, multiset{}, a);
    MaySizesChange(h.sets, h'.sets, h.next, a);
  }

  lemma {:induction false} ForgottenAttached(recs: Records, p: Pointer, a: SetId, y: SetId)
    requires p in recs && recs[p].set_ == Some(a)
    ensures |Attached(recs - {p}, y)| == |Attached(recs, y)| - if y == a then 1 else 0
  {
    if y == a {
      assert Attached(recs, y) == Attached(recs - {p}, y) + {p};
    } else {
      assert Attached(recs - {p}, y) == Attached(recs, y);
    }
  }

  lemma {:induction false} ForgottenBookAt(h: Heap, p: Pointer, a: SetId, y: SetId)
    requires CanForget(h, p, a)
    ensures BookAt(Forgotten(h, p, a), {}, multiset{a}, y)
  {
    var h' := Forgotten(h, p, a);
    assert BookAt(h, {}, multiset{}, y);
    ForgottenAttached(h.recs, p, a, y);
    SameForwarders(h.sets, h'.sets, {}, y);
  }

  lemma {:induction false} ForgottenPartition(h: Heap, p: Pointer, a: SetId)
    requires CanForget(h, p, a)
    ensures Partition(Forgotten(h, p, a)) && Homes(Forgotten(h, p, a)) == Homes(h) - {p}
  {
    var h' := Forgotten(h, p, a);
    assert SetAt(h, a) && PointerAt(h, p);
    var i :| 0 <= i < |h.sets[a].ptrs| && h.sets[a].ptrs[i] == p;
    WithoutOnce(h.sets[a].ptrs, p, i);
    forall y ensures SetAt(h', y) {
      assert SetAt(h, y);
      if y in h.sets {
        ForgottenListAt(h, p, a, i, y);
        assert SetAt(h, h.root[y]);
      }
    }
    forall q ensures PointerAt(h', q) {
      assert PointerAt(h, q);
    }
  }

  lemma {:induction false} ForgottenListAt(h: Heap, p: Pointer, a: SetId, i: nat, y: SetId)
    requires CanForget(h, p, a) && y in h.sets
    requires i < |h.sets[a].ptrs| && h.sets[a].ptrs[i] == p
    requires Without(h.sets[a].ptrs, p) == h.sets[a].ptrs[..i] + h.sets[a].ptrs[i + 1..]
    ensures ListAt(Forgotten(h, p, a), y)
  {
    assert SetAt(h, y) && SetAt(h, a);
    var h' := Forgotten(h, p, a);
    forall q | q in h'.sets[y].ptrs ensures Tracked(h', q) && h'.recs[q].set_.value in h'.root && Home(h', q) == y {
      assert q in h.sets[y].ptrs && q != p;
    }
  }

  /** What forgetting a pointer has done: its set is without it, and gone if nothing else was in it. */
  ghost predicate ForgetDone(h: Heap, h': Heap, p: Pointer, a: SetId)
    requires CanForget(h, p, a)
  {
    && Books(h', {}, multiset{}) && Partition(h') && Homes(h') == Homes(h) - {p}
    && h'.recs == h.recs - {p} && h'.any == h.any && h'.next == h.next
    && Drift(h') == Drift(h)
    && (Active(h', a) <==> h.sets[a].ptrs != [p] || h.sets[a].unknown != [])
    && (Active(h', a) ==> h'.sets[a] == Shrunk(h.sets[a], p).(refCount := h'.sets[a].refCount))
    && forall y :: y != a ==> SteadyAt(h, h', y)
  }

  lemma {:induction false} ForgetIsDone(h: Heap, h': Heap, p: Pointer, a: SetId)
    requires CanForget(h, p, a)
    requires var m := Forgotten(h, p, a);
             Pruned(m, h', {}) && Books(h', {}, multiset{}) && Drift(h') == Drift(m)
    ensures ForgetDone(h, h', p, a)
  {
    var m := Forgotten(h, p, a);
    ForgottenBooks(h, p, a);
    ForgottenPartition(h, p, a);
    PrunedIsShortened(m, h');
    ShorteningKeepsPartition(m, h', multiset{});
    forall y ensures y != a ==> SteadyAt(h, h', y) {
      if y != a {
        ForgetBystander(h, h', p, a, y);
      }
    }
    ForgottenSet(h, h', p, a);
  }

  lemma {:induction false} ForgetBystander(h: Heap, h': Heap, p: Pointer, a: SetId, y: SetId)
    requires CanForget(h, p, a) && Pruned(Forgotten(h, p, a), h', {}) && Partition(h') && y != a
    ensures SteadyAt(h, h', y)
  {
    assert PrunedAt(Forgotten(h, p, a), h', {}, y);
    if Active(h, y) {
      MustHasPointer(h, y);
      assert SetAt(h, y);
      if h.sets[y].ptrs != [] {
        var q := h.sets[y].ptrs[0];
        assert Home(h, q) == y;
        assert SetAt(h, a);
        assert q != p;
        assert PointerAt(h', q);
      }
    }
  }

  lemma {:induction false} ForgottenSet(h: Heap, h': Heap, p: Pointer, a: SetId)
    requires CanForget(h, p, a) && Pruned(Forgotten(h, p, a), h', {}) && Partition(h') && Books(h', {}, multiset{})
    ensures Active(h', a) <==> h.sets[a].ptrs != [p] || h.sets[a].unknown != []
    ensures Active(h', a) ==> h'.sets[a] == Shrunk(h.sets[a], p).(refCount := h'.sets[a].refCount)
  {
    var m := Forgotten(h, p, a);
    assert PrunedAt(m, h', {}, a) && SetAt(h, a) && PointerAt(h, p);
    var ps := h.sets[a].ptrs;
    if ps == [p] {
      assert Without(ps, p) == [];
    } else {
      AnotherPointer(ps, p);
    }
    if m.sets[a].ptrs != [] {
      var q := m.sets[a].ptrs[0];
      assert q in ps && Home(h, q) == a;
      assert PointerAt(h', q);
    }
    if Active(h', a) {
      MustHasPointer(h', a);
    }
  }

  lemma {:induction false} AnotherPointer(ps: seq<Pointer>, p: Pointer)
    requires p in ps && ps != [p] && forall i, j :: 0 <= i < j < |ps| ==> ps[i] != ps[j]
    ensures Without(ps, p) != []
  {
    var i :| 0 <= i < |ps| && ps[i] == p;
    var j := if i == 0 then 1 else 0;
    assert ps[j] in ps && ps[j] != p;
  }

  /** Set `x` has lost `p`, and is gone if it had nothing else. */
  ghost predicate LessOne(h: Heap, h': Heap, p: Pointer, x: SetId)
    requires x in h.sets
  {
    && (Active(h', x) <==> h.sets[x].ptrs != [p] || h.sets[x].unknown != [])
    && (Active(h', x) ==> exists i :: 0 <= i < |h.sets[x].ptrs| && LessAt(h.sets[x], h'.sets[x], p, i))
  }

  /** The `i`th pointer is `p` and has been left out; the size of a must-alias set stays what it was. */
  ghost predicate LessAt(s: AliasSet, s': AliasSet, p: Pointer, i: nat)
    requires i < |s.ptrs|
  {
    s.ptrs[i] == p && s' == s.(ptrs := s.ptrs[..i] + s.ptrs[i + 1..], size := s.size - (if s.may then 1 else 0),
                               refCount := s'.refCount)
  }

  lemma {:induction false} ForgottenIsLess(h0: Heap, h1: Heap, h: Heap, p: Pointer, a: SetId)
    requires Active(h0, a) && SteadyAt(h0, h1, a) && CanForget(h1, p, a) && ForgetDone(h1, h, p, a)
    ensures LessOne(h0, h, p, a)
  {
    if Active(h, a) {
      assert SetAt(h1, a) && PointerAt(h1, p);
      var i :| 0 <= i < |h1.sets[a].ptrs| && h1.sets[a].ptrs[i] == p;
      WithoutOnce(h1.sets[a].ptrs, p, i);
      assert LessAt(h0.sets[a], h.sets[a], p, i);
    }
  }

  /** The one member of a saturated tracker. */
  predicate LastOfSaturated(h: Heap, p: Pointer) {
    && h.any.Some? && h.any.value in h.sets && p in h.recs
    && h.sets[h.any.value].ptrs == [p] && h.sets[h.any.value].unknown == []
  }

  /** A valid saturated tracker with one member. */
  lemma {:induction false} LastOfSaturatedExists() returns (h: Heap)
    ensures Books(h, {}, multiset{}) && Partition(h) && OneActive(h) && AllTracked(h) && Drift(h) == 0
    ensures LastOfSaturated(h, 7)
  {
    h := Heap(map[0 := EMPTY_SET.(refCount := 1, access := MOD_REF, may := true, any := true, ptrs := [7], size := 1)],
              map[7 := Record(Some(0), Some(0))], Some(0), 1, 1, map[0 := 0]);
    assert Attached(h.recs, 0) == {7} && Forwarders(h.sets, {}, 0) == {};
    forall x ensures BookAt(h, {}, multiset{}, x) && SetAt(h, x) {
    }
    forall p ensures PointerAt(h, p) {
    }
    assert MaySizes(h.sets, 1) == MaySizes(h.sets, 0) + MaySize(h.sets[0]);
  }

  lemma {:induction false} DeletedIsRight(h0: Heap, h1: Heap, h: Heap, p: Pointer, a: SetId)
    requires Partition(h0) && OneActive(h0) && AllTracked(h0) && p in Homes(h0) && Homes(h0)[p] == a
    requires Steady(h0, h1) && h1.any == h0.any && CanForget(h1, p, a) && ForgetDone(h1, h, p, a)
    requires forall q :: q in h1.recs && q in h0.recs && h0.recs[q].set_.Some? ==> h1.recs[q].set_.Some?
    requires h1.recs.Keys == h0.recs.Keys
    ensures AllTracked(h)
    ensures OneActive(h) <==> !LastOfSaturated(h0, p)
    ensures forall x :: Active(h0, x) ==> if x == a then LessOne(h0, h, p, x) else SteadyAt(h0, h, x)
    ensures NoUnknown(h0) ==> NoUnknown(h)
  {
    assert SteadyAt(h0, h1, a);
    if Active(h0, a) {
      ForgottenIsLess(h0, h1, h, p, a);
    }
    forall x | Active(h0, x) ensures if x == a then LessOne(h0, h, p, x) else SteadyAt(h0, h, x) {
      assert SteadyAt(h0, h1, x);
      assert x != a ==> SteadyAt(h1, h, x);
    }
    assert AllTracked(h) by {
      assert forall q :: q in h.recs ==> Tracked(h0, q) && Tracked(h1, q);
    }
    DeletedOneActive(h0, h1, h, p, a);
    if NoUnknown(h0) {
      forall x | x in h.sets ensures h.sets[x].unknown == [] {
        assert SetAt(h, x) && SteadyAt(h0, h1, x);
        assert x != a ==> SteadyAt(h1, h, x);
      }
    }
  }

  lemma {:induction false} DeletedOneActive(h0: Heap, h1: Heap, h: Heap, p: Pointer, a: SetId)
    requires Partition(h0) && OneActive(h0) && p in Homes(h0) && Homes(h0)[p] == a
    requires Steady(h0, h1) && h1.any == h0.any && CanForget(h1, p, a) && ForgetDone(h1, h, p, a)
    ensures OneActive(h) <==> !LastOfSaturated(h0, p)
  {
    if h0.any.Some? {
      SaturatedHome(h0, p);
      OneActiveIsActive(h0);
      assert SteadyAt(h0, h1, a);
      forall x: SetId | Active(h, x) ensures h.any == Some(x) {
        assert SteadyAt(h0, h1, x);
        assert x != a ==> SteadyAt(h1, h, x);
      }
      if OneActive(h) {
        OneActiveIsActive(h);
      }
    }
  }
}
