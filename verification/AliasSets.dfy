/** The data of an alias set tracker: sets that may forward to other sets, and the
    records of the pointers in them. A set is known by the number it was created with. Since
    sets are only ever appended to the tracker's list, numerical order is list order. */
module AliasSets {
  import opened Options

  type SetId = nat

  type Pointer = nat

  type Inst = nat

  /** What a pointer record says about the accessed location: its size and its AA tags. */
  type Tag = nat

  datatype Location = Location(ptr: Pointer, tag: Tag)

  datatype Access = Access(ref: bool, mod: bool)
  {
    function Join(a: Access): Access {
      Access(ref || a.ref, mod || a.mod)
    }

    predicate Below(a: Access) {
      (ref ==> a.ref) && (mod ==> a.mod)
    }
  }

  const NO_ACCESS := Access(false, false)
  const MOD_REF := Access(true, true)

  /** `forward` is set once the set has been merged into another; `may` is the
      lattice value SetMayAlias; `any` marks the set of a saturated tracker. */
  datatype AliasSet = AliasSet(forward: Option<SetId>, refCount: int, access: Access, may: bool, any: bool,
                               ptrs: seq<Pointer>, unknown: seq<Inst>, size: int)

  const EMPTY_SET := AliasSet(None, 0, NO_ACCESS, false, false, [], [], 0)

  datatype Record = Record(set_: Option<SetId>, tag: Option<Tag>)

  type Sets = map<SetId, AliasSet>

  type Records = map<Pointer, Record>

  /** A snapshot of a tracker's fields. `next` is the number of sets created so far;
      `root` says which set each set has been merged into, directly or not. */
  datatype Heap = Heap(sets: Sets, recs: Records, any: Option<SetId>, next: SetId, total: int,
                       root: map<SetId, SetId>)

  // ---- forwarding order and reference counts ----

  /** Forwarding goes to a set earlier in the list or to the set of a saturated tracker. */
  function Rank(x: SetId, any: Option<SetId>): nat {
    if any == Some(x) then 0 else x + 1
  }

  function Attached(recs: Records, x: SetId): set<Pointer> {
    set p | p in recs && recs[p].set_ == Some(x)
  }

  function Forwarders(sets: Sets, ex: set<SetId>, x: SetId): set<SetId> {
    set t | t in sets && t !in ex && sets[t].forward == Some(x)
  }

  /** Pointer records attached to the set, sets forwarding to it, and one for its unknown instructions. */
  function Refs(h: Heap, ex: set<SetId>, x: SetId): nat
    requires x in h.sets
  {
    |Attached(h.recs, x)| + |Forwarders(h.sets, ex, x)| + if h.sets[x].unknown != [] then 1 else 0
  }

  ghost predicate ForwardOk(h: Heap, x: SetId)
    requires x in h.sets
  {
    h.sets[x].forward.Some? ==>
      h.sets[x].forward.value in h.sets && Rank(h.sets[x].forward.value, h.any) < Rank(x, h.any)
  }

  /** The books on set `x` are right: it forwards to an earlier set, and its reference
      count is exact up to the references in `owed`, which are about to be dropped.
      Sets in `ex` are being taken apart and are left out. */
  ghost predicate BookAt(h: Heap, ex: set<SetId>, owed: multiset<SetId>, x: SetId) {
    && (x in owed ==> x in h.sets && x !in ex)
    && (x in h.sets ==> x < h.next)
    && (x in h.sets && x !in ex ==>
          ForwardOk(h, x) && h.sets[x].refCount == Refs(h, ex, x) + owed[x] && h.sets[x].refCount >= 1)
  }

  ghost predicate Books(h: Heap, ex: set<SetId>, owed: multiset<SetId>) {
    forall x :: BookAt(h, ex, owed, x)
  }

  // ---- the total of SetSize over active may-alias sets ----

  function MaySize(s: AliasSet): int {
    if s.forward.None? && s.may then s.size else 0
  }

  function MaySizes(sets: Sets, n: nat): int {
    if n == 0 then 0 else MaySizes(sets, n - 1) + if n - 1 in sets then MaySize(sets[n - 1]) else 0
  }

  /** How far the tracker's total is off. */
  function Drift(h: Heap): int {
    h.total - MaySizes(h.sets, h.next)
  }

  function MaySizeAt(sets: Sets, x: SetId): int {
    if x in sets then MaySize(sets[x]) else 0
  }

  lemma {:induction false} MaySizesChange(sets: Sets, sets': Sets, n: nat, x: SetId)
    requires forall y :: y != x ==> MaySizeAt(sets', y) == MaySizeAt(sets, y)
    ensures MaySizes(sets', n) == MaySizes(sets, n) + if x < n then MaySizeAt(sets', x) - MaySizeAt(sets, x) else 0
    decreases n
  {
    if n > 0 {
      MaySizesChange(sets, sets', n - 1, x);
      assert MaySizeAt(sets', n - 1) == if n - 1 == x then MaySizeAt(sets', x) else MaySizeAt(sets, n - 1);
    }
  }

  // ---- dropping references ----

  /** Set `y` is gone because nothing refers to it, or only its reference count has changed. */
  ghost predicate PrunedAt(h: Heap, h': Heap, ex: set<SetId>, y: SetId) {
    if y in h'.sets then
      y in h.sets && h'.sets[y] == h.sets[y].(refCount := h'.sets[y].refCount) && (y in ex ==> h'.sets[y] == h.sets[y])
    else
      y in h.sets ==> y !in ex && Attached(h.recs, y) == {} && h.sets[y].unknown == []
  }

  ghost predicate Pruned(h: Heap, h': Heap, ex: set<SetId>) {
    h'.recs == h.recs && h'.any == h.any && h'.next == h.next && h'.root == h.root && forall y :: PrunedAt(h, h', ex, y)
  }

  /** Sets after `x` in the forwarding order are as they were. */
  ghost predicate AboveAt(h: Heap, h': Heap, x: SetId, y: SetId) {
    Rank(y, h.any) > Rank(x, h.any) ==>
      (y in h.sets <==> y in h'.sets) && (y in h.sets ==> h'.sets[y] == h.sets[y])
  }

  ghost predicate Above(h: Heap, h': Heap, x: SetId) {
    forall y :: AboveAt(h, h', x, y)
  }

  lemma {:induction false} AboveTwice(h0: Heap, h1: Heap, h2: Heap, x: SetId, x': SetId)
    requires Above(h0, h1, x) && Above(h1, h2, x') && h1.any == h0.any && Rank(x', h0.any) <= Rank(x, h0.any)
    ensures Above(h0, h2, x)
  {
    forall y ensures AboveAt(h0, h2, x, y) {
      assert AboveAt(h0, h1, x, y) && AboveAt(h1, h2, x', y);
    }
  }

  lemma {:induction false} PrunedTwice(h0: Heap, h1: Heap, h2: Heap, ex: set<SetId>, ex': set<SetId>)
    requires Pruned(h0, h1, ex) && Pruned(h1, h2, ex') && ex <= ex'
    ensures Pruned(h0, h2, ex)
  {
    forall y ensures PrunedAt(h0, h2, ex, y) {
      assert PrunedAt(h0, h1, ex, y) && PrunedAt(h1, h2, ex', y);
    }
  }

  /** The total has no part in the books. */
  lemma {:induction false} TotalIsNoMatter(h: Heap, h': Heap, ex: set<SetId>, owed: multiset<SetId>)
    requires Books(h, ex, owed) && h' == h.(total := h'.total)
    ensures Books(h', ex, owed) && Pruned(h, h', ex) && forall x :: Above(h, h', x)
  {
    forall x, y ensures AboveAt(h, h', x, y) {
    }
    forall y ensures BookAt(h', ex, owed, y) && PrunedAt(h, h', ex, y) {
      assert BookAt(h, ex, owed, y);
    }
  }

  lemma {:induction false} PrunedSelf(h: Heap)
    ensures Pruned(h, h, {}) && forall x :: Above(h, h, x)
  {
    forall x, y ensures AboveAt(h, h, x, y) && PrunedAt(h, h, {}, y) {
    }
  }

  /** `h` with one reference less counted for `x`. */
  function Decremented(h: Heap, x: SetId): Heap
    requires x in h.sets
  {
    h.(sets := h.sets[x := h.sets[x].(refCount := h.sets[x].refCount - 1)])
  }

  lemma {:induction false} SameForwarders(sets: Sets, sets': Sets, ex: set<SetId>, x: SetId)
    requires forall t :: t !in ex ==>
               (t in sets && sets[t].forward == Some(x) <==> t in sets' && sets'[t].forward == Some(x))
    ensures Forwarders(sets', ex, x) == Forwarders(sets, ex, x)
  {
  }

  /** Everything about the counts while `x`, whose count has come down to 0, is being removed. */
  ghost predicate Removing(h: Heap, ex: set<SetId>, owed: multiset<SetId>, x: SetId) {
    && x in h.sets && x !in ex && x !in owed && h.sets[x].refCount == 0
    && ForwardOk(h, x) && Refs(h, ex, x) == 0 && x < h.next
    && forall y :: y != x ==> BookAt(h, ex, owed, y)
  }

  lemma {:induction false} DropOne(h: Heap, ex: set<SetId>, owed: multiset<SetId>, x: SetId)
    requires Books(h, ex, owed) && x in owed
    ensures x in h.sets && x !in ex
    ensures var h' := Decremented(h, x);
            && h'.sets[x].refCount >= 0 && Drift(h') == Drift(h) && Above(h, h', x) && Pruned(h, h', ex)
            && (h'.sets[x].refCount > 0 ==> Books(h', ex, owed - multiset{x}))
            && (h'.sets[x].refCount == 0 ==> Removing(h', ex, owed - multiset{x}, x))
  {
    assert BookAt(h, ex, owed, x);
    var h', owed' := Decremented(h, x), owed - multiset{x};
    forall y ensures y != x ==> BookAt(h', ex, owed', y) {
      assert BookAt(h, ex, owed, y);
      SameForwarders(h.sets, h'.sets, ex, y);
    }
    SameForwarders(h.sets, h'.sets, ex, x);
    forall y ensures h'.sets[x].refCount > 0 ==> BookAt(h', ex, owed', y) {
    }
    forall y ensures PrunedAt(h, h', ex, y) && AboveAt(h, h', x, y) {
    }
    MaySizesChange(h.sets, h'.sets, h.next, x);
  }

  /** The reference that `x` owes to the set it forwards to. */
  function ForwardDebt(h: Heap, x: SetId): multiset<SetId>
    requires x in h.sets
  {
    if h.sets[x].forward.Some? then multiset{h.sets[x].forward.value} else multiset{}
  }

  lemma {:induction false} OweForward(h: Heap, ex: set<SetId>, owed: multiset<SetId>, x: SetId)
    requires Removing(h, ex, owed, x) && (h.sets[x].forward.Some? ==> h.sets[x].forward.value !in ex)
    ensures Books(h, ex + {x}, owed + ForwardDebt(h, x))
  {
    forall y ensures BookAt(h, ex + {x}, owed + ForwardDebt(h, x), y) {
      if y != x {
        assert BookAt(h, ex, owed, y);
        if h.sets[x].forward == Some(y) {
          assert Forwarders(h.sets, ex, y) == Forwarders(h.sets, ex + {x}, y) + {x};
        } else {
          assert Forwarders(h.sets, ex, y) == Forwarders(h.sets, ex + {x}, y);
        }
      }
    }
  }

  /** Once the set it forwards to has been dealt with, the unreferenced set can be erased. */
  lemma {:induction false} EraseUnreferenced(h0: Heap, h1: Heap, ex: set<SetId>, owed: multiset<SetId>, x: SetId)
    requires Removing(h0, ex, owed, x) && Pruned(h0, h1, ex + {x}) && Books(h1, ex + {x}, owed)
    ensures var h2 := h1.(sets := h1.sets - {x});
            Books(h2, ex, owed) && Pruned(h0, h2, ex) && (Above(h0, h1, x) ==> Above(h0, h2, x))
  {
    var h2 := h1.(sets := h1.sets - {x});
    assert Attached(h0.recs, x) == {} && Forwarders(h0.sets, ex, x) == {};
    forall y ensures BookAt(h2, ex, owed, y) {
      assert BookAt(h1, ex + {x}, owed, y);
      assert Forwarders(h2.sets, ex, y) == Forwarders(h1.sets, ex + {x}, y);
      assert PrunedAt(h0, h1, ex + {x}, y);
      assert y !in Forwarders(h0.sets, ex, x);
    }
    forall y ensures PrunedAt(h0, h2, ex, y) {
      assert PrunedAt(h0, h1, ex + {x}, y);
    }
    forall y ensures Above(h0, h1, x) ==> AboveAt(h0, h2, x, y) {
      assert Above(h0, h1, x) ==> AboveAt(h0, h1, x, y);
    }
  }

  // ---- the partition ----

  /** Forwarding leads to `root`, and only sets that do not forward have members. */
  ghost predicate SetAt(h: Heap, x: SetId) {
    x in h.sets ==>
      var s := h.sets[x];
      && x in h.root && h.root[x] in h.sets && h.sets[h.root[x]].forward.None?
      && (s.forward.None? ==> h.root[x] == x)
      && (s.forward.Some? ==> s.forward.value in h.root && h.root[s.forward.value] == h.root[x]
                              && s.ptrs == [] && s.unknown == [])
      && (s.forward.None? && !s.may ==> s.unknown == [])
      && (s.any <==> h.any == Some(x)) && (s.any ==> s.may)
      && s.size >= |s.ptrs|
      && ListAt(h, x)
  }

  ghost predicate ListAt(h: Heap, x: SetId)
    requires x in h.sets
  {
    && (forall p :: p in h.sets[x].ptrs ==> Tracked(h, p) && h.recs[p].set_.value in h.root && Home(h, p) == x)
    && (forall i, j :: 0 <= i < j < |h.sets[x].ptrs| ==> h.sets[x].ptrs[i] != h.sets[x].ptrs[j])
  }

  predicate Tracked(h: Heap, p: Pointer) {
    p in h.recs && h.recs[p].set_.Some?
  }

  /** The active set that the pointer belongs to. */
  function Home(h: Heap, p: Pointer): SetId
    requires Tracked(h, p) && h.recs[p].set_.value in h.root
  {
    h.root[h.recs[p].set_.value]
  }

  /** A tracked pointer is in the list of its home. */
  ghost predicate PointerAt(h: Heap, p: Pointer) {
    Tracked(h, p) ==>
      && h.recs[p].set_.value in h.sets && h.recs[p].tag.Some?
      && h.recs[p].set_.value in h.root && Home(h, p) in h.sets && p in h.sets[Home(h, p)].ptrs
  }

  ghost predicate Partition(h: Heap) {
    (forall x :: SetAt(h, x)) && (forall p :: PointerAt(h, p))
  }

  /** The set that each tracked pointer belongs to: the partition that the tracker stands for. */
  function Homes(h: Heap): map<Pointer, SetId>
    requires Partition(h)
  {
    map p | p in h.recs && Tracked(h, p) :: assert PointerAt(h, p); Home(h, p)
  }

  /** Set `y` is gone because nothing refers to it, or it differs at most in its
      reference count and in how it forwards to its root. */
  ghost predicate ShortAt(h: Heap, h': Heap, y: SetId) {
    if y in h'.sets then
      && y in h.sets && h'.sets[y] == h.sets[y].(refCount := h'.sets[y].refCount, forward := h'.sets[y].forward)
      && (h'.sets[y].forward.None? <==> h.sets[y].forward.None?)
      && (h'.sets[y].forward.Some? ==>
            y in h.root && h'.sets[y].forward.value in h.root && h.root[h'.sets[y].forward.value] == h.root[y])
    else
      y in h.sets ==> Attached(h.recs, y) == {} && h.sets[y].unknown == []
  }

  ghost predicate Shortened(h: Heap, h': Heap) {
    h'.recs == h.recs && h'.any == h.any && h'.next == h.next && h'.root == h.root && forall y :: ShortAt(h, h', y)
  }

  lemma {:induction false} PrunedIsShortened(h: Heap, h': Heap)
    requires Partition(h) && Pruned(h, h', {})
    ensures Shortened(h, h')
  {
    forall y ensures ShortAt(h, h', y) {
      assert SetAt(h, y) && PrunedAt(h, h', {}, y);
    }
  }

  lemma {:induction false} ShortenedTwice(h0: Heap, h1: Heap, h2: Heap)
    requires Shortened(h0, h1) && Shortened(h1, h2)
    ensures Shortened(h0, h2)
  {
    forall y ensures ShortAt(h0, h2, y) {
      assert ShortAt(h0, h1, y) && ShortAt(h1, h2, y);
    }
  }

  /** No set loses its root. */
  lemma {:induction false} RootStays(h: Heap, h': Heap, owed: multiset<SetId>, x: SetId)
    requires Partition(h) && Shortened(h, h') && Books(h', {}, owed) && x in h'.sets
    ensures x in h.root && h.root[x] in h'.sets && h'.sets[h.root[x]].forward.None?
    decreases Rank(x, h.any)
  {
    assert SetAt(h, x) && ShortAt(h, h', x) && BookAt(h', {}, owed, x);
    if h'.sets[x].forward.Some? {
      RootStays(h, h', owed, h'.sets[x].forward.value);
    }
  }

  /** Dropping references and shortening forwarding chains does not concern any pointer. */
  lemma {:induction false} ShorteningKeepsPartition(h: Heap, h': Heap, owed: multiset<SetId>)
    requires Partition(h) && Shortened(h, h') && Books(h', {}, owed)
    ensures Partition(h') && Homes(h') == Homes(h)
  {
    forall x ensures SetAt(h', x) {
      assert SetAt(h, x) && ShortAt(h, h', x);
      if x in h'.sets {
        RootStays(h, h', owed, x);
      }
    }
    forall p ensures PointerAt(h', p) {
      assert PointerAt(h, p);
      if Tracked(h, p) {
        var a := h.recs[p].set_.value;
        assert p in Attached(h.recs, a);
        assert ShortAt(h, h', a);
        RootStays(h, h', owed, a);
        assert ShortAt(h, h', h.root[a]);
      }
    }
  }

  // ---- path compression ----

  /** `h` with one reference more counted for `x`. */
  function Incremented(h: Heap, x: SetId): Heap
    requires x in h.sets
  {
    h.(sets := h.sets[x := h.sets[x].(refCount := h.sets[x].refCount + 1)])
  }

  /** While `x` is being redirected from `f` to `dest`, it has given up its reference
      to `f`, and the one to `dest` is counted already. */
  lemma {:induction false} RedirectStart(h: Heap, x: SetId, f: SetId, dest: SetId)
    requires Books(h, {}, multiset{}) && x in h.sets && h.sets[x].forward == Some(f) && dest in h.sets && dest != x
    ensures Books(Incremented(h, dest), {x}, multiset{dest, f})
    ensures Drift(Incremented(h, dest)) == Drift(h)
  {
    forall y ensures BookAt(Incremented(h, dest), {x}, multiset{dest, f}, y) {
      RedirectStartAt(h, x, f, dest, y);
    }
    MaySizesChange(h.sets, Incremented(h, dest).sets, h.next, dest);
  }

  lemma {:induction false} ForwardersWithout(sets: Sets, x: SetId, y: SetId)
    requires x in sets
    ensures |Forwarders(sets, {}, y)| == |Forwarders(sets, {x}, y)| + if sets[x].forward == Some(y) then 1 else 0
  {
    if sets[x].forward == Some(y) {
      assert Forwarders(sets, {}, y) == Forwarders(sets, {x}, y) + {x};
    } else {
      assert Forwarders(sets, {}, y) == Forwarders(sets, {x}, y);
    }
  }

  lemma {:induction false} RedirectStartAt(h: Heap, x: SetId, f: SetId, dest: SetId, y: SetId)
    requires Books(h, {}, multiset{}) && x in h.sets && h.sets[x].forward == Some(f) && dest in h.sets && dest != x
    ensures BookAt(Incremented(h, dest), {x}, multiset{dest, f}, y)
  {
    var h' := Incremented(h, dest);
    assert BookAt(h, {}, multiset{}, x) && BookAt(h, {}, multiset{}, y);
    SameForwarders(h.sets, h'.sets, {x}, y);
    ForwardersWithout(h.sets, x, y);
    var owed := multiset{dest, f};
    assert owed[y] == (if y == dest then 1 else 0) + (if y == f then 1 else 0);
  }

  function Redirected(h: Heap, x: SetId, dest: SetId): Heap
    requires x in h.sets
  {
    h.(sets := h.sets[x := h.sets[x].(forward := Some(dest))])
  }

  lemma {:induction false} RedirectEnd(h1: Heap, h3: Heap, x: SetId, f: SetId, dest: SetId)
    requires Books(h1, {}, multiset{}) && Partition(h1)
    requires x in h1.sets && h1.sets[x].forward == Some(f) && dest in h1.sets && dest != x
    requires Rank(dest, h1.any) <= Rank(f, h1.any) && x in h1.root && h1.root[x] == dest
    requires Pruned(Incremented(h1, dest), h3, {x}) && Above(Incremented(h1, dest), h3, f)
    requires Books(h3, {x}, multiset{dest})
    ensures x in h3.sets
    ensures Books(Redirected(h3, x, dest), {}, multiset{}) && Shortened(h1, Redirected(h3, x, dest))
    ensures Above(h1, Redirected(h3, x, dest), x)
    ensures Drift(Redirected(h3, x, dest)) == Drift(h3)
  {
    var h2 := Incremented(h1, dest);
    assert BookAt(h1, {}, multiset{}, x) && AboveAt(h2, h3, f, x) && SetAt(h1, x);
    var h4 := Redirected(h3, x, dest);
    assert BookAt(h3, {x}, multiset{dest}, dest) && dest in multiset{dest};
    forall y ensures BookAt(h4, {}, multiset{}, y) {
      assert BookAt(h3, {x}, multiset{dest}, y);
      if y == x {
        RedirectedForwarders(h1, h3, x, f, dest);
      } else if y == dest {
        assert Forwarders(h4.sets, {}, y) == Forwarders(h3.sets, {x}, y) + {x};
      } else {
        assert Forwarders(h4.sets, {}, y) == Forwarders(h3.sets, {x}, y);
      }
    }
    assert SetAt(h1, dest);
    forall y ensures ShortAt(h1, h4, y) {
      assert PrunedAt(h2, h3, {x}, y) && SetAt(h1, y);
    }
    forall y ensures AboveAt(h1, h4, x, y) {
      assert AboveAt(h2, h3, f, y);
    }
    MaySizesChange(h3.sets, h4.sets, h3.next, x);
  }

  lemma {:induction false} RedirectedForwarders(h1: Heap, h3: Heap, x: SetId, f: SetId, dest: SetId)
    requires Books(h1, {}, multiset{})
    requires x in h1.sets && h1.sets[x].forward == Some(f) && dest in h1.sets && dest != x && x in h3.sets
    requires Rank(dest, h1.any) <= Rank(f, h1.any)
    requires Pruned(Incremented(h1, dest), h3, {x}) && Above(Incremented(h1, dest), h3, f)
    ensures Forwarders(Redirected(h3, x, dest).sets, {}, x) == Forwarders(h1.sets, {}, x)
  {
    var h2, h4 := Incremented(h1, dest), Redirected(h3, x, dest);
    assert BookAt(h1, {}, multiset{}, x);
    forall t ensures t in Forwarders(h4.sets, {}, x) <==> t in Forwarders(h1.sets, {}, x) {
      assert BookAt(h1, {}, multiset{}, t) && AboveAt(h2, h3, f, t) && PrunedAt(h2, h3, {x}, t);
    }
  }
}
