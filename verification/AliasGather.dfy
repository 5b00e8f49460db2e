/** Merging all active sets that answer a query, in list order. */
module AliasGather {
  import opened AliasAnswers
  import opened Options
  import opened AliasSets
  import opened AliasMerge

  /** The alias analysis and the queries on instructions, as arbitrary functions.
      `modRef` asks for an instruction and a location, `related` for two instructions,
      `writes` is MayWriteMemory of `addUnknownInst`. `update` is
      `updateSizeAndAAInfo`: the new tag of a record and whether its size has changed. */
  datatype Oracle = Oracle(alias: (Location, Location) -> AliasResult, modRef: (Inst, Location) -> bool,
                           related: (Inst, Inst) -> bool, writes: Inst -> bool, touches: Inst -> bool,
                           update: (Option<Tag>, Tag) -> (Tag, bool))

  /** Two merged sets are a must-alias set only if both were and any two of their pointers must alias. */
  predicate JoinMay(aa: Oracle, recs: Records, s: AliasSet, t: AliasSet) {
    || s.may || t.may || s.ptrs == [] || t.ptrs == []
    || aa.alias(LocOf(recs, s.ptrs[0]), LocOf(recs, t.ptrs[0])) != MustAlias
  }

  /** Which sets a pointer or an instruction may have to do with. */
  datatype Query = ForPointer(loc: Location) | ForInst(inst: Inst)

  function LocOf(recs: Records, p: Pointer): Location {
    Location(p, if p in recs && recs[p].tag.Some? then recs[p].tag.value else 0)
  }

  /** The first answer other than NoAlias. */
  function FirstAlias(aa: Oracle, recs: Records, ptrs: seq<Pointer>, loc: Location): AliasResult {
    if ptrs == [] then NoAlias
    else
      var r := aa.alias(loc, LocOf(recs, ptrs[0]));
      if r != NoAlias then r else FirstAlias(aa, recs, ptrs[1..], loc)
  }

  /** Whether a set aliases a location: its first pointer decides for a must-alias
      set, all pointers and unknown instructions for a may-alias set. */
  function Answer(aa: Oracle, recs: Records, s: AliasSet, loc: Location): AliasResult {
    if s.any then MayAlias
    else if !s.may then if s.ptrs == [] then NoAlias else aa.alias(LocOf(recs, s.ptrs[0]), loc)
    else if FirstAlias(aa, recs, s.ptrs, loc) != NoAlias then FirstAlias(aa, recs, s.ptrs, loc)
    else if exists i :: 0 <= i < |s.unknown| && aa.modRef(s.unknown[i], loc) then MayAlias
    else NoAlias
  }

  /** Whether a set has to do with an instruction. */
  predicate TouchedBy(aa: Oracle, recs: Records, s: AliasSet, inst: Inst) {
    || s.any
    || (exists i :: 0 <= i < |s.unknown| && aa.related(s.unknown[i], inst))
    || (exists i :: 0 <= i < |s.ptrs| && aa.modRef(inst, LocOf(recs, s.ptrs[i])))
  }

  predicate Answers(aa: Oracle, recs: Records, s: AliasSet, q: Query) {
    match q
    case ForPointer(loc) => Answer(aa, recs, s, loc) != NoAlias
    case ForInst(inst) => TouchedBy(aa, recs, s, inst)
  }

  /** The active sets before `n` that answer the query. */
  function Selected(aa: Oracle, h: Heap, q: Query, n: SetId): set<SetId> {
    set x | x in h.sets && x < n && Active(h, x) && Answers(aa, h.recs, h.sets[x], q)
  }

  // ---- which sets answer, in terms of the analysis alone ----

  /** The location that a tracked pointer's record stands for. */
  function Recorded(h: Heap, p: Pointer): Location
    requires p in h.recs && h.recs[p].tag.Some?
  {
    Location(p, h.recs[p].tag.value)
  }

  /** The first pointer of a must-alias set aliases the location, or any pointer or unknown instruction of a
      may-alias set has to do with it. */
  ghost predicate Meets(aa: Oracle, h: Heap, x: SetId, loc: Location)
    requires Books(h, {}, multiset{}) && Partition(h) && Active(h, x)
  {
    var s := h.sets[x];
    PointersRecorded(h, x);
    || s.any
    || (!s.may && aa.alias(Recorded(h, s.ptrs[0]), loc) != NoAlias)
    || (s.may && exists i :: 0 <= i < |s.ptrs| && aa.alias(loc, Recorded(h, s.ptrs[i])) != NoAlias)
    || (s.may && exists i :: 0 <= i < |s.unknown| && aa.modRef(s.unknown[i], loc))
  }

  /** An unknown instruction of the set is related to the instruction, or that accesses one of its pointers. */
  ghost predicate Concerns(aa: Oracle, h: Heap, x: SetId, inst: Inst)
    requires Books(h, {}, multiset{}) && Partition(h) && Active(h, x)
  {
    var s := h.sets[x];
    PointersRecorded(h, x);
    || s.any
    || (exists i :: 0 <= i < |s.unknown| && aa.related(s.unknown[i], inst))
    || (exists i :: 0 <= i < |s.ptrs| && aa.modRef(inst, Recorded(h, s.ptrs[i])))
  }

  lemma {:induction false} PointersRecorded(h: Heap, x: SetId)
    requires Books(h, {}, multiset{}) && Partition(h) && Active(h, x)
    ensures forall p :: p in h.sets[x].ptrs ==> p in h.recs && h.recs[p].tag.Some?
    ensures h.sets[x].any ==> h.sets[x].may
    ensures !h.sets[x].may ==> h.sets[x].ptrs != []
  {
    MustHasPointer(h, x);
    assert SetAt(h, x);
    forall p | p in h.sets[x].ptrs ensures p in h.recs && h.recs[p].tag.Some? {
      assert PointerAt(h, p);
    }
  }

  lemma {:induction false} FirstAliasFound(aa: Oracle, recs: Records, ptrs: seq<Pointer>, loc: Location)
    ensures FirstAlias(aa, recs, ptrs, loc) != NoAlias <==>
              exists i :: 0 <= i < |ptrs| && aa.alias(loc, LocOf(recs, ptrs[i])) != NoAlias
  {
    if ptrs != [] {
      var rest := ptrs[1..];
      FirstAliasFound(aa, recs, rest, loc);
      if i :| 0 <= i < |ptrs| && aa.alias(loc, LocOf(recs, ptrs[i])) != NoAlias {
        assert i > 0 ==> rest[i - 1] == ptrs[i];
      }
      if i :| 0 <= i < |rest| && aa.alias(loc, LocOf(recs, rest[i])) != NoAlias {
        assert ptrs[i + 1] == rest[i];
      }
    }
  }

  /** The sets that a location or an instruction unites. */
  lemma {:induction false} SelectedMeans(aa: Oracle, h: Heap, loc: Location, inst: Inst, x: SetId)
    requires Books(h, {}, multiset{}) && Partition(h)
    ensures x in Selected(aa, h, ForPointer(loc), h.next) <==> Active(h, x) && Meets(aa, h, x, loc)
    ensures x in Selected(aa, h, ForInst(inst), h.next) <==> Active(h, x) && Concerns(aa, h, x, inst)
  {
    if Active(h, x) {
      assert BookAt(h, {}, multiset{}, x);
      PointersRecorded(h, x);
      FirstAliasFound(aa, h.recs, h.sets[x].ptrs, loc);
      forall p | p in h.sets[x].ptrs ensures LocOf(h.recs, p) == Recorded(h, p) {
      }
    }
  }

  /** The partition with the members of all sets in `xs` moved to `a`. */
  function Gathered(homes: map<Pointer, SetId>, xs: set<SetId>, a: SetId): map<Pointer, SetId> {
    map p | p in homes :: if homes[p] in xs then a else homes[p]
  }

  ghost predicate NoUnknown(h: Heap) {
    forall x :: x in h.sets ==> h.sets[x].unknown == []
  }

  // ---- sizes ----

  /** What a merge of set `x` into another one adds to the error of the total. */
  function LostIn(h: Heap, xs: set<SetId>, x: SetId): int {
    if x in xs && Active(h, x) then LostSize(h.sets[x]) else 0
  }

  /** The same for all sets in `xs` before `n`. */
  function Lost(h: Heap, xs: set<SetId>, n: nat): int {
    if n == 0 then 0 else Lost(h, xs, n - 1) + LostIn(h, xs, n - 1)
  }

  lemma {:induction false} LostSame(h: Heap, xs: set<SetId>, ys: set<SetId>, n: nat)
    requires forall x: SetId :: x < n ==> LostIn(h, xs, x) == LostIn(h, ys, x)
    ensures Lost(h, xs, n) == Lost(h, ys, n)
  {
    if n > 0 {
      LostSame(h, xs, ys, n - 1);
      assert LostIn(h, xs, n - 1) == LostIn(h, ys, n - 1);
    }
  }

  /** Nothing is lost exactly if none of the sets is a may-alias set without pointers that has a size. */
  lemma {:induction false} LostNothing(h: Heap, xs: set<SetId>, n: nat)
    requires Partition(h)
    ensures Lost(h, xs, n) >= 0
    ensures Lost(h, xs, n) == 0 <==> forall x: SetId :: x < n ==> LostIn(h, xs, x) == 0
    decreases n
  {
    if n > 0 {
      LostNothing(h, xs, n - 1);
      assert SetAt(h, n - 1);
      if Lost(h, xs, n) == 0 {
        forall x: SetId | x < n ensures LostIn(h, xs, x) == 0 {
          assert x == n - 1 || x < n - 1;
        }
      }
    }
  }

  lemma {:induction false} LostOfSets(h: Heap, h': Heap, xs: set<SetId>, n: nat)
    requires h'.sets == h.sets
    ensures Lost(h', xs, n) == Lost(h, xs, n)
  {
    if n > 0 {
      LostOfSets(h, h', xs, n - 1);
    }
  }

  /** The error that the total would have after a full merge. */
  function FullDrift(h: Heap): int {
    Drift(h) + Lost(h, h.sets.Keys, h.next)
  }

  /** Only set `a` has changed what it can lose. */
  lemma {:induction false} LostChange(h: Heap, h': Heap, n: nat, a: SetId)
    requires forall x :: x != a ==> LostIn(h', h'.sets.Keys, x) == LostIn(h, h.sets.Keys, x)
    ensures Lost(h', h'.sets.Keys, n)
         == Lost(h, h.sets.Keys, n) + if a < n then LostIn(h', h'.sets.Keys, a) - LostIn(h, h.sets.Keys, a) else 0
    decreases n
  {
    if n > 0 {
      LostChange(h, h', n - 1, a);
      assert n - 1 != a ==> LostIn(h', h'.sets.Keys, n - 1) == LostIn(h, h.sets.Keys, n - 1);
    }
  }

  /** Sets that can lose as much as before. */
  lemma {:induction false} SameFullDrift(h: Heap, h': Heap)
    requires Drift(h') == Drift(h) && h'.next == h.next
    requires forall x :: LostIn(h', h'.sets.Keys, x) == LostIn(h, h.sets.Keys, x)
    ensures FullDrift(h') == FullDrift(h)
  {
    LostChange(h, h', h.next, h.next);
  }

  lemma {:induction false} NothingToLose(h: Heap, xs: set<SetId>, n: nat)
    requires Books(h, {}, multiset{}) && Partition(h) && NoUnknown(h)
    ensures Lost(h, xs, n) == 0
  {
    forall x: SetId | x < n ensures LostIn(h, xs, x) == 0 {
      if Active(h, x) {
        MustHasPointer(h, x);
      }
    }
    LostNothing(h, xs, n);
  }

  /** The sizes of the sets in `xs` before `n`. */
  function Sizes(h: Heap, xs: set<SetId>, n: nat): int {
    if n == 0 then 0 else Sizes(h, xs, n - 1) + if n - 1 in xs && n - 1 in h.sets then h.sets[n - 1].size else 0
  }

  /** The pointers of the sets in `xs` before `n`, in list order. */
  function Members(h: Heap, xs: set<SetId>, n: nat): seq<Pointer> {
    if n == 0 then [] else Members(h, xs, n - 1) + if n - 1 in xs && n - 1 in h.sets then h.sets[n - 1].ptrs else []
  }

  /** Their unknown instructions. */
  function Instructions(h: Heap, xs: set<SetId>, n: nat): seq<Inst> {
    if n == 0 then []
    else Instructions(h, xs, n - 1) + if n - 1 in xs && n - 1 in h.sets then h.sets[n - 1].unknown else []
  }

  lemma {:induction false} ContentsSame(h: Heap, xs: set<SetId>, ys: set<SetId>, n: nat)
    requires forall x: SetId :: x < n ==> (x in xs <==> x in ys)
    ensures Sizes(h, xs, n) == Sizes(h, ys, n) && Members(h, xs, n) == Members(h, ys, n)
    ensures Instructions(h, xs, n) == Instructions(h, ys, n)
  {
    if n > 0 {
      ContentsSame(h, xs, ys, n - 1);
      assert n - 1 in xs <==> n - 1 in ys;
    }
  }

  lemma {:induction false} ContentsOfNone(h: Heap, n: nat)
    ensures Sizes(h, {}, n) == 0 && Members(h, {}, n) == [] && Instructions(h, {}, n) == []
    ensures Lost(h, {}, n) == 0
  {
    if n > 0 {
      ContentsOfNone(h, n - 1);
    }
  }

  lemma {:induction false} ContentsOfOne(h: Heap, a: SetId, n: nat)
    requires a in h.sets
    ensures Sizes(h, {a}, n) == if a < n then h.sets[a].size else 0
    ensures Members(h, {a}, n) == if a < n then h.sets[a].ptrs else []
    ensures Instructions(h, {a}, n) == if a < n then h.sets[a].unknown else []
  {
    if n > 0 {
      ContentsOfOne(h, a, n - 1);
    }
  }

  /** `s` has what the sets in `xs` before `n` had, in list order; its size is theirs but for the sets without
      pointers other than `a`. */
  ghost predicate Holds(h: Heap, xs: set<SetId>, n: nat, a: SetId, s: AliasSet) {
    && s.ptrs == Members(h, xs, n) && s.unknown == Instructions(h, xs, n)
    && s.size == Sizes(h, xs, n) - Lost(h, xs - {a}, n)
  }

  predicate RefIn(h: Heap, xs: set<SetId>) {
    exists x :: x in xs && x in h.sets && h.sets[x].access.ref
  }

  predicate ModIn(h: Heap, xs: set<SetId>) {
    exists x :: x in xs && x in h.sets && h.sets[x].access.mod
  }

  lemma {:induction false} HoldsOne(h: Heap, n: SetId)
    requires Active(h, n)
    ensures Holds(h, {n}, n + 1, n, h.sets[n])
    ensures RefIn(h, {n}) == h.sets[n].access.ref && ModIn(h, {n}) == h.sets[n].access.mod
  {
    ContentsOfOne(h, n, n + 1);
    assert {n} - {n} == {};
    ContentsOfNone(h, n + 1);
  }

  /** One more set taken in. */
  lemma {:induction false} HoldsNext(h: Heap, xs: set<SetId>, n: SetId, a: SetId, s: AliasSet, s': AliasSet)
    requires Holds(h, xs, n, a, s) && Active(h, n) && n !in xs && a != n
    requires h.sets[n].ptrs == [] ==> h.sets[n].may
    requires s' == Survivor(s, h.sets[n], s'.may).(refCount := s'.refCount)
    ensures Holds(h, xs + {n}, n + 1, a, s')
  {
    ContentsSame(h, xs + {n}, xs, n);
    LostSame(h, xs + {n} - {a}, xs - {a}, n);
  }

  lemma {:induction false} AccessNext(h: Heap, xs: set<SetId>, n: SetId)
    requires n in h.sets
    ensures RefIn(h, xs + {n}) <==> RefIn(h, xs) || h.sets[n].access.ref
    ensures ModIn(h, xs + {n}) <==> ModIn(h, xs) || h.sets[n].access.mod
  {
    assert n in xs + {n};
    if RefIn(h, xs) {
      var x :| x in xs && x in h.sets && h.sets[x].access.ref;
      assert x in xs + {n};
    }
    if ModIn(h, xs) {
      var x :| x in xs && x in h.sets && h.sets[x].access.mod;
      assert x in xs + {n};
    }
  }

  lemma {:induction false} SizesAtLeast(h: Heap, xs: set<SetId>, n: nat, a: SetId)
    requires Partition(h)
    ensures Sizes(h, xs, n) >= if a in xs && a < n && a in h.sets then |h.sets[a].ptrs| else 0
    decreases n
  {
    if n > 0 {
      SizesAtLeast(h, xs, n - 1, a);
      assert SetAt(h, n - 1);
    }
  }

  /** `t` has everything that was in `s`, and is at least as high in the lattices. */
  ghost predicate Absorbed(s: AliasSet, t: AliasSet) {
    && s.access.Below(t.access) && (s.may ==> t.may) && (s.any ==> t.any)
    && (forall p :: p in s.ptrs ==> p in t.ptrs) && (forall i :: i in s.unknown ==> i in t.unknown)
  }

  /** Every active set lives on in an active set. */
  ghost predicate Grows(h: Heap, h': Heap) {
    forall x :: Active(h, x) ==> exists y :: Active(h', y) && Absorbed(h.sets[x], h'.sets[y])
  }

  lemma {:induction false} GrowsTwice(h0: Heap, h1: Heap, h2: Heap)
    requires Grows(h0, h1) && Grows(h1, h2)
    ensures Grows(h0, h2)
  {
    forall x | Active(h0, x) ensures exists z :: Active(h2, z) && Absorbed(h0.sets[x], h2.sets[z]) {
      var y :| Active(h1, y) && Absorbed(h0.sets[x], h1.sets[y]);
      var z :| Active(h2, z) && Absorbed(h1.sets[y], h2.sets[z]);
      assert Absorbed(h0.sets[x], h2.sets[z]);
    }
  }

  /** A saturated tracker has a single active set. */
  ghost predicate OneActive(h: Heap) {
    h.any.Some? ==> h.any.value in h.sets && forall x: SetId :: Active(h, x) ==> h.any == Some(x)
  }

  /** Not visited yet, or left alone: as in the beginning, up to the reference count. */
  ghost predicate LeftAt(h0: Heap, h: Heap, xs: set<SetId>, n: SetId, y: SetId) {
    && (y >= n ==> (y in h0.sets <==> y in h.sets) && (y in h0.sets ==> h.sets[y] == h0.sets[y]))
    && (Active(h0, y) && y !in xs ==> Active(h, y) && h.sets[y] == h0.sets[y].(refCount := h.sets[y].refCount))
    && (Active(h, y) ==> Active(h0, y))
  }

  /** The sets in `xs`, all those selected before `n`, have been merged into the first of them. */
  ghost predicate Into(h0: Heap, h: Heap, xs: set<SetId>, a: SetId) {
    && a in xs && (forall x :: x in xs ==> a <= x && Active(h0, x))
    && Active(h, a) && h0.sets[a].ptrs <= h.sets[a].ptrs
    && (h.sets[a].ptrs == [] ==> h.sets[a].size == h0.sets[a].size)
    && (forall x :: x in xs && x != a ==> !Active(h, x))
    && forall x :: x in xs ==> Absorbed(h0.sets[x], h.sets[a])
  }

  /** The sets in `xs`, those before `n` that have been selected, have become one set. */
  ghost predicate Collected(h0: Heap, h: Heap, xs: set<SetId>, n: SetId, found: Option<SetId>) {
    && Books(h, {}, multiset{}) && Partition(h) && Partition(h0) && OneActive(h0)
    && h.recs == h0.recs && h.any == h0.any && h.next == h0.next
    && (forall y :: LeftAt(h0, h, xs, n, y))
    && (NoUnknown(h0) ==> NoUnknown(h))
    && Drift(h) == Drift(h0) + (if found.Some? then Lost(h0, xs - {found.value}, n) else 0)
    && match found
       case None => xs == {} && h == h0
       case Some(a) => Into(h0, h, xs, a) && Homes(h) == Gathered(Homes(h0), xs, a)
  }

  /** All sets in `xs` are must-alias sets, and their first pointers must alias that of `a`. */
  predicate StayMust(aa: Oracle, h: Heap, xs: set<SetId>, a: SetId) {
    && a in h.sets && h.sets[a].ptrs != []
    && forall x :: x in xs ==> MustJoin(aa, h, a, x)
  }

  predicate MustJoin(aa: Oracle, h: Heap, a: SetId, x: SetId)
    requires a in h.sets && h.sets[a].ptrs != []
  {
    && x in h.sets && !h.sets[x].may && h.sets[x].ptrs != []
    && (x != a ==> aa.alias(LocOf(h.recs, h.sets[a].ptrs[0]), LocOf(h.recs, h.sets[x].ptrs[0])) == MustAlias)
  }

  /** The united set has everything that was in the sets, and is a must-alias set only if all were. */
  ghost predicate UnitedAs(aa: Oracle, h0: Heap, h: Heap, xs: set<SetId>, n: SetId, a: SetId)
    requires a in h.sets
  {
    && (h.sets[a].may <==> !StayMust(aa, h0, xs, a))
    && Holds(h0, xs, n, a, h.sets[a])
    && (h.sets[a].access.ref <==> RefIn(h0, xs)) && (h.sets[a].access.mod <==> ModIn(h0, xs))
  }

  /** Must-alias sets have pointers, so that none of their sizes is lost. */
  lemma {:induction false} MustLosesNothing(aa: Oracle, h: Heap, xs: set<SetId>, n: nat, a: SetId)
    requires Partition(h) && StayMust(aa, h, xs, a)
    ensures Lost(h, xs - {a}, n) == 0
  {
    var rest := xs - {a};
    forall x: SetId | x < n ensures LostIn(h, rest, x) == 0 {
      assert x in xs ==> MustJoin(aa, h, a, x);
    }
    LostNothing(h, rest, n);
  }

  ghost predicate Gathering(aa: Oracle, h0: Heap, h: Heap, q: Query, n: SetId, found: Option<SetId>) {
    && Collected(h0, h, Selected(aa, h0, q, n), n, found)
    && (found.Some? ==> UnitedAs(aa, h0, h, Selected(aa, h0, q, n), n, found.value))
  }

  /** No set before `n` answers anything but NoAlias and MustAlias. */
  predicate AllMust(aa: Oracle, h: Heap, loc: Location, n: SetId) {
    || n == 0
    || (AllMust(aa, h, loc, n - 1)
        && (Active(h, n - 1) ==> Answer(aa, h.recs, h.sets[n - 1], loc) in {NoAlias, MustAlias}))
  }

  /** One of the sets does not answer MustAlias. */
  predicate SomeNotMust(aa: Oracle, h: Heap, xs: set<SetId>, loc: Location) {
    exists x :: x in xs && x in h.sets && Answer(aa, h.recs, h.sets[x], loc) != MustAlias
  }

  lemma {:induction false} AllMustAnswers(aa: Oracle, h: Heap, loc: Location, n: SetId)
    ensures AllMust(aa, h, loc, n) <==> !SomeNotMust(aa, h, Selected(aa, h, ForPointer(loc), n), loc)
  {
    if n > 0 {
      AllMustAnswers(aa, h, loc, n - 1);
      SelectedNext(aa, h, ForPointer(loc), n - 1);
      if Active(h, n - 1) {
        SomeNotMustNext(aa, h, Selected(aa, h, ForPointer(loc), n - 1), loc, n - 1);
      }
    }
  }

  lemma {:induction false} SomeNotMustNext(aa: Oracle, h: Heap, xs: set<SetId>, loc: Location, n: SetId)
    requires Active(h, n)
    ensures SomeNotMust(aa, h, xs + {n}, loc) <==>
              SomeNotMust(aa, h, xs, loc) || Answer(aa, h.recs, h.sets[n], loc) != MustAlias
  {
    assert n in xs + {n};
    if x :| x in xs && x in h.sets && Answer(aa, h.recs, h.sets[x], loc) != MustAlias {
      assert x in xs + {n};
    }
  }

  lemma {:induction false} GatheringStart(aa: Oracle, h: Heap, q: Query)
    requires Books(h, {}, multiset{}) && Partition(h) && OneActive(h)
    ensures Gathering(aa, h, h, q, 0, None)
  {
    forall y ensures LeftAt(h, h, Selected(aa, h, q, 0), 0, y) {
    }
  }

  lemma {:induction false} SelectedNext(aa: Oracle, h: Heap, q: Query, n: SetId)
    ensures Selected(aa, h, q, n + 1) == Selected(aa, h, q, n)
            + if Active(h, n) && Answers(aa, h.recs, h.sets[n], q) then {n} else {}
  {
  }

  lemma {:induction false} CollectNothing(h0: Heap, h: Heap, xs: set<SetId>, n: SetId, found: Option<SetId>)
    requires Collected(h0, h, xs, n, found) && n !in xs
    ensures Collected(h0, h, xs, n + 1, found)
  {
    var m := n + 1;
    forall y ensures LeftAt(h0, h, xs, m, y) {
      assert LeftAt(h0, h, xs, n, y);
    }
  }

  /** A set that is gone, forwards, or does not answer is passed over. */
  lemma {:induction false} PassOver(aa: Oracle, h0: Heap, h: Heap, q: Query, n: SetId, found: Option<SetId>)
    requires Gathering(aa, h0, h, q, n, found)
    requires !(Active(h, n) && Answers(aa, h.recs, h.sets[n], q))
    ensures Gathering(aa, h0, h, q, n + 1, found)
    ensures Selected(aa, h0, q, n + 1) == Selected(aa, h0, q, n)
  {
    assert LeftAt(h0, h, Selected(aa, h0, q, n), n, n);
    SelectedNext(aa, h0, q, n);
    assert Selected(aa, h0, q, n + 1) == Selected(aa, h0, q, n);
    CollectNothing(h0, h, Selected(aa, h0, q, n), n, found);
  }

  lemma {:induction false} FirstFound(aa: Oracle, h0: Heap, h: Heap, q: Query, n: SetId)
    requires Gathering(aa, h0, h, q, n, None) && Active(h, n) && Answers(aa, h.recs, h.sets[n], q)
    ensures Gathering(aa, h0, h, q, n + 1, Some(n))
    ensures Selected(aa, h0, q, n + 1) == {n}
  {
    SelectedNext(aa, h0, q, n);
    assert Selected(aa, h0, q, n + 1) == {n};
    FirstCollected(h0, n);
    MustHasPointer(h, n);
    HoldsOne(h0, n);
  }

  lemma {:induction false} FirstCollected(h: Heap, n: SetId)
    requires Books(h, {}, multiset{}) && Partition(h) && OneActive(h) && Active(h, n)
    ensures Collected(h, h, {n}, n + 1, Some(n))
  {
    var xs, m := {n}, n + 1;
    forall y ensures LeftAt(h, h, xs, m, y) {
    }
    assert Gathered(Homes(h), {n}, n) == Homes(h);
    assert xs - {n} == {};
    ContentsOfNone(h, m);
  }

  /** The next set found can be merged into the first. */
  lemma {:induction false} CanGather(h0: Heap, h: Heap, xs: set<SetId>, n: SetId, a: SetId, may: bool)
    requires Collected(h0, h, xs, n, Some(a)) && a < n && Active(h, n) && (h.sets[a].may || h.sets[n].may ==> may)
    ensures CanMerge(h, a, n, may) && h.any == None && !h.sets[n].any
  {
    assert LeftAt(h0, h, xs, n, a) && LeftAt(h0, h, xs, n, n) && SetAt(h, n);
    BooksAreNearly(h, a);
    assert BookAt(h, {}, multiset{}, a);
  }

  lemma {:induction false} NextLost(h0: Heap, h: Heap, xs: set<SetId>, n: SetId, a: SetId)
    requires a < n && Active(h, n) && Active(h0, n) && h.sets[n] == h0.sets[n] && n !in xs
    ensures Lost(h0, xs + {n} - {a}, n + 1) == Lost(h0, xs - {a}, n) + LostSize(h.sets[n])
  {
    LostSame(h0, xs + {n} - {a}, xs - {a}, n);
  }

  lemma {:induction false} MovedNext(homes: map<Pointer, SetId>, xs: set<SetId>, a: SetId, n: SetId)
    ensures Moved(Gathered(homes, xs, a), a, n) == Gathered(homes, xs + {n}, a)
  {
  }

  lemma {:induction false} CollectNext(h0: Heap, h: Heap, h': Heap, xs: set<SetId>, n: SetId, a: SetId, may: bool)
    requires Collected(h0, h, xs, n, Some(a)) && a < n && Active(h, n) && n !in xs
    requires CanMerge(h, a, n, may) && MergeDone(h, h', a, n, may)
    ensures Collected(h0, h', xs + {n}, n + 1, Some(a))
  {
    CanGather(h0, h, xs, n, a, may);
    var m := n + 1;
    assert LeftAt(h0, h, xs, n, n);
    forall y ensures LeftAt(h0, h', xs + {n}, m, y) {
      NextLeft(h0, h, h', xs, n, a, may, y);
    }
    NextInto(h0, h, h', xs, n, a, may);
    NextLost(h0, h, xs, n, a);
    MovedNext(Homes(h0), xs, a, n);
    if NoUnknown(h0) {
      MergeKeepsNoUnknown(h, h', a, n, may);
    }
  }

  /** One more set merged into the first. */
  lemma {:induction false} NextFound(aa: Oracle, h0: Heap, h: Heap, h': Heap, q: Query, n: SetId, a: SetId, may: bool)
    requires Gathering(aa, h0, h, q, n, Some(a)) && Active(h, n) && Answers(aa, h.recs, h.sets[n], q)
    requires may == JoinMay(aa, h.recs, h.sets[a], h.sets[n]) && CanMerge(h, a, n, may) && MergeDone(h, h', a, n, may)
    ensures Gathering(aa, h0, h', q, n + 1, Some(a))
    ensures Selected(aa, h0, q, n + 1) == Selected(aa, h0, q, n) + {n}
  {
    assert LeftAt(h0, h, Selected(aa, h0, q, n), n, n);
    SelectedNext(aa, h0, q, n);
    CollectNext(h0, h, h', Selected(aa, h0, q, n), n, a, may);
    NextUnited(aa, h0, h, h', Selected(aa, h0, q, n), n, a, may);
  }

  lemma {:induction false} NextUnited(aa: Oracle, h0: Heap, h: Heap, h': Heap, xs: set<SetId>, n: SetId, a: SetId,
          may: bool)
    requires Into(h0, h, xs, a) && Active(h, n) && h0.recs == h.recs && n in h0.sets && h.sets[n] == h0.sets[n]
    requires a < n && n !in xs && UnitedAs(aa, h0, h, xs, n, a)
    requires may == JoinMay(aa, h.recs, h.sets[a], h.sets[n]) && CanMerge(h, a, n, may) && MergeDone(h, h', a, n, may)
    ensures UnitedAs(aa, h0, h', xs + {n}, n + 1, a)
  {
    assert BookAt(h, {}, multiset{}, n);
    ReferencedHasPointer(h, a, n);
    HoldsNext(h0, xs, n, a, h.sets[a], h'.sets[a]);
    AccessNext(h0, xs, n);
    if StayMust(aa, h0, xs, a) {
      assert h.sets[a].ptrs[0] == h0.sets[a].ptrs[0];
      assert may <==> !MustJoin(aa, h0, a, n);
      assert StayMust(aa, h0, xs + {n}, a) <==> MustJoin(aa, h0, a, n);
    } else {
      assert !StayMust(aa, h0, xs + {n}, a);
    }
  }

  lemma {:induction false} NextLeft(h0: Heap, h: Heap, h': Heap, xs: set<SetId>, n: SetId, a: SetId, may: bool,
          y: SetId)
    requires LeftAt(h0, h, xs, n, y) && a < n && a in xs && h.any == None
    requires CanMerge(h, a, n, may) && MergeDone(h, h', a, n, may)
    ensures LeftAt(h0, h', xs + {n}, n + 1, y)
  {
    assert AboveAt(h, h', n, y) && BystanderAt(h, h', a, n, y);
  }

  lemma {:induction false} NextInto(h0: Heap, h: Heap, h': Heap, xs: set<SetId>, n: SetId, a: SetId, may: bool)
    requires Into(h0, h, xs, a) && Active(h0, n) && Active(h, n) && h.sets[n] == h0.sets[n] && a < n
    requires CanMerge(h, a, n, may) && MergeDone(h, h', a, n, may)
    ensures Into(h0, h', xs + {n}, a)
  {
    assert Absorbed(h.sets[a], h'.sets[a]) && Absorbed(h.sets[n], h'.sets[a]);
    forall x | x in xs + {n} ensures Absorbed(h0.sets[x], h'.sets[a]) && (x != a ==> !Active(h', x)) {
      assert x != n ==> Absorbed(h0.sets[x], h.sets[a]);
      assert BystanderAt(h, h', a, n, x);
    }
  }

  lemma {:induction false} MergeKeepsNoUnknown(h: Heap, h': Heap, a: SetId, b: SetId, may: bool)
    requires CanMerge(h, a, b, may) && MergeDone(h, h', a, b, may) && NoUnknown(h)
    ensures NoUnknown(h')
  {
    assert b != a ==> BookAt(h, {}, multiset{}, b);
    ReferencedHasPointer(h, a, b);
    forall x | x in h'.sets ensures h'.sets[x].unknown == [] {
      assert SetAt(h', x);
      assert BystanderAt(h, h', a, b, x);
    }
  }

  lemma {:induction false} GatheringKeepsDrift(aa: Oracle, h0: Heap, h: Heap, q: Query, found: Option<SetId>)
    requires Books(h0, {}, multiset{}) && NoUnknown(h0) && Gathering(aa, h0, h, q, h0.next, found)
    ensures NoUnknown(h) && Drift(h) == Drift(h0)
  {
    if found.Some? {
      NothingToLose(h0, Selected(aa, h0, q, h0.next) - {found.value}, h0.next);
    }
  }

  /** What the united set can still lose, if none of the sets in it has a pointer. */
  function StillLost(h: Heap, xs: set<SetId>, a: SetId): int {
    if a !in h.sets || exists x :: x in xs && x in h.sets && h.sets[x].ptrs != [] then 0 else LostSize(h.sets[a])
  }

  lemma {:induction false} UnitedLoss(h0: Heap, h: Heap, xs: set<SetId>, n: SetId, a: SetId)
    requires Books(h0, {}, multiset{}) && Collected(h0, h, xs, n, Some(a))
    ensures LostSize(h.sets[a]) == StillLost(h0, xs, a)
  {
    MustHasPointer(h0, a);
    MustHasPointer(h, a);
    if x :| x in xs && h0.sets[x].ptrs != [] {
      AbsorbedPointers(h0.sets[x], h.sets[a]);
    }
    if h.sets[a].ptrs != [] {
      var p := h.sets[a].ptrs[0];
      assert SetAt(h, a) && p in h.sets[a].ptrs && Home(h, p) == a;
      assert p in Homes(h) && Homes(h)[p] == a && p in Homes(h0) && Homes(h0)[p] in xs;
      assert PointerAt(h0, p);
    }
  }

  lemma {:induction false} AbsorbedPointers(s: AliasSet, t: AliasSet)
    requires Absorbed(s, t) && s.ptrs != []
    ensures t.ptrs != []
  {
    assert s.ptrs[0] in t.ptrs;
  }

  lemma {:induction false} GatheredLost(h0: Heap, h: Heap, xs: set<SetId>, a: SetId, n: nat)
    requires a in h0.sets && a in h.sets
    requires forall y: SetId :: y < n ==> GatheredLostAt(h0, h, xs, a, y)
    ensures Lost(h, h.sets.Keys, n) + Lost(h0, xs - {a}, n)
         == Lost(h0, h0.sets.Keys, n) + if a < n then LostSize(h.sets[a]) - LostSize(h0.sets[a]) else 0
    decreases n
  {
    if n > 0 {
      GatheredLost(h0, h, xs, a, n - 1);
      assert GatheredLostAt(h0, h, xs, a, n - 1);
    }
  }

  ghost predicate GatheredLostAt(h0: Heap, h: Heap, xs: set<SetId>, a: SetId, y: SetId)
    requires a in h0.sets && a in h.sets
  {
    LostIn(h, h.sets.Keys, y) + LostIn(h0, xs - {a}, y)
    == LostIn(h0, h0.sets.Keys, y) + if y == a then LostSize(h.sets[a]) - LostSize(h0.sets[a]) else 0
  }

  /** What a search adds to the error is what a full merge need not add any more; but the united set
      is safe once it has a pointer. */
  lemma {:induction false} GatheringFullDrift(aa: Oracle, h0: Heap, h: Heap, q: Query, found: Option<SetId>)
    requires Books(h0, {}, multiset{}) && Gathering(aa, h0, h, q, h0.next, found)
    ensures found.None? ==> FullDrift(h) == FullDrift(h0)
    ensures found.Some? ==>
              var a := found.value;
              && a in h0.sets && a in h.sets && LostSize(h.sets[a]) == StillLost(h0, Selected(aa, h0, q, h0.next), a)
              && FullDrift(h) == FullDrift(h0) - LostSize(h0.sets[a]) + LostSize(h.sets[a])
  {
    if found.Some? {
      var xs, a := Selected(aa, h0, q, h0.next), found.value;
      UnitedLoss(h0, h, xs, h0.next, a);
      forall y: SetId | y < h0.next ensures GatheredLostAt(h0, h, xs, a, y) {
        assert LeftAt(h0, h, xs, h0.next, y);
      }
      GatheredLost(h0, h, xs, a, h0.next);
    }
  }

  lemma {:induction false} CollectedGrows(h0: Heap, h: Heap, xs: set<SetId>, n: SetId, found: Option<SetId>)
    requires Collected(h0, h, xs, n, found)
    ensures Grows(h0, h)
  {
    forall x | Active(h0, x) ensures exists y :: Active(h, y) && Absorbed(h0.sets[x], h.sets[y]) {
      assert LeftAt(h0, h, xs, n, x);
      var y := if x in xs then found.value else x;
      assert Active(h, y) && Absorbed(h0.sets[x], h.sets[y]);
    }
  }

  lemma {:induction false} CollectedOneActive(h0: Heap, h: Heap, xs: set<SetId>, n: SetId, found: Option<SetId>)
    requires Collected(h0, h, xs, n, found)
    ensures OneActive(h)
  {
    forall x | Active(h, x) ensures Active(h0, x) {
      assert LeftAt(h0, h, xs, n, x);
    }
    if h0.any.Some? {
      var z := h0.any.value;
      assert LeftAt(h0, h, xs, n, z) && SetAt(h0, z);
      assert Active(h0, h0.root[z]);
    }
  }

  lemma {:induction false} NothingFound(aa: Oracle, h0: Heap, q: Query)
    requires Selected(aa, h0, q, h0.next) == {}
    ensures forall x: SetId :: Active(h0, x) && x < h0.next ==> !Answers(aa, h0.recs, h0.sets[x], q)
  {
    forall x: SetId | Active(h0, x) && x < h0.next ensures !Answers(aa, h0.recs, h0.sets[x], q) {
      assert x !in Selected(aa, h0, q, h0.next);
    }
  }

  /** What a finished search has done: the sets that answer, and only those, are one set now. */
  lemma {:induction false} GatheringDone(aa: Oracle, h0: Heap, h: Heap, q: Query, found: Option<SetId>)
    requires Gathering(aa, h0, h, q, h0.next, found)
    ensures Grows(h0, h) && OneActive(h)
    ensures found == None ==> forall x: SetId :: Active(h0, x) && x < h0.next ==> !Answers(aa, h0.recs, h0.sets[x], q)
  {
    var xs := Selected(aa, h0, q, h0.next);
    if found == None {
      NothingFound(aa, h0, q);
    }
    CollectedOneActive(h0, h, xs, h0.next, found);
    CollectedGrows(h0, h, xs, h0.next, found);
  }
}
