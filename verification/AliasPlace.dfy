/** Where a location goes: the set that getAliasSetFor finds or makes for it. */
module AliasPlace {
  import opened AliasAnswers
  import opened Options
  import opened AliasSets
  import opened AliasMerge
  import opened AliasAdd
  import opened AliasGather
  import opened Least

  // ---- records ----

  function Retag(aa: Oracle, recs: Records, p: Pointer, tag: Tag): Records
    requires p in recs
  {
    recs[p := recs[p].(tag := Some(aa.update(recs[p].tag, tag).0))]
  }

  /** The records with which the sets are asked about a location: a known pointer's
      size and tags have been updated, a new pointer has an empty record. */
  function Seen(aa: Oracle, recs: Records, loc: Location): Records {
    if loc.ptr in recs then Retag(aa, recs, loc.ptr, loc.tag) else recs[loc.ptr := Record(None, None)]
  }

  ghost predicate AllTracked(h: Heap) {
    forall p :: p in h.recs ==> Tracked(h, p)
  }

  ghost predicate AllTrackedBut(h: Heap, p: Pointer) {
    forall q :: q in h.recs && q != p ==> Tracked(h, q)
  }

  /** An empty record has no part in the books or in the partition. */
  lemma {:induction false} EmptyRecordIsNoMatter(h: Heap, p: Pointer)
    requires Books(h, {}, multiset{}) && Partition(h) && p !in h.recs
    ensures var h' := h.(recs := h.recs[p := Record(None, None)]);
            Books(h', {}, multiset{}) && Partition(h') && Homes(h') == Homes(h) && Drift(h') == Drift(h)
  {
    var h' := h.(recs := h.recs[p := Record(None, None)]);
    forall x ensures BookAt(h', {}, multiset{}, x) && SetAt(h', x) {
      assert BookAt(h, {}, multiset{}, x) && SetAt(h, x);
      assert Attached(h'.recs, x) == Attached(h.recs, x);
    }
    forall q ensures PointerAt(h', q) {
      assert PointerAt(h, q);
    }
  }

  lemma {:induction false} RetagBooks(h: Heap, recs': Records)
    requires Books(h, {}, multiset{}) && Partition(h) && Retagged(h.recs, recs')
    ensures var h' := h.(recs := recs');
            Books(h', {}, multiset{}) && Partition(h') && Homes(h') == Homes(h) && Drift(h') == Drift(h)
  {
    RetaggingIsNoMatter(h, recs');
    forall x ensures BookAt(h.(recs := recs'), {}, multiset{}, x) {
      assert BookAt(h, {}, multiset{}, x);
    }
  }

  lemma {:induction false} SeenIsNoMatter(aa: Oracle, h: Heap, loc: Location)
    requires Books(h, {}, multiset{}) && Partition(h)
    ensures var h' := h.(recs := Seen(aa, h.recs, loc));
            Books(h', {}, multiset{}) && Partition(h') && Homes(h') == Homes(h) && Drift(h') == Drift(h)
    ensures AllTracked(h) ==>
              var h' := h.(recs := Seen(aa, h.recs, loc));
              if loc.ptr in h.recs then AllTracked(h') && loc.ptr in Homes(h) else AllTrackedBut(h', loc.ptr)
  {
    if loc.ptr in h.recs {
      RetagBooks(h, Seen(aa, h.recs, loc));
    } else {
      EmptyRecordIsNoMatter(h, loc.ptr);
    }
  }

  // ---- adding to a set ----

  /** A must-alias set with a pointer to compare the new one to. */
  predicate Compared(s: AliasSet) {
    !s.may && s.ptrs != []
  }

  predicate MayAfter(aa: Oracle, recs: Records, s: AliasSet, loc: Location, knownMust: bool) {
    s.may || (Compared(s) && !knownMust && aa.alias(LocOf(recs, s.ptrs[0]), loc) != MustAlias)
  }

  function RecsAfter(aa: Oracle, recs: Records, s: AliasSet, loc: Location, knownMust: bool, skip: bool): Records {
    if Compared(s) && knownMust && !skip && s.ptrs[0] in recs then Retag(aa, recs, s.ptrs[0], loc.tag) else recs
  }

  /** The pointer whose record is updated along with the one of a pointer that surely is the same. */
  function Updated(s: AliasSet, knownMust: bool, skip: bool): Option<Pointer> {
    if knownMust && !skip && !s.may && s.ptrs != [] then Some(s.ptrs[0]) else None
  }

  /** The new pointer is the last one of the set, which must be a may-alias set if its first pointer need not be
      the same; the sizes that the total counts have been added to it. */
  ghost predicate PointerAdded(aa: Oracle, h: Heap, h': Heap, a: SetId, loc: Location, knownMust: bool, skip: bool)
    requires a in h.sets
  {
    a in h'.sets &&
    var s, s' := h.sets[a], h'.sets[a];
    && h'.sets == h.sets[a := s']
    && s' == s.(may := s'.may, ptrs := s.ptrs + [loc.ptr], size := s.size + 1, refCount := s.refCount + 1)
    && (s'.may <==>
          s.may || (s.ptrs != [] && !knownMust && aa.alias(LocOf(h.recs, s.ptrs[0]), loc) != MustAlias))
    && h'.total == h.total + (if s'.may then 1 else 0) + (if s'.may && !s.may then s.size else 0)
    && (forall q :: TagAt(aa, h.recs, h'.recs, loc, Updated(s, knownMust, skip), q))
  }

  lemma {:induction false} JoinedIsAdded(aa: Oracle, h: Heap, a: SetId, loc: Location, knownMust: bool, skip: bool)
    requires CanJoin(h, a, loc.ptr)
    ensures PointerAdded(aa, h, Joined(aa, h, a, loc, knownMust, skip), a, loc, knownMust, skip)
  {
    assert SetAt(h, a);
    var h', also := Joined(aa, h, a, loc, knownMust, skip), Updated(h.sets[a], knownMust, skip);
    forall q ensures TagAt(aa, h.recs, h'.recs, loc, also, q) {
      assert also.Some? ==> also.value in h.sets[a].ptrs;
    }
  }

  /** The location added to set `a`. */
  function Joined(aa: Oracle, h: Heap, a: SetId, loc: Location, knownMust: bool, skip: bool): Heap
    requires a in h.sets && loc.ptr in h.recs
  {
    WithPointer(h.(recs := RecsAfter(aa, h.recs, h.sets[a], loc, knownMust, skip)), a, loc.ptr,
                aa.update(h.recs[loc.ptr].tag, loc.tag).0, MayAfter(aa, h.recs, h.sets[a], loc, knownMust))
  }

  ghost predicate CanJoin(h: Heap, a: SetId, p: Pointer) {
    NearlyBooks(h, a) && Partition(h) && Active(h, a) && p in h.recs && h.recs[p].set_.None?
  }

  lemma {:induction false} JoinedIsSound(aa: Oracle, h: Heap, a: SetId, loc: Location, knownMust: bool, skip: bool)
    requires CanJoin(h, a, loc.ptr)
    ensures var h' := Joined(aa, h, a, loc, knownMust, skip);
            && Books(h', {}, multiset{}) && Partition(h') && Homes(h') == Homes(h)[loc.ptr := a] &&
                 Drift(h') == Drift(h)
            && Active(h', a)
  {
    var recs', may := RecsAfter(aa, h.recs, h.sets[a], loc, knownMust, skip),
        MayAfter(aa, h.recs, h.sets[a], loc, knownMust);
    var h1, tag := h.(recs := recs'), aa.update(h.recs[loc.ptr].tag, loc.tag).0;
    assert SetAt(h, a);
    assert Retagged(h.recs, recs');
    RetaggingIsNoMatter(h, recs');
    assert CanAdd(h1, a, loc.ptr, may);
    AddedBooks(h1, a, loc.ptr, tag, may);
    AddedPartition(h1, a, loc.ptr, tag, may);
    AddedDrift(h1, a, loc.ptr, tag, may);
  }

  /** A set with a pointer has nothing to lose any more. */
  lemma {:induction false} JoinedFullDrift(aa: Oracle, h: Heap, a: SetId, loc: Location, knownMust: bool, skip: bool)
    requires CanJoin(h, a, loc.ptr)
    ensures FullDrift(Joined(aa, h, a, loc, knownMust, skip)) == FullDrift(h) - LostSize(h.sets[a])
  {
    var h' := Joined(aa, h, a, loc, knownMust, skip);
    JoinedIsSound(aa, h, a, loc, knownMust, skip);
    LostChange(h, h', h.next, a);
  }

  lemma {:induction false} JoinedGrows(aa: Oracle, h: Heap, a: SetId, loc: Location, knownMust: bool, skip: bool)
    requires CanJoin(h, a, loc.ptr)
    ensures var h' := Joined(aa, h, a, loc, knownMust, skip);
            && Grows(h, h') && (OneActive(h) ==> OneActive(h')) && (NoUnknown(h) ==> NoUnknown(h'))
            && forall q :: q in h'.recs && q != loc.ptr ==> q in h.recs && h'.recs[q].set_ == h.recs[q].set_
  {
    var h' := Joined(aa, h, a, loc, knownMust, skip);
    forall x | Active(h, x) ensures exists y :: Active(h', y) && Absorbed(h.sets[x], h'.sets[y]) {
      assert Active(h', x) && Absorbed(h.sets[x], h'.sets[x]);
    }
    if OneActive(h) && h'.any.Some? {
      forall x: SetId | Active(h', x) ensures h'.any == Some(x) {
        assert Active(h, x);
      }
    }
  }

  // ---- the place of a location ----

  ghost function First(xs: set<SetId>): (a: SetId)
    requires xs != {}
    ensures a in xs && forall x :: x in xs ==> a <= x
  {
    assert exists a :: IsLeast(xs, a) by {
      var a := LeastExists(xs);
    }
    var a :| IsLeast(xs, a);
    a
  }

  /** The partition after the sets in `xs` have become one. */
  ghost function United(homes: map<Pointer, SetId>, xs: set<SetId>): map<Pointer, SetId> {
    if xs == {} then homes else Gathered(homes, xs, First(xs))
  }

  /** The partition after a location has been looked up: all sets that may alias it have
      become one, and a new pointer is in that set, or in a set of its own. */
  ghost function Placed(aa: Oracle, h: Heap, loc: Location): map<Pointer, SetId>
    requires Partition(h)
  {
    var p, xs := loc.ptr, Selected(aa, h.(recs := Seen(aa, h.recs, loc)), ForPointer(loc), h.next);
    if h.any.Some? then if p in h.recs then Homes(h) else Homes(h)[p := h.any.value]
    else if p in h.recs then if aa.update(h.recs[p].tag, loc.tag).1 then United(Homes(h), xs) else Homes(h)
    else United(Homes(h), xs)[p := if xs == {} then h.next else First(xs)]
  }

  /** What uniting the sets adds to the error of the total: the sizes of those without pointers, up to the first. */
  ghost function LostUniting(h: Heap, xs: set<SetId>): int {
    if xs == {} then 0 else Lost(h, xs - {First(xs)}, h.next)
  }

  /** What uniting the sets takes from the error that a full merge would leave. */
  ghost function SparedUniting(h: Heap, xs: set<SetId>): int {
    if xs == {} || First(xs) !in h.sets then 0 else LostSize(h.sets[First(xs)]) - StillLost(h, xs, First(xs))
  }

  /** The sets that a lookup of the location unites. */
  function Uniting(aa: Oracle, h: Heap, loc: Location): set<SetId> {
    if h.any.None? && (loc.ptr in h.recs ==> aa.update(h.recs[loc.ptr].tag, loc.tag).1)
    then Selected(aa, h.(recs := Seen(aa, h.recs, loc)), ForPointer(loc), h.next) else {}
  }

  /** What a lookup takes from the error that a full merge would leave: a new pointer joins the united set. */
  ghost function SparedPlacing(aa: Oracle, h: Heap, loc: Location): int {
    var xs := Uniting(aa, h, loc);
    if loc.ptr in h.recs then SparedUniting(h, xs)
    else if xs == {} || First(xs) !in h.sets then 0 else LostSize(h.sets[First(xs)])
  }

  /** The sets asked about a new pointer are asked with its empty record. */
  lemma {:induction false} PlacedNew(aa: Oracle, h: Heap, h1: Heap, loc: Location)
    requires Partition(h) && h.any == None && loc.ptr !in h.recs
    requires h1 == h.(recs := h.recs[loc.ptr := Record(None, None)])
    ensures h1 == h.(recs := Seen(aa, h.recs, loc))
    ensures var xs := Selected(aa, h1, ForPointer(loc), h1.next);
            && Uniting(aa, h, loc) == xs
            && Placed(aa, h, loc) == United(Homes(h), xs)[loc.ptr := if xs == {} then h.next else First(xs)]
            && SparedPlacing(aa, h, loc) ==
                 if xs == {} || First(xs) !in h.sets then 0 else LostSize(h.sets[First(xs)])
  {
  }

  /** Sets are asked about a known pointer if its size has changed. */
  lemma {:induction false} PlacedKnown(aa: Oracle, h: Heap, h1: Heap, loc: Location)
    requires Partition(h) && h.any == None && loc.ptr in h.recs
    requires h1 == h.(recs := Retag(aa, h.recs, loc.ptr, loc.tag))
    ensures h1 == h.(recs := Seen(aa, h.recs, loc))
    ensures var changed := aa.update(h.recs[loc.ptr].tag, loc.tag).1;
            var xs := if changed then Selected(aa, h1, ForPointer(loc), h1.next) else {};
            && Uniting(aa, h, loc) == xs && Placed(aa, h, loc) == United(Homes(h), xs)
            && SparedPlacing(aa, h, loc) == SparedUniting(h, xs)
  {
  }

  /** What an instruction adds to the error of the total: it makes a united must-alias set a may-alias set. */
  ghost function LostToUnknown(aa: Oracle, h: Heap, xs: set<SetId>): int {
    LostUniting(h, xs) - if xs != {} && StayMust(aa, h, xs, First(xs)) then Sizes(h, xs, h.next) else 0
  }

  // ---- what is in the sets after an operation ----

  /** Active sets other than those in `xs` are as they were, and no others are active but `a`. */
  ghost predicate OthersAt(h: Heap, h': Heap, xs: set<SetId>, a: SetId, y: SetId) {
    && (Active(h, y) && y !in xs ==> Active(h', y) && h'.sets[y] == h.sets[y].(refCount := h'.sets[y].refCount))
    && (Active(h', y) ==> y == a || (Active(h, y) && y !in xs))
  }

  /** The sets in `xs` have become set `a`, or that is a new set if there are none. */
  ghost predicate OnlyUnited(h: Heap, h': Heap, xs: set<SetId>, a: SetId) {
    && Active(h', a) && h'.recs == h.recs && (forall y :: OthersAt(h, h', xs, a, y))
    && Holds(h, xs, h.next, a, h'.sets[a])
    && (if xs == {} then a !in h.sets else a in xs && a in h.sets && h.sets[a].ptrs <= h'.sets[a].ptrs)
    && (h'.sets[a].access.ref <==> RefIn(h, xs)) && (h'.sets[a].access.mod <==> ModIn(h, xs))
  }

  /** What the record of `q` says after a lookup: it is updated for the pointer that is looked up and for `also`. */
  ghost predicate TagAt(aa: Oracle, recs: Records, recs': Records, loc: Location, also: Option<Pointer>, q: Pointer) {
    && (q in recs' <==> q in recs || q == loc.ptr)
    && (q in recs' ==>
          recs'[q].tag == if q == loc.ptr || also == Some(q)
                          then Some(aa.update(if q in recs then recs[q].tag else None, loc.tag).0) else recs[q].tag)
  }

  /** A must-alias set takes over what is known of a location that surely is the same. */
  ghost function Representative(aa: Oracle, h: Heap, xs: set<SetId>, a: SetId, loc: Location): Option<Pointer> {
    if StayMust(aa, h, xs, a) && !SomeNotMust(aa, h, xs, loc) then Some(h.sets[a].ptrs[0]) else None
  }

  /** A new pointer in the set `s` that the sets in `xs` have become: a must-alias set only if they stay one and
      either all of them answer MustAlias or their first pointer does. */
  ghost predicate Lodged(aa: Oracle, h: Heap, s: AliasSet, xs: set<SetId>, a: SetId, loc: Location) {
    && s.ptrs == Members(h, xs, h.next) + [loc.ptr] && s.unknown == Instructions(h, xs, h.next)
    && s.size == Sizes(h, xs, h.next) - Lost(h, xs - {a}, h.next) + 1
    && (s.access.ref <==> RefIn(h, xs)) && (s.access.mod <==> ModIn(h, xs))
    && (s.may <==>
          && xs != {}
          && (!StayMust(aa, h, xs, a) ||
              (SomeNotMust(aa, h, xs, loc) && aa.alias(LocOf(h.recs, h.sets[a].ptrs[0]), loc) != MustAlias)))
  }

  ghost predicate Housed(aa: Oracle, h: Heap, h': Heap, xs: set<SetId>, a: SetId, loc: Location) {
    && Active(h', a) && (forall y :: OthersAt(h, h', xs, a, y)) && Lodged(aa, h, h'.sets[a], xs, a, loc)
    && forall q :: TagAt(aa, h.recs, h'.recs, loc, Representative(aa, h, xs, a, loc), q)
  }

  lemma {:induction false} JoinedIsHoused(aa: Oracle, h: Heap, h1: Heap, xs: set<SetId>, a: SetId, loc: Location,
          knownMust: bool)
    requires Partition(h) && OnlyUnited(h, h1, xs, a) && loc.ptr in h.recs && h.recs[loc.ptr].set_.None?
    requires h1.sets[a].may <==> xs != {} && !StayMust(aa, h, xs, a)
    requires StayMust(aa, h, xs, a) ==> (knownMust <==> !SomeNotMust(aa, h, xs, loc))
    ensures Housed(aa, h, Joined(aa, h1, a, loc, knownMust, false), xs, a, loc)
  {
    var h' := Joined(aa, h1, a, loc, knownMust, false);
    forall y ensures OthersAt(h, h', xs, a, y) {
      assert OthersAt(h, h1, xs, a, y);
    }
    if xs == {} {
      ContentsOfNone(h, h.next);
    } else {
      assert SetAt(h, a);
      assert h.sets[a].ptrs != [] ==> h.sets[a].ptrs[0] == h1.sets[a].ptrs[0] && h.sets[a].ptrs[0] in h.sets[a].ptrs;
    }
    forall q ensures TagAt(aa, h.recs, h'.recs, loc, Representative(aa, h, xs, a, loc), q) {
    }
  }

  /** An instruction without an address in the set that the sets in `xs` have become. */
  ghost predicate Enrolled(aa: Oracle, h: Heap, h': Heap, xs: set<SetId>, a: SetId, inst: Inst) {
    && Active(h', a) && h'.recs == h.recs && (forall y :: OthersAt(h, h', xs, a, y))
    && var s := h'.sets[a];
       && s.ptrs == Members(h, xs, h.next) && s.unknown == Instructions(h, xs, h.next) + [inst] && s.may
       && s.size == Sizes(h, xs, h.next) - Lost(h, xs - {a}, h.next)
       && s.access.ref && (s.access.mod <==> aa.writes(inst) || ModIn(h, xs))
  }

  lemma {:induction false} UnknownIsEnrolled(aa: Oracle, h: Heap, h1: Heap, xs: set<SetId>, a: SetId, inst: Inst)
    requires OnlyUnited(h, h1, xs, a)
    ensures var access := if aa.writes(inst) then MOD_REF else h1.sets[a].access.Join(Access(true, false));
            Enrolled(aa, h, WithUnknown(h1, a, inst, access), xs, a, inst)
  {
    var access := if aa.writes(inst) then MOD_REF else h1.sets[a].access.Join(Access(true, false));
    forall y ensures OthersAt(h, WithUnknown(h1, a, inst, access), xs, a, y) {
      assert OthersAt(h, h1, xs, a, y);
    }
  }

  lemma {:induction false} GatheredIsOnlyUnited(aa: Oracle, h: Heap, h1: Heap, q: Query, a: SetId)
    requires Gathering(aa, h, h1, q, h.next, Some(a))
    ensures OnlyUnited(h, h1, Selected(aa, h, q, h.next), a)
  {
    var xs := Selected(aa, h, q, h.next);
    forall y ensures OthersAt(h, h1, xs, a, y) {
      assert LeftAt(h, h1, xs, h.next, y);
    }
  }

  lemma {:induction false} NewIsOnlyUnited(h: Heap)
    requires NextIsFree(h)
    ensures OnlyUnited(h, WithSet(h, EMPTY_SET), {}, h.next)
  {
    ContentsOfNone(h, h.next);
    assert {} - {h.next} == {};
    forall y ensures OthersAt(h, WithSet(h, EMPTY_SET), {}, h.next, y) {
    }
  }

  lemma {:induction false} SameIsOnlyUnited(h: Heap, a: SetId)
    requires Active(h, a) && a < h.next
    ensures OnlyUnited(h, h, {a}, a)
  {
    ContentsOfOne(h, a, h.next);
    ContentsOfNone(h, h.next);
    assert {a} - {a} == {};
    forall y ensures OthersAt(h, h, {a}, a, y) {
    }
  }

  /** All that a lookup does: the sets that may alias the location become one, a new pointer joins that set or
      starts one, and the records are updated. */
  ghost predicate LookedUp(aa: Oracle, h: Heap, h': Heap, loc: Location, a: SetId) {
    var seen := h.(recs := Seen(aa, h.recs, loc));
    if loc.ptr in h.recs then
      Renewed(aa, h, h', loc, a)
    else if h.any.Some? then
      a == h.any.value && Housed(aa, seen, h', {a}, a, loc)
    else
      var xs := Uniting(aa, h, loc);
      a == (if xs == {} then h.next else First(xs)) && Housed(aa, seen, h', xs, a, loc)
  }

  ghost predicate Renewed(aa: Oracle, h: Heap, h': Heap, loc: Location, a: SetId) {
    var xs, seen := Uniting(aa, h, loc), h.(recs := Seen(aa, h.recs, loc));
    && (forall q :: TagAt(aa, h.recs, h'.recs, loc, None, q))
    && if xs == {} then forall y :: OthersAt(h, h', xs, a, y)
       else
         var u := First(xs);
         Active(h', u) && UnitedAs(aa, seen, h', xs, h.next, u) && forall y :: OthersAt(h, h', xs, u, y)
  }

  /** The access noted at set `a`. */
  function Noted(h: Heap, a: SetId, access: Access): Heap
    requires a in h.sets
  {
    var s := h.sets[a];
    h.(sets := h.sets[a := s.(access := Access(s.access.ref || access.ref, s.access.mod || access.mod))])
  }

  /** Before the set of a known pointer is looked up: its record has been updated, and sets have been united. */
  ghost predicate Refreshed(aa: Oracle, h: Heap, h': Heap, loc: Location) {
    var seen := h.(recs := Seen(aa, h.recs, loc));
    h'.recs == seen.recs && AsOne(aa, seen, h', Uniting(aa, h, loc))
  }

  /** The sets in `xs`, if there are any, have become one. */
  ghost predicate AsOne(aa: Oracle, h: Heap, h': Heap, xs: set<SetId>) {
    if xs == {} then h'.sets == h.sets
    else
      var u := First(xs);
      Active(h', u) && UnitedAs(aa, h, h', xs, h.next, u) && forall y :: OthersAt(h, h', xs, u, y)
  }

  /** The set has no pointers, but a size that the total has counted. */
  predicate Loses(h: Heap, x: SetId) {
    Active(h, x) && h.sets[x].may && h.sets[x].ptrs == [] && h.sets[x].size > 0
  }

  /** Losses are a matter of the sets alone. */
  lemma {:induction false} RetaggedLosses(h: Heap, h': Heap, xs: set<SetId>)
    requires h' == h.(recs := h'.recs)
    ensures LostUniting(h', xs) == LostUniting(h, xs) && SparedUniting(h', xs) == SparedUniting(h, xs)
    ensures FullDrift(h') == FullDrift(h)
  {
    if xs != {} {
      LostOfSets(h, h', xs - {First(xs)}, h.next);
    }
    LostOfSets(h, h', h.sets.Keys, h.next);
  }

  /** A lookup leaves the total as right as it was if and only if no set but the first of those united loses. */
  lemma {:induction false} UnitingIsExact(h: Heap, xs: set<SetId>)
    requires Books(h, {}, multiset{}) && Partition(h)
    ensures LostUniting(h, xs) >= 0
    ensures LostUniting(h, xs) == 0 <==> forall x :: x in xs && x != First(xs) ==> !Loses(h, x)
  {
    if xs != {} {
      var rest := xs - {First(xs)};
      LostNothing(h, rest, h.next);
      forall x ensures LostIn(h, rest, x) >= 0 && (LostIn(h, rest, x) == 0 <==> !(x in rest && Loses(h, x))) {
        assert SetAt(h, x);
      }
      forall x | x in rest && Loses(h, x) ensures x < h.next {
        assert BookAt(h, {}, multiset{}, x);
      }
    }
  }

  /** A valid tracker and a location whose lookup makes the total wrong: a set without pointers loses its size. */
  lemma {:induction false} LosingSetExists() returns (aa: Oracle, h: Heap, loc: Location)
    ensures Books(h, {}, multiset{}) && Partition(h) && OneActive(h) && AllTracked(h) && Drift(h) == 0
    ensures Active(h, 0) && Loses(h, 1) && LostUniting(h, Uniting(aa, h, loc)) > 0
  {
    aa := Oracle((l, m) => NoAlias, (i, l) => true, (i, j) => false, i => true, i => true, (t, u) => (u, false));
    loc := Location(9, 0);
    var s := EMPTY_SET.(refCount := 1, access := MOD_REF, may := true, unknown := [5]);
    h := Heap(map[0 := s, 1 := s.(size := 1)], map[], None, 2, 1, map[0 := 0, 1 := 1]);
    assert Attached(h.recs, 0) == {} && Forwarders(h.sets, {}, 0) == {};
    assert Attached(h.recs, 1) == {} && Forwarders(h.sets, {}, 1) == {};
    forall x ensures BookAt(h, {}, multiset{}, x) && SetAt(h, x) {
    }
    forall p ensures PointerAt(h, p) {
    }
    assert MaySizes(h.sets, 1) == MaySizes(h.sets, 0) + MaySize(h.sets[0]);
    assert MaySizes(h.sets, 2) == MaySizes(h.sets, 1) + MaySize(h.sets[1]);
    UnknownAnswers(aa, h.(recs := Seen(aa, h.recs, loc)), loc, 0);
    UnknownAnswers(aa, h.(recs := Seen(aa, h.recs, loc)), loc, 1);
    var xs := Uniting(aa, h, loc);
    assert 0 in xs && 1 in xs && First(xs) == 0;
    UnitingIsExact(h, xs);
  }

  lemma {:induction false} UnknownAnswers(aa: Oracle, h: Heap, loc: Location, x: SetId)
    requires Active(h, x) && h.sets[x].may && h.sets[x].ptrs == [] && h.sets[x].unknown == [5] && aa.modRef(5, loc)
    ensures Answers(aa, h.recs, h.sets[x], ForPointer(loc))
  {
    assert aa.modRef(h.sets[x].unknown[0], loc);
  }

  /** A full merge leaves the total as right as it was if and only if no active set loses. */
  lemma {:induction false} MergingAllIsExact(h: Heap)
    requires Books(h, {}, multiset{}) && Partition(h)
    ensures FullDrift(h) >= Drift(h)
    ensures FullDrift(h) == Drift(h) <==> forall x :: !Loses(h, x)
  {
    LostNothing(h, h.sets.Keys, h.next);
    forall x ensures LostIn(h, h.sets.Keys, x) == 0 <==> !Loses(h, x) {
      assert SetAt(h, x);
    }
    forall x: SetId | Loses(h, x) ensures x < h.next {
      assert BookAt(h, {}, multiset{}, x);
    }
  }

  /** After a lookup, set `x` is the united one and has a pointer, so that a full merge counts its size. */
  ghost predicate SafeAt(aa: Oracle, h: Heap, loc: Location, x: SetId) {
    var xs := Uniting(aa, h, loc);
    xs != {} && x == First(xs) && (loc.ptr !in h.recs || exists y :: y in xs && y in h.sets && h.sets[y].ptrs != [])
  }

  lemma {:induction false} LostWithout(h: Heap, xs: set<SetId>, a: SetId, n: nat)
    ensures Lost(h, xs, n) == Lost(h, xs - {a}, n) + if a < n then LostIn(h, xs, a) else 0
  {
    if n > 0 {
      LostWithout(h, xs, a, n - 1);
    }
  }

  /** A lookup followed by a full merge leaves the total as right as it was if and only if no active set
      loses but one that the lookup gives a pointer. */
  lemma {:induction false} SaturatingIsExact(aa: Oracle, h: Heap, loc: Location)
    requires Books(h, {}, multiset{}) && Partition(h)
    ensures FullDrift(h) - SparedPlacing(aa, h, loc) >= Drift(h)
    ensures FullDrift(h) - SparedPlacing(aa, h, loc) == Drift(h) <==>
              forall x :: Loses(h, x) ==> SafeAt(aa, h, loc, x)
  {
    var xs := Uniting(aa, h, loc);
    var spared: set<SetId> := if xs != {} && SafeAt(aa, h, loc, First(xs)) then {First(xs)} else {};
    var rest := h.sets.Keys - spared;
    SparedIsLost(aa, h, loc);
    if spared != {} {
      LostWithout(h, h.sets.Keys, First(xs), h.next);
      assert First(xs) in h.sets ==> BookAt(h, {}, multiset{}, First(xs));
    } else {
      assert rest == h.sets.Keys;
    }
    LostNothing(h, rest, h.next);
    forall x ensures LostIn(h, rest, x) == 0 <==> !(x !in spared && Loses(h, x)) {
      assert SetAt(h, x);
    }
    forall x: SetId | Loses(h, x) ensures x < h.next {
      assert BookAt(h, {}, multiset{}, x);
    }
  }

  /** The sets that a lookup unites are active. */
  lemma {:induction false} SparedIsLost(aa: Oracle, h: Heap, loc: Location)
    ensures var xs := Uniting(aa, h, loc);
            SparedPlacing(aa, h, loc) ==
              if xs != {} && SafeAt(aa, h, loc, First(xs)) then LostIn(h, h.sets.Keys, First(xs)) else 0
  {
    var h1 := h.(recs := Seen(aa, h.recs, loc));
    assert forall x :: x in Selected(aa, h1, ForPointer(loc), h.next) ==> Active(h1, x) && Active(h, x);
  }

  /** An instruction leaves the total as right as it was if and only if the sets it touches do not stay a
      must-alias set, and no set but the first of them loses. */
  lemma {:induction false} UnknownIsExact(aa: Oracle, h: Heap, inst: Inst)
    requires Books(h, {}, multiset{}) && Partition(h)
    ensures var xs := Selected(aa, h, ForInst(inst), h.next);
            LostToUnknown(aa, h, xs) == 0 <==>
              xs == {} || (!StayMust(aa, h, xs, First(xs)) && forall x :: x in xs && x != First(xs) ==> !Loses(h, x))
  {
    var xs := Selected(aa, h, ForInst(inst), h.next);
    UnitingIsExact(h, xs);
    if xs != {} && StayMust(aa, h, xs, First(xs)) {
      SizesAtLeast(h, xs, h.next, First(xs));
      forall x | x in xs ensures !Loses(h, x) {
        assert MustJoin(aa, h, First(xs), x);
      }
    }
  }

  /** The search has united the sets that answered. */
  lemma {:induction false} GatheredIsUnited(aa: Oracle, h0: Heap, h: Heap, q: Query, found: Option<SetId>)
    requires Gathering(aa, h0, h, q, h0.next, found)
    ensures var xs := Selected(aa, h0, q, h0.next);
            && Homes(h) == United(Homes(h0), xs) && (found == None <==> xs == {})
            && Drift(h) == Drift(h0) + LostUniting(h0, xs)
            && (Books(h0, {}, multiset{}) && NoUnknown(h0) ==> Drift(h) == Drift(h0))
            && (found.Some? ==> found.value == First(xs) && Active(h, found.value))
  {
    if Books(h0, {}, multiset{}) && NoUnknown(h0) {
      GatheringKeepsDrift(aa, h0, h, q, found);
    }
  }

  /** The assert of AliasSet::addPointer: the first pointer of the set that the search
      ends with has answered already, and not with NoAlias. */
  lemma {:induction false} NeverNoAlias(aa: Oracle, h0: Heap, h: Heap, loc: Location, a: SetId)
    requires Gathering(aa, h0, h, ForPointer(loc), h0.next, Some(a)) && Compared(h.sets[a])
    ensures aa.alias(LocOf(h.recs, h.sets[a].ptrs[0]), loc) != NoAlias
  {
    var xs := Selected(aa, h0, ForPointer(loc), h0.next);
    assert Absorbed(h0.sets[a], h.sets[a]);
    assert Answer(aa, h0.recs, h0.sets[a], loc) != NoAlias;
    assert SetAt(h0, a) && LeftAt(h0, h, xs, h0.next, a);
  }

  /** A new set takes nothing from the others. */
  lemma {:induction false} NewSetGrows(h: Heap, s: AliasSet)
    requires Books(h, {}, multiset{}) && Partition(h) && s.unknown == []
    ensures Grows(h, WithSet(h, s)) && (NoUnknown(h) ==> NoUnknown(WithSet(h, s)))
    ensures s == EMPTY_SET ==> FullDrift(WithSet(h, s)) == FullDrift(h)
  {
    NextFree(h);
    if s == EMPTY_SET {
      NewSetBooks(h, s);
      LostChange(h, WithSet(h, s), h.next, h.next);
    }
    forall x | Active(h, x) ensures exists y :: Active(WithSet(h, s), y) && Absorbed(h.sets[x], WithSet(h, s).sets[y]) {
      assert Absorbed(h.sets[x], WithSet(h, s).sets[x]);
    }
  }

  /** Pointers of a saturated tracker are all in its one active set. */
  lemma {:induction false} SaturatedHome(h: Heap, p: Pointer)
    requires Partition(h) && OneActive(h) && h.any.Some? && Tracked(h, p)
    ensures p in Homes(h) && Homes(h)[p] == h.any.value
  {
    assert PointerAt(h, p) && SetAt(h, h.recs[p].set_.value);
    assert Active(h, Home(h, p));
  }

  lemma {:induction false} AllHome(h: Heap)
    requires Partition(h) && OneActive(h) && h.any.Some?
    ensures forall p :: p in Homes(h) ==> Homes(h)[p] == h.any.value
  {
    forall p | p in Homes(h) ensures Homes(h)[p] == h.any.value {
      SaturatedHome(h, p);
    }
  }

  /** An access noted at a set. */
  lemma {:induction false} AccessJoined(h: Heap, a: SetId, access: Access)
    requires Books(h, {}, multiset{}) && Partition(h) && OneActive(h) && Active(h, a)
    ensures var h' := h.(sets := h.sets[a := h.sets[a].(access := h.sets[a].access.Join(access))]);
            && Books(h', {}, multiset{}) && Partition(h') && Homes(h') == Homes(h) && OneActive(h') &&
                 Drift(h') == Drift(h)
            && Grows(h, h') && (NoUnknown(h) ==> NoUnknown(h')) && FullDrift(h') == FullDrift(h)
  {
    var h' := h.(sets := h.sets[a := h.sets[a].(access := h.sets[a].access.Join(access))]);
    forall x ensures BookAt(h', {}, multiset{}, x) {
      assert BookAt(h, {}, multiset{}, x);
      SameForwarders(h.sets, h'.sets, {}, x);
    }
    forall x ensures SetAt(h', x) {
      assert SetAt(h, x);
    }
    forall p ensures PointerAt(h', p) {
      assert PointerAt(h, p);
    }
    SetRaised(h, h', a);
    MaySizesChange(h.sets, h'.sets, h.next, a);
    SameFullDrift(h, h');
  }

  /** A set that is higher in the lattices, and has lost nothing. */
  lemma {:induction false} SetRaised(h: Heap, h': Heap, a: SetId)
    requires Active(h, a) && a in h'.sets && h'.sets == h.sets[a := h'.sets[a]] && h'.sets[a].forward.None?
    requires Absorbed(h.sets[a], h'.sets[a]) && OneActive(h) && h'.any == h.any
    ensures Grows(h, h') && OneActive(h')
  {
    forall x | Active(h, x) ensures exists y :: Active(h', y) && Absorbed(h.sets[x], h'.sets[y]) {
      assert Active(h', x) && Absorbed(h.sets[x], h'.sets[x]);
    }
    if h.any.Some? {
      forall x: SetId | Active(h', x) ensures h'.any == Some(x) {
        assert Active(h, x);
      }
    }
  }

  lemma {:induction false} UnknownGrows(h: Heap, a: SetId, i: Inst, access: Access)
    requires Active(h, a) && OneActive(h) && h.sets[a].access.Below(access)
    ensures Grows(h, WithUnknown(h, a, i, access)) && OneActive(WithUnknown(h, a, i, access))
  {
    SetRaised(h, WithUnknown(h, a, i, access), a);
  }
}
