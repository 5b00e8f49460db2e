/** The alias set tracker: a union-find of reference-counted sets. */
module AliasSetTrackers {
  import opened AliasAnswers
  import opened Options
  import opened AliasSets
  import opened AliasMerge
  import opened AliasAdd
  import opened AliasGather
  import opened AliasPlace
  import opened AliasRecords
  import opened AliasSaturate

  datatype Op = AddPointer(loc: Location, access: Access) | AddUnknown(inst: Inst) | DeleteValue(ptr: Pointer)
              | CopyValue(from: Pointer, to: Pointer)

  /** The total is an unsigned number of 32 bits. */
  const UNSIGNED := 0x1_0000_0000

  class AliasSetTracker {
    const aa: Oracle
    /** How large the may-alias sets may become together. */
    const threshold: nat

    /** The list of alias sets and the map from pointers to their records. */
    var sets: Sets
    var recs: Records
    var total: int
    var any: Option<SetId>
    var next: SetId

    ghost var root: map<SetId, SetId>

    /** The number of full merges so far. */
    ghost var merges: nat

    ghost function H(): Heap
      reads this
    {
      Heap(sets, recs, any, next, total, root)
    }

    /** Sets being taken apart come later in the forwarding order than `x`. */
    ghost predicate Deeper(x: SetId, ex: set<SetId>)
      reads this
    {
      forall e :: e in ex ==> Rank(x, any) < Rank(e, any)
    }

    method DropRef(x: SetId, ghost ex: set<SetId>, ghost owed: multiset<SetId>)
      requires Books(H(), ex, owed) && x in owed && Deeper(x, ex)
      modifies this`sets, this`total
      ensures Books(H(), ex, owed - multiset{x})
      ensures Pruned(old(H()), H(), ex) && Above(old(H()), H(), x)
      ensures Drift(H()) == old(Drift(H()))
      decreases Rank(x, any), 2
    {
      ghost var h := H();
      DropOne(h, ex, owed, x);
      sets := sets[x := sets[x].(refCount := sets[x].refCount - 1)];
      ghost var h1 := H();
      assert h1 == Decremented(h, x);
      if sets[x].refCount == 0 {
        RemoveAliasSet(x, ex, owed - multiset{x});
        PrunedTwice(h, h1, H(), ex, ex);
        AboveTwice(h, h1, H(), x, x);
      }
    }

    method RemoveAliasSet(x: SetId, ghost ex: set<SetId>, ghost owed: multiset<SetId>)
      requires Removing(H(), ex, owed, x) && Deeper(x, ex)
      modifies this`sets, this`total
      ensures Books(H(), ex, owed)
      ensures Pruned(old(H()), H(), ex) && Above(old(H()), H(), x)
      ensures Drift(H()) == old(Drift(H()))
      decreases Rank(x, any), 1, 0
    {
      ghost var h0 := H();
      ReleaseForward(x, ex, owed);
      ghost var h1 := H();
      EraseUnreferenced(h0, h1, ex, owed, x);
      MaySizesChange(sets, sets - {x}, next, x);
      sets := sets - {x};
    }

    /** The first part: the reference to the set that `x` forwards to, or its part in the total. */
    method ReleaseForward(x: SetId, ghost ex: set<SetId>, ghost owed: multiset<SetId>)
      requires Removing(H(), ex, owed, x) && Deeper(x, ex)
      modifies this`sets, this`total
      ensures Books(H(), ex + {x}, owed)
      ensures Pruned(old(H()), H(), ex + {x}) && Above(old(H()), H(), x)
      ensures Drift(H()) == old(Drift(H())) - MaySizeAt(old(sets), x)
      ensures x in sets && sets[x] == old(sets[x])
      decreases Rank(x, any), 0, 0
    {
      ghost var h0 := H();
      OweForward(h0, ex, owed, x);
      match sets[x].forward {
        case Some(f) =>
          DropRef(f, ex + {x}, owed + multiset{f});
          assert owed + multiset{f} - multiset{f} == owed;
          AboveTwice(h0, h0, H(), x, f);
        case None =>
          assert owed + multiset{} == owed;
          if sets[x].may {
            total := total - sets[x].size;
          }
          TotalIsNoMatter(h0, H(), ex + {x}, owed);
      }
      assert PrunedAt(h0, H(), ex + {x}, x);
    }

    /** Follows the forwarding to its end and shortens it on the way. */
    method GetForwardedTarget(x: SetId) returns (dest: SetId)
      requires x in sets && Books(H(), {}, multiset{}) && Partition(H())
      modifies this`sets, this`total
      ensures x in root && dest == root[x]
      ensures Books(H(), {}, multiset{}) && Shortened(old(H()), H()) && Above(old(H()), H(), x)
      ensures Drift(H()) == old(Drift(H()))
      ensures x in sets && dest in sets && Rank(dest, any) <= Rank(x, any)
      ensures sets[x].forward == if dest == x then None else Some(dest)
      decreases Rank(x, any)
    {
      ghost var h0 := H();
      assert SetAt(h0, x) && BookAt(h0, {}, multiset{}, x);
      match sets[x].forward {
        case None =>
          dest := x;
          PrunedSelf(h0);
          PrunedIsShortened(h0, h0);
        case Some(f) =>
          dest := GetForwardedTarget(f);
          ghost var h1 := H();
          ShorteningKeepsPartition(h0, h1, multiset{});
          assert AboveAt(h0, h1, f, x);
          AboveTwice(h0, h0, h1, x, f);
          if dest != f {
            Redirect(x, f, dest);
            ShortenedTwice(h0, h1, H());
            AboveTwice(h0, h1, H(), x, x);
          }
      }
    }

    method Redirect(x: SetId, f: SetId, dest: SetId)
      requires Books(H(), {}, multiset{}) && Partition(H())
      requires x in sets && sets[x].forward == Some(f) && dest in sets && dest != f
      requires Rank(dest, any) <= Rank(f, any) && x in root && root[x] == dest
      modifies this`sets, this`total
      ensures Books(H(), {}, multiset{}) && Shortened(old(H()), H()) && Above(old(H()), H(), x)
      ensures Drift(H()) == old(Drift(H()))
      ensures x in sets && dest in sets && sets[x].forward == Some(dest)
    {
      ghost var h1 := H();
      assert BookAt(h1, {}, multiset{}, x);
      RedirectStart(h1, x, f, dest);
      sets := sets[dest := sets[dest].(refCount := sets[dest].refCount + 1)];
      assert H() == Incremented(h1, dest);
      DropRef(f, {x}, multiset{dest, f});
      ghost var h3 := H();
      assert multiset{dest, f} - multiset{f} == multiset{dest};
      RedirectEnd(h1, h3, x, f, dest);
      assert BookAt(h3, {x}, multiset{dest}, dest);
      sets := sets[x := sets[x].(forward := Some(dest))];
      assert H() == Redirected(h3, x, dest);
    }

    /** Between the steps of an operation. */
    ghost predicate Consistent()
      reads this
    {
      Books(H(), {}, multiset{}) && Partition(H()) && OneActive(H())
    }

    /** Between operations: moreover every record belongs to a set. */
    ghost predicate Valid()
      reads this
    {
      Consistent() && AllTracked(H())
    }

    constructor (aa: Oracle, threshold: nat)
      ensures Valid() && this.aa == aa && this.threshold == threshold
      ensures sets == map[] && recs == map[] && total == 0 && any == None && next == 0 && merges == 0
    {
      this.aa, this.threshold := aa, threshold;
      sets, recs, total, any, next, root, merges := map[], map[], 0, None, 0, map[], 0;
      new;
      forall x ensures BookAt(H(), {}, multiset{}, x) {
      }
    }

    // ---- merging two sets ----

    /** Whether the merged set is a may-alias set. */
    method MergedMay(a: SetId, b: SetId) returns (may: bool)
      requires NearlyBooks(H(), a) && Partition(H()) && Active(H(), a) && Active(H(), b) && b != a
      requires sets[a].may || sets[a].refCount >= 1
      ensures may == JoinMay(aa, recs, sets[a], sets[b])
    {
      may := sets[a].may || sets[b].may;
      if !may {
        assert BookAt(H(), {}, multiset{}, b);
        ReferencedHasPointer(H(), a, a);
        ReferencedHasPointer(H(), a, b);
        if aa.alias(LocOf(recs, sets[a].ptrs[0]), LocOf(recs, sets[b].ptrs[0])) != MustAlias {
          may := true;
        }
      }
    }

    method MergeSetIn(a: SetId, b: SetId)
      requires a in sets && b in sets && CanMerge(H(), a, b, JoinMay(aa, recs, sets[a], sets[b]))
      modifies this`sets, this`total, this`root
      ensures MergeDone(old(H()), H(), a, b, old(JoinMay(aa, recs, sets[a], sets[b])))
    {
      ghost var h0 := H();
      var wasMust := !sets[a].may;
      var may := MergedMay(a, b);
      if may {
        if wasMust {
          total := total + sets[a].size;
        }
        if !sets[b].may {
          total := total + sets[b].size;
        }
      }
      var hadUnknown := sets[b].unknown != [];
      var s, t := Transfer(sets[a], sets[b], a, may);
      sets := sets[a := s][b := t];
      root := Rerooted(root, a, b);
      FinishMerge(h0, a, b, hadUnknown);
    }

    /** Moves the unknown instructions and the pointers of `t0` to `s0`, and makes `t0` forward to it. */
    static method Transfer(s0: AliasSet, t0: AliasSet, a: SetId, may: bool) returns (s: AliasSet, t: AliasSet)
      ensures s == Survivor(s0, t0, may) && t == Emptied(t0, a)
    {
      s, t := s0.(access := s0.access.Join(t0.access), may := may), t0;
      var hadUnknown := t.unknown != [];
      if s.unknown == [] {
        if hadUnknown {
          s, t := s.(unknown := t.unknown, refCount := s.refCount + 1), t.(unknown := s.unknown);
        }
      } else if hadUnknown {
        s, t := s.(unknown := s.unknown + t.unknown), t.(unknown := []);
      }
      t := t.(forward := Some(a));
      s := s.(refCount := s.refCount + 1);
      if t.ptrs != [] {
        s, t := s.(size := s.size + t.size, ptrs := s.ptrs + t.ptrs), t.(size := 0, ptrs := []);
      }
      assert [] + t0.unknown == t0.unknown && s0.unknown + [] == s0.unknown && s0.ptrs + [] == s0.ptrs;
    }

    /** Gives up the merged set's reference for unknown instructions. */
    method FinishMerge(ghost h0: Heap, a: SetId, b: SetId, hadUnknown: bool)
      requires a in sets && CanMerge(h0, a, b, H().sets[a].may) && H() == Merged(h0, a, b, H().sets[a].may)
      requires hadUnknown == (h0.sets[b].unknown != [])
      modifies this`sets, this`total
      ensures MergeDone(h0, H(), a, b, old(H().sets[a].may))
    {
      ghost var h1, may := H(), sets[a].may;
      MergedBooks(h0, a, b, may);
      PrunedSelf(h1);
      if hadUnknown {
        DropRef(b, {}, multiset{b});
        assert multiset{b} - multiset{b} == multiset{};
      }
      MergeIsDone(h0, H(), a, b, may);
    }

    // ---- which sets alias a location or an instruction ----

    method AliasesPointer(x: SetId, loc: Location) returns (r: AliasResult)
      requires Books(H(), {}, multiset{}) && Partition(H()) && Active(H(), x)
      ensures r == Answer(aa, recs, sets[x], loc)
    {
      var s := sets[x];
      if s.any {
        return MayAlias;
      }
      if !s.may {
        MustHasPointer(H(), x);
        assert s.unknown == [] && s.ptrs != [];
        return aa.alias(LocOf(recs, s.ptrs[0]), loc);
      }
      var i := 0;
      while i < |s.ptrs|
        invariant i <= |s.ptrs| && FirstAlias(aa, recs, s.ptrs, loc) == FirstAlias(aa, recs, s.ptrs[i..], loc)
      {
        var ar := aa.alias(loc, LocOf(recs, s.ptrs[i]));
        if ar != NoAlias {
          return ar;
        }
        i := i + 1;
      }
      i := 0;
      while i < |s.unknown|
        invariant i <= |s.unknown| && forall j :: 0 <= j < i ==> !aa.modRef(s.unknown[j], loc)
      {
        if aa.modRef(s.unknown[i], loc) {
          return MayAlias;
        }
        i := i + 1;
      }
      return NoAlias;
    }

    method AliasesUnknownInst(x: SetId, inst: Inst) returns (r: bool)
      requires x in sets
      ensures r == TouchedBy(aa, recs, sets[x], inst)
    {
      var s := sets[x];
      if s.any {
        return true;
      }
      var i := 0;
      while i < |s.unknown|
        invariant i <= |s.unknown| && forall j :: 0 <= j < i ==> !aa.related(s.unknown[j], inst)
      {
        if aa.related(s.unknown[i], inst) {
          return true;
        }
        i := i + 1;
      }
      i := 0;
      while i < |s.ptrs|
        invariant i <= |s.ptrs| && forall j :: 0 <= j < i ==> !aa.modRef(inst, LocOf(recs, s.ptrs[j]))
      {
        if aa.modRef(inst, LocOf(recs, s.ptrs[i])) {
          return true;
        }
        i := i + 1;
      }
      return false;
    }

    // ---- merging all sets that answer ----

    /** The set `n` answers: it is remembered if it is the first, and merged into the first otherwise. */
    method Take(n: SetId, found: Option<SetId>, ghost q: Query, ghost h0: Heap) returns (found': Option<SetId>)
      requires Gathering(aa, h0, H(), q, n, found) && Active(H(), n) && Answers(aa, recs, sets[n], q)
      modifies this`sets, this`total, this`root
      ensures Gathering(aa, h0, H(), q, n + 1, found') && found'.Some?
      ensures Selected(aa, h0, q, n + 1) == Selected(aa, h0, q, n) + {n}
    {
      match found {
        case None =>
          FirstFound(aa, h0, H(), q, n);
          found' := Some(n);
        case Some(a) =>
          CanGather(h0, H(), Selected(aa, h0, q, n), n, a, JoinMay(aa, recs, sets[a], sets[n]));
          ghost var h := H();
          MergeSetIn(a, n);
          NextFound(aa, h0, h, H(), q, n, a, JoinMay(aa, h.recs, h.sets[a], h.sets[n]));
          found' := found;
      }
    }

    /** Merges all sets that may alias the location; `mustAll` says whether every one answered MustAlias. */
    method MergeAliasSetsForPointer(loc: Location) returns (found: Option<SetId>, mustAll: bool)
      requires Consistent()
      modifies this`sets, this`total, this`root
      ensures Gathering(aa, old(H()), H(), ForPointer(loc), next, found)
      ensures mustAll == AllMust(aa, old(H()), loc, next)
    {
      ghost var h0 := H();
      found, mustAll := None, true;
      GatheringStart(aa, h0, ForPointer(loc));
      var n := 0;
      while n < next
        invariant n <= next && Gathering(aa, h0, H(), ForPointer(loc), n, found)
        invariant mustAll == AllMust(aa, h0, loc, n)
      {
        found, mustAll := VisitFor(n, loc, found, mustAll, h0);
        n := n + 1;
      }
    }

    /** Asks set `n`, and takes it if it answers. */
    method VisitFor(n: SetId, loc: Location, found: Option<SetId>, mustAll: bool, ghost h0: Heap)
      returns (found': Option<SetId>, mustAll': bool)
      requires Gathering(aa, h0, H(), ForPointer(loc), n, found)
      requires mustAll == AllMust(aa, h0, loc, n)
      modifies this`sets, this`total, this`root
      ensures Gathering(aa, h0, H(), ForPointer(loc), n + 1, found')
      ensures mustAll' == AllMust(aa, h0, loc, n + 1)
    {
      ghost var q := ForPointer(loc);
      assert LeftAt(h0, H(), Selected(aa, h0, q, n), n, n);
      var ar := NoAlias;
      if n in sets && sets[n].forward == None {
        ar := AliasesPointer(n, loc);
      }
      found', mustAll' := found, mustAll;
      if ar != NoAlias {
        mustAll' := mustAll && ar == MustAlias;
        found' := Take(n, found, q, h0);
      } else {
        PassOver(aa, h0, H(), q, n, found);
      }
    }

    method FindAliasSetForUnknownInst(inst: Inst) returns (found: Option<SetId>)
      requires Consistent()
      modifies this`sets, this`total, this`root
      ensures Gathering(aa, old(H()), H(), ForInst(inst), next, found)
    {
      ghost var h0, q := H(), ForInst(inst);
      found := None;
      GatheringStart(aa, h0, q);
      var n := 0;
      while n < next
        invariant n <= next && Gathering(aa, h0, H(), q, n, found)
      {
        found := VisitForInst(n, inst, found, h0);
        n := n + 1;
      }
    }

    method VisitForInst(n: SetId, inst: Inst, found: Option<SetId>, ghost h0: Heap) returns (found': Option<SetId>)
      requires Gathering(aa, h0, H(), ForInst(inst), n, found)
      modifies this`sets, this`total, this`root
      ensures Gathering(aa, h0, H(), ForInst(inst), n + 1, found')
    {
      var touched := false;
      if n in sets && sets[n].forward == None {
        touched := AliasesUnknownInst(n, inst);
      }
      if touched {
        found' := Take(n, found, ForInst(inst), h0);
      } else {
        PassOver(aa, h0, H(), ForInst(inst), n, found);
        found' := found;
      }
    }

    // ---- adding to a set ----

    /** AliasSet::addPointer. The requirement on the answer is the assert that a
        must-alias set has something to do with the new pointer. */
    method AddToSet(a: SetId, loc: Location, knownMust: bool, skip: bool)
      requires CanJoin(H(), a, loc.ptr)
      requires Compared(sets[a]) && !knownMust ==> aa.alias(LocOf(recs, sets[a].ptrs[0]), loc) != NoAlias
      modifies this`sets, this`total, this`recs
      ensures H() == Joined(aa, old(H()), a, loc, knownMust, skip)
      ensures PointerAdded(aa, old(H()), H(), a, loc, knownMust, skip)
    {
      JoinedIsAdded(aa, H(), a, loc, knownMust, skip);
      var s := sets[a];
      if Compared(s) {
        s := CompareToFirst(a, loc, knownMust, skip);
      }
      recs := recs[loc.ptr := Record(Some(a), Some(aa.update(recs[loc.ptr].tag, loc.tag).0))];
      s := s.(size := s.size + 1, ptrs := s.ptrs + [loc.ptr], refCount := s.refCount + 1);
      if s.may {
        total := total + 1;
      }
      sets := sets[a := s];
    }

    /** The first part, for a must-alias set with a pointer to compare the new one to. */
    method CompareToFirst(a: SetId, loc: Location, knownMust: bool, skip: bool) returns (s: AliasSet)
      requires CanJoin(H(), a, loc.ptr) && Compared(sets[a])
      requires !knownMust ==> aa.alias(LocOf(recs, sets[a].ptrs[0]), loc) != NoAlias
      modifies this`total, this`recs
      ensures s == sets[a].(may := MayAfter(aa, old(recs), sets[a], loc, knownMust))
      ensures recs == RecsAfter(aa, old(recs), sets[a], loc, knownMust, skip)
      ensures total == old(total) + if s.may then s.size else 0
      ensures loc.ptr in recs && recs[loc.ptr] == old(recs)[loc.ptr]
    {
      s := sets[a];
      var first := s.ptrs[0];
      assert SetAt(H(), a) && first in s.ptrs;
      if !knownMust {
        var result := aa.alias(LocOf(recs, first), loc);
        if result != MustAlias {
          s := s.(may := true);
          total := total + s.size;
        }
        assert result != NoAlias;
      } else if !skip {
        recs := Retag(aa, recs, first, loc.tag);
      }
    }

    method AddUnknownInst(a: SetId, inst: Inst)
      requires a in sets
      modifies this`sets
      ensures H() == WithUnknown(old(H()), a, inst, if aa.writes(inst) then MOD_REF
                else old(sets)[a].access.Join(Access(true, false)))
    {
      var s := sets[a];
      if s.unknown == [] {
        s := s.(refCount := s.refCount + 1);
      }
      s := s.(unknown := s.unknown + [inst]);
      if !aa.writes(inst) {
        s := s.(may := true, access := s.access.Join(Access(true, false)));
      } else {
        s := s.(may := true, access := MOD_REF);
      }
      sets := sets[a := s];
    }

    /** A new set at the end of the list. */
    method PushBack() returns (a: SetId)
      requires Consistent() && any == None
      modifies this`sets, this`next, this`root
      ensures a == old(next) && H() == WithSet(old(H()), EMPTY_SET)
    {
      a := next;
      sets, root, next := sets[next := EMPTY_SET], root[next := next], next + 1;
    }

    // ---- PointerRec::getAliasSet ----

    /** The set of a pointer; its record refers to that set directly from now on. */
    method GetAliasSet(p: Pointer) returns (dest: SetId)
      requires Books(H(), {}, multiset{}) && Partition(H()) && p in recs && recs[p].set_.Some?
      modifies this`sets, this`total, this`recs
      ensures Books(H(), {}, multiset{}) && Partition(H()) && Homes(H()) == old(Homes(H()))
      ensures p in old(Homes(H())) && dest == old(Homes(H()))[p] && Active(H(), dest)
      ensures recs == old(recs)[p := old(recs)[p].(set_ := Some(dest))]
      ensures Steady(old(H()), H()) && Drift(H()) == old(Drift(H()))
    {
      ghost var h0 := H();
      var x := recs[p].set_.value;
      dest := x;
      assert PointerAt(h0, p) && SetAt(h0, x);
      if sets[x].forward != None {
        dest := GetForwardedTarget(x);
        ghost var h1 := H();
        ShorteningKeepsPartition(h0, h1, multiset{});
        ShortenedSteady(h0, h1);
        assert SetAt(h1, x);
        Reattach(p, x, dest);
        SteadyTwice(h0, h1, H());
        assert SteadyAt(h0, H(), dest);
      } else {
        assert forall y :: SteadyAt(h0, h0, y);
        assert recs == recs[p := recs[p].(set_ := Some(dest))];
      }
    }

    method Reattach(p: Pointer, x: SetId, dest: SetId)
      requires Books(H(), {}, multiset{}) && Partition(H()) && p in recs && recs[p].set_ == Some(x)
      requires x in sets && sets[x].forward.Some? && x in root && root[x] == dest && Active(H(), dest)
      modifies this`sets, this`total, this`recs
      ensures Books(H(), {}, multiset{}) && Partition(H()) && Homes(H()) == old(Homes(H()))
      ensures recs == old(recs)[p := old(recs)[p].(set_ := Some(dest))]
      ensures Steady(old(H()), H()) && Drift(H()) == old(Drift(H()))
    {
      ghost var h1 := H();
      ReattachedBooks(h1, p, x, dest);
      ReattachedPartition(h1, p, x, dest);
      recs := recs[p := recs[p].(set_ := Some(dest))];
      sets := sets[dest := sets[dest].(refCount := sets[dest].refCount + 1)];
      ghost var h2 := H();
      assert h2 == Reattached(h1, p, dest);
      BooksArePeopled(h1);
      assert forall y :: SteadyAt(h1, h2, y);
      Release(x);
      SteadyTwice(h1, h2, H());
    }

    method Release(x: SetId)
      requires Books(H(), {}, multiset{x}) && Partition(H()) && Peopled(H())
      modifies this`sets, this`total
      ensures Books(H(), {}, multiset{}) && Partition(H()) && Homes(H()) == old(Homes(H()))
      ensures Steady(old(H()), H()) && Drift(H()) == old(Drift(H()))
    {
      ghost var h := H();
      DropRef(x, {}, multiset{x});
      assert multiset{x} - multiset{x} == multiset{};
      PrunedIsShortened(h, H());
      ShorteningKeepsPartition(h, H(), multiset{});
      ReleasedSteady(h, H());
    }

    // ---- saturation ----

    /** Merges all sets into one that is considered to alias everything. It looks at each set
        that was in the list, in order, and none of them is gone by then. */
    method MergeAllAliasSets() returns (z: SetId)
      requires Consistent() && any == None && sets != map[]
      modifies this`sets, this`total, this`root, this`any, this`next, this`merges
      ensures merges == old(merges) + 1
      ensures Consistent() && any == Some(z) && Active(H(), z) && sets[z].access == MOD_REF
      ensures Grows(old(H()), H()) && recs == old(recs)
      ensures Homes(H()) == map p | p in old(Homes(H())) :: z
      ensures z == old(next) && Saturated(old(H()), H(), z)
      ensures Drift(H()) == old(FullDrift(H()))
      ensures NoUnknown(old(H())) ==> NoUnknown(H()) && Drift(H()) == old(Drift(H()))
    {
      ghost var h0 := H();
      SaturatingStart(h0);
      var collected := sets.Keys;
      z := next;
      any, merges := Some(z), merges + 1;
      sets, root, next := sets[z := ANY_SET], root[z := z], next + 1;
      assert H() == Opened(h0);
      MergeAllInto(h0, z, collected);
      SaturatingDone(h0, H(), z);
      SaturatedDrift(h0, H(), z);
    }

    /** Visits the sets that were collected beforehand; each is still there when its turn comes. */
    method MergeAllInto(ghost h0: Heap, z: SetId, collected: set<SetId>)
      requires Saturating(h0, H(), z, 0) && collected == h0.sets.Keys
      modifies this`sets, this`total, this`root
      ensures Saturating(h0, H(), z, z)
    {
      var n := 0;
      while n < z
        invariant n <= z && Saturating(h0, H(), z, n)
      {
        assert DoneAt(h0, H(), z, n, n);
        if n in collected {
          MergeInto(h0, z, n);
        } else {
          NothingThere(h0, H(), z, n);
        }
        n := n + 1;
      }
    }

    method MergeInto(ghost h0: Heap, z: SetId, n: SetId)
      requires Saturating(h0, H(), z, n) && n < z && n in sets
      modifies this`sets, this`total, this`root
      ensures Saturating(h0, H(), z, n + 1)
      ensures any == old(any) && next == old(next) && recs == old(recs)
    {
      ghost var h := H();
      match sets[n].forward {
        case Some(f) =>
          TargetDone(h0, h, z, n);
          ReroutedBooks(h, n, f, z);
          Reroute(n, f, z);
          ForwarderRerouted(h0, h, H(), z, n);
        case None =>
          CanSaturate(h0, h, z, n);
          MergeSetIn(z, n);
          ActiveMerged(h0, h, H(), z, n);
      }
    }

    method Reroute(n: SetId, f: SetId, z: SetId)
      requires n in sets && z in sets && n != z && Books(Rerouted(H(), n, z), {}, multiset{f})
      modifies this`sets, this`total
      ensures var m := Rerouted(old(H()), n, z);
              Pruned(m, H(), {}) && Above(m, H(), f) && Books(H(), {}, multiset{}) && Drift(H()) == Drift(m)
    {
      ghost var m := Rerouted(H(), n, z);
      sets := sets[n := sets[n].(forward := Some(z))];
      sets := sets[z := sets[z].(refCount := sets[z].refCount + 1)];
      assert H() == m;
      DropRef(f, {}, multiset{f});
      assert multiset{f} - multiset{f} == multiset{};
    }

    // ---- the public operations ----

    /** What every operation keeps: no set loses anything, and the total is as right as before
        as long as there are no unknown instructions. */
    twostate predicate Kept()
      reads this
    {
      && Grows(old(H()), H())
      && (NoUnknown(old(H())) ==> NoUnknown(H()) && Drift(H()) == old(Drift(H())))
    }

    /** The active set for a location. All sets that may alias it have become one. */
    method GetAliasSetFor(loc: Location) returns (a: SetId)
      requires Valid()
      modifies this`sets, this`total, this`recs, this`root, this`next
      ensures Valid() && Active(H(), a) && Kept() && any == old(any)
      ensures Homes(H()) == Placed(aa, old(H()), loc) && LookedUp(aa, old(H()), H(), loc, a)
      ensures loc.ptr in Homes(H()) && Homes(H())[loc.ptr] == a
      ensures Drift(H()) == old(Drift(H())) + LostUniting(old(H()), Uniting(aa, old(H()), loc))
      ensures any == None ==> FullDrift(H()) == old(FullDrift(H())) - SparedPlacing(aa, old(H()), loc)
    {
      if any.Some? {
        a := any.value;
        FindSaturated(a, loc);
      } else if loc.ptr in recs {
        a := FindKnown(loc);
      } else {
        a := FindNew(loc);
      }
    }

    /** The tracker is saturated, so there is one active set only. */
    method FindSaturated(a: SetId, loc: Location)
      requires Valid() && any == Some(a)
      modifies this`sets, this`total, this`recs
      ensures Valid() && Active(H(), a) && Kept()
      ensures Homes(H()) == Placed(aa, old(H()), loc) && LookedUp(aa, old(H()), H(), loc, a)
      ensures loc.ptr in Homes(H()) && Homes(H())[loc.ptr] == a
      ensures Drift(H()) == old(Drift(H())) && any == old(any)
    {
      ghost var h := H();
      SeenIsNoMatter(aa, h, loc);
      OneActiveIsActive(h);
      if loc.ptr in recs {
        RenewSaturated(a, loc);
      } else {
        recs := recs[loc.ptr := Record(None, None)];
        assert H() == h.(recs := Seen(aa, h.recs, loc));
        JoinSaturated(a, loc);
      }
    }

    method RenewSaturated(a: SetId, loc: Location)
      requires Valid() && any == Some(a) && Active(H(), a) && loc.ptr in recs
      modifies this`recs
      ensures Valid() && Active(H(), a) && Kept() && any == old(any) && Drift(H()) == old(Drift(H()))
      ensures Homes(H()) == old(Homes(H())) && loc.ptr in Homes(H()) && Homes(H())[loc.ptr] == a
      ensures Renewed(aa, old(H()), H(), loc, a)
    {
      ghost var h := H();
      SeenIsNoMatter(aa, h, loc);
      recs := Retag(aa, recs, loc.ptr, loc.tag);
      SaturatedHome(H(), loc.ptr);
      SameSetsGrow(h, H());
      SteadySelf(H());
      RefreshedIsRenewed(aa, h, H(), H(), loc, a);
    }

    method JoinSaturated(a: SetId, loc: Location)
      requires Consistent() && any == Some(a) && Active(H(), a)
      requires loc.ptr in recs && recs[loc.ptr].set_.None? && AllTrackedBut(H(), loc.ptr)
      modifies this`sets, this`total, this`recs
      ensures Valid() && Active(H(), a) && Kept() && any == old(any) && Drift(H()) == old(Drift(H()))
      ensures Homes(H()) == old(Homes(H()))[loc.ptr := a] && Housed(aa, old(H()), H(), {a}, a, loc)
    {
      ghost var h := H();
      BooksAreNearly(h, a);
      assert SetAt(h, a) && BookAt(h, {}, multiset{}, a);
      SameIsOnlyUnited(h, a);
      Insert(a, loc, false, false);
      JoinedIsHoused(aa, h, h, {a}, a, loc, false);
    }

    /** The pointer is known. If its size has changed, sets may have to be merged. */
    method FindKnown(loc: Location) returns (a: SetId)
      requires Valid() && any == None && loc.ptr in recs
      modifies this`sets, this`total, this`recs, this`root
      ensures Valid() && Active(H(), a) && Kept()
      ensures Homes(H()) == Placed(aa, old(H()), loc) && Renewed(aa, old(H()), H(), loc, a)
      ensures loc.ptr in Homes(H()) && Homes(H())[loc.ptr] == a
      ensures next == old(next)
      ensures Drift(H()) == old(Drift(H())) + LostUniting(old(H()), Uniting(aa, old(H()), loc))
      ensures FullDrift(H()) == old(FullDrift(H())) - SparedPlacing(aa, old(H()), loc)
    {
      ghost var h := H();
      Renew(loc);
      ghost var h1 := H();
      a := KnownSet(loc.ptr);
      GrowsTwice(h, h1, H());
      RefreshedIsRenewed(aa, h, h1, H(), loc, a);
    }

    /** Updates a known pointer's record. If its size has changed, more sets may alias it. */
    method Renew(loc: Location)
      requires Valid() && any == None && loc.ptr in recs
      modifies this`sets, this`total, this`recs, this`root
      ensures Valid() && Kept() && any == None && next == old(next)
      ensures Homes(H()) == Placed(aa, old(H()), loc) && loc.ptr in Homes(H())
      ensures Refreshed(aa, old(H()), H(), loc)
      ensures Drift(H()) == old(Drift(H())) + LostUniting(old(H()), Uniting(aa, old(H()), loc))
      ensures FullDrift(H()) == old(FullDrift(H())) - SparedPlacing(aa, old(H()), loc)
    {
      ghost var h := H();
      SeenIsNoMatter(aa, h, loc);
      var changed := aa.update(recs[loc.ptr].tag, loc.tag).1;
      recs := Retag(aa, recs, loc.ptr, loc.tag);
      ghost var h1 := H();
      PlacedKnown(aa, h, h1, loc);
      SameSetsGrow(h, h1);
      RetaggedLosses(h, h1, Uniting(aa, h, loc));
      if changed {
        UniteFor(loc);
        GrowsTwice(h, h1, H());
      }
    }

    /** Merges the sets that may alias a location. */
    method UniteFor(loc: Location)
      requires Consistent() && any == None
      modifies this`sets, this`total, this`root
      ensures Consistent() && Kept() && recs == old(recs) && any == None && next == old(next)
      ensures var h := old(H()); var xs := Selected(aa, h, ForPointer(loc), h.next);
              && Homes(H()) == United(Homes(h), xs)
              && Drift(H()) == Drift(h) + LostUniting(h, xs) && FullDrift(H()) == FullDrift(h) - SparedUniting(h, xs)
      ensures AsOne(aa, old(H()), H(), Selected(aa, old(H()), ForPointer(loc), next))
    {
      ghost var h := H();
      var found, mustAll := MergeAliasSetsForPointer(loc);
      GatheringDone(aa, h, H(), ForPointer(loc), found);
      GatheredIsUnited(aa, h, H(), ForPointer(loc), found);
      GatheringFullDrift(aa, h, H(), ForPointer(loc), found);
      if found.Some? {
        GatheredIsOnlyUnited(aa, h, H(), ForPointer(loc), found.value);
      }
    }

    /** The pointer is new: it joins the sets that may alias it, or gets a set of its own. */
    method FindNew(loc: Location) returns (a: SetId)
      requires Valid() && any == None && loc.ptr !in recs
      modifies this`sets, this`total, this`recs, this`root, this`next
      ensures Valid() && Active(H(), a) && Kept() && any == None
      ensures Homes(H()) == Placed(aa, old(H()), loc)
      ensures var h := old(H()); var xs := Uniting(aa, h, loc);
              && a == (if xs == {} then h.next else First(xs))
              && Housed(aa, h.(recs := Seen(aa, h.recs, loc)), H(), xs, a, loc)
      ensures loc.ptr in Homes(H()) && Homes(H())[loc.ptr] == a
      ensures Drift(H()) == old(Drift(H())) + LostUniting(old(H()), Uniting(aa, old(H()), loc))
      ensures FullDrift(H()) == old(FullDrift(H())) - SparedPlacing(aa, old(H()), loc)
    {
      SeenIsNoMatter(aa, H(), loc);
      ghost var h0 := H();
      recs := recs[loc.ptr := Record(None, None)];
      ghost var h1 := H();
      PlacedNew(aa, h0, h1, loc);
      SameSetsGrow(h0, h1);
      RetaggedLosses(h0, h1, Uniting(aa, h0, loc));
      a := JoinOrStart(loc);
      GrowsTwice(h0, h1, H());
    }

    method JoinOrStart(loc: Location) returns (a: SetId)
      requires Consistent() && any == None && loc.ptr in recs && recs[loc.ptr].set_.None? && AllTrackedBut(H(), loc.ptr)
      modifies this`sets, this`total, this`recs, this`root, this`next
      ensures Valid() && Active(H(), a) && Kept() && any == None
      ensures var h := old(H()); var xs := Selected(aa, h, ForPointer(loc), h.next);
              && a == (if xs == {} then h.next else First(xs)) && Homes(H()) == United(Homes(h), xs)[loc.ptr := a]
              && Drift(H()) == Drift(h) + LostUniting(h, xs)
              && FullDrift(H()) == FullDrift(h) - if xs == {} || a !in h.sets then 0 else LostSize(h.sets[a])
      ensures Housed(aa, old(H()), H(), Selected(aa, old(H()), ForPointer(loc), old(next)), a, loc)
    {
      ghost var h := H();
      var found, mustAll := MergeAliasSetsForPointer(loc);
      ghost var h1 := H();
      GatheringDone(aa, h, h1, ForPointer(loc), found);
      GatheredIsUnited(aa, h, h1, ForPointer(loc), found);
      GatheringFullDrift(aa, h, h1, ForPointer(loc), found);
      match found {
        case Some(f) =>
          a := f;
          BooksAreNearly(h1, a);
          if Compared(sets[a]) {
            NeverNoAlias(aa, h, h1, loc, a);
          }
          Insert(a, loc, mustAll, false);
          GatheredIsOnlyUnited(aa, h, h1, ForPointer(loc), a);
          AllMustAnswers(aa, h, loc, h.next);
          JoinedIsHoused(aa, h, h1, Selected(aa, h, ForPointer(loc), h.next), a, loc, mustAll);
        case None =>
          a := StartSet(loc);
      }
      GrowsTwice(h, h1, H());
    }

    /** A new set with a single pointer. */
    method StartSet(loc: Location) returns (a: SetId)
      requires Consistent() && any == None && loc.ptr in recs && recs[loc.ptr].set_.None? && AllTrackedBut(H(), loc.ptr)
      modifies this`sets, this`total, this`recs, this`root, this`next
      ensures Valid() && Active(H(), a) && Kept() && any == None
      ensures a == old(next) && Homes(H()) == old(Homes(H()))[loc.ptr := a] && Housed(aa, old(H()), H(), {}, a, loc)
      ensures Drift(H()) == old(Drift(H())) && FullDrift(H()) == old(FullDrift(H()))
    {
      ghost var h := H();
      NewSetBooks(h, EMPTY_SET);
      NewSetPartition(h, EMPTY_SET);
      NewSetGrows(h, EMPTY_SET);
      a := PushBack();
      ghost var h1 := H();
      NextFree(h);
      NewIsOnlyUnited(h);
      Insert(a, loc, true, false);
      JoinedIsHoused(aa, h, h1, {}, a, loc, true);
      GrowsTwice(h, h1, H());
    }

    /** Adds a pointer to a set, and says what that means for the tracker. */
    method Insert(a: SetId, loc: Location, knownMust: bool, skip: bool)
      requires CanJoin(H(), a, loc.ptr) && OneActive(H())
      requires Compared(sets[a]) && !knownMust ==> aa.alias(LocOf(recs, sets[a].ptrs[0]), loc) != NoAlias
      modifies this`sets, this`total, this`recs
      ensures Consistent() && Active(H(), a) && Kept() && H() == Joined(aa, old(H()), a, loc, knownMust, skip)
      ensures Homes(H()) == old(Homes(H()))[loc.ptr := a]
      ensures AllTrackedBut(old(H()), loc.ptr) ==> AllTracked(H())
      ensures any == old(any)
      ensures Drift(H()) == old(Drift(H())) && FullDrift(H()) == old(FullDrift(H()) - LostSize(sets[a]))
    {
      ghost var h := H();
      JoinedIsSound(aa, h, a, loc, knownMust, skip);
      JoinedFullDrift(aa, h, a, loc, knownMust, skip);
      JoinedGrows(aa, h, a, loc, knownMust, skip);
      AddToSet(a, loc, knownMust, skip);
    }

    /** A location and how it is accessed. Once the may-alias sets have become too large,
        all sets are merged into one; that happens at most once. `placed` is the tracker after
        the lookup, which has found set `b`. */
    method AddPointer(loc: Location, access: Access) returns (a: SetId, ghost b: SetId, ghost placed: Heap)
      requires Valid()
      modifies this`sets, this`total, this`recs, this`root, this`next, this`any, this`merges
      ensures merges - old(merges) == if any == old(any) then 0 else 1
      ensures Valid() && Kept() && Active(H(), a)
      ensures loc.ptr in Homes(H()) && Homes(H())[loc.ptr] == a && access.Below(sets[a].access)
      ensures any == None ==> Homes(H()) == Placed(aa, old(H()), loc) && total % UNSIGNED <= threshold
      ensures any.Some? ==> a == any.value && Homes(H()) == map p | p in Placed(aa, old(H()), loc) :: a
      ensures old(any).Some? ==> any == old(any)
      ensures any == old(any) ==>
                Drift(H()) == old(Drift(H())) + LostUniting(old(H()), Uniting(aa, old(H()), loc))
      ensures any != old(any) ==> Drift(H()) == old(FullDrift(H())) - SparedPlacing(aa, old(H()), loc)
      ensures LookedUp(aa, old(H()), placed, loc, b) && Active(placed, b) && placed.any == old(any)
      ensures any != old(any) <==> old(any) == None && placed.total % UNSIGNED > threshold
      ensures any == old(any) ==> a == b && H() == Noted(placed, b, access)
      ensures any != old(any) ==> a == placed.next && Saturated(Noted(placed, b, access), H(), a)
    {
      ghost var h0 := H();
      a, placed := LookUp(loc, access);
      b := a;
      if any == None && total % UNSIGNED > threshold {
        ghost var h1 := H();
        a := MergeAllAliasSets();
        GrowsTwice(h0, h1, H());
      }
      if any.Some? {
        AllHome(H());
      }
    }

    /** The set of a location, with the access noted. */
    method LookUp(loc: Location, access: Access) returns (a: SetId, ghost placed: Heap)
      requires Valid()
      modifies this`sets, this`total, this`recs, this`root, this`next
      ensures Valid() && Kept() && Active(H(), a) && access.Below(sets[a].access)
      ensures Homes(H()) == Placed(aa, old(H()), loc) && loc.ptr in Homes(H()) && Homes(H())[loc.ptr] == a
      ensures Drift(H()) == old(Drift(H())) + LostUniting(old(H()), Uniting(aa, old(H()), loc))
      ensures any == None ==> FullDrift(H()) == old(FullDrift(H())) - SparedPlacing(aa, old(H()), loc)
      ensures LookedUp(aa, old(H()), placed, loc, a) && Active(placed, a) && H() == Noted(placed, a, access)
    {
      ghost var h0 := H();
      a := GetAliasSetFor(loc);
      placed := H();
      NoteAccess(a, access);
      GrowsTwice(h0, placed, H());
    }

    method NoteAccess(a: SetId, access: Access)
      requires Valid() && Active(H(), a)
      modifies this`sets
      ensures Valid() && Kept() && Active(H(), a) && access.Below(sets[a].access)
      ensures Homes(H()) == old(Homes(H())) && H() == Noted(old(H()), a, access)
      ensures Drift(H()) == old(Drift(H())) && FullDrift(H()) == old(FullDrift(H()))
    {
      AccessJoined(H(), a, access);
      sets := sets[a := sets[a].(access := sets[a].access.Join(access))];
    }

    /** An instruction without a specific address. */
    method AddUnknown(inst: Inst)
      requires Valid()
      modifies this`sets, this`total, this`root, this`next
      ensures Valid() && Grows(old(H()), H())
      ensures !aa.touches(inst) ==> H() == old(H())
      ensures aa.touches(inst) ==>
                var h := old(H()); var xs := Selected(aa, h, ForInst(inst), h.next);
                && Homes(H()) == United(Homes(h), xs)
                && Enrolled(aa, h, H(), xs, if xs == {} then h.next else First(xs), inst)
                && Drift(H()) == Drift(h) + LostToUnknown(aa, h, xs)
    {
      ghost var h0 := H();
      if !aa.touches(inst) {
        SteadySelf(h0);
        return;
      }
      var found := FindAliasSetForUnknownInst(inst);
      ghost var h1 := H();
      GatheringDone(aa, h0, h1, ForInst(inst), found);
      GatheredIsUnited(aa, h0, h1, ForInst(inst), found);
      SaturatedFinds(aa, h0, h1, ForInst(inst), found);
      match found {
        case Some(a) =>
          JoinUnknown(a, inst, h0);
        case None =>
          StartUnknown(inst);
      }
      GrowsTwice(h0, h1, H());
    }

    /** The instruction joins the set that those it touches have become. */
    method JoinUnknown(a: SetId, inst: Inst, ghost h0: Heap)
      requires Gathering(aa, h0, H(), ForInst(inst), h0.next, Some(a)) && OneActive(H())
      modifies this`sets
      ensures Consistent() && Grows(old(H()), H()) && Homes(H()) == old(Homes(H()))
      ensures var xs := Selected(aa, h0, ForInst(inst), h0.next);
              && Enrolled(aa, h0, H(), xs, a, inst)
              && Drift(H()) == old(Drift(H())) - if StayMust(aa, h0, xs, a) then Sizes(h0, xs, h0.next) else 0
    {
      ghost var h, xs := H(), Selected(aa, h0, ForInst(inst), h0.next);
      BooksAreNearly(h, a);
      GatheredIsOnlyUnited(aa, h0, h, ForInst(inst), a);
      UnknownIsEnrolled(aa, h0, h, xs, a, inst);
      if StayMust(aa, h0, xs, a) {
        MustLosesNothing(aa, h0, xs, h0.next, a);
      }
      InsertUnknown(a, inst);
    }

    method StartUnknown(inst: Inst)
      requires Consistent() && any == None
      modifies this`sets, this`root, this`next
      ensures Consistent() && Grows(old(H()), H()) && Homes(H()) == old(Homes(H())) && Drift(H()) == old(Drift(H()))
      ensures Enrolled(aa, old(H()), H(), {}, old(next), inst)
    {
      ghost var h := H();
      NewSetBooks(h, EMPTY_SET);
      NewSetPartition(h, EMPTY_SET);
      NewSetGrows(h, EMPTY_SET);
      NextFree(h);
      NewIsOnlyUnited(h);
      var a := PushBack();
      ghost var h1 := H();
      UnknownIsEnrolled(aa, h, h1, {}, a, inst);
      InsertUnknown(a, inst);
      GrowsTwice(h, h1, H());
    }

    method InsertUnknown(a: SetId, inst: Inst)
      requires NearlyBooks(H(), a) && Partition(H()) && OneActive(H()) && Active(H(), a)
      modifies this`sets
      ensures Consistent() && Grows(old(H()), H()) && Homes(H()) == old(Homes(H()))
      ensures H() == WithUnknown(old(H()), a, inst, if aa.writes(inst) then MOD_REF
                else old(sets)[a].access.Join(Access(true, false)))
      ensures Drift(H()) == old(Drift(H()) - if sets[a].may then 0 else sets[a].size)
    {
      ghost var h := H();
      ghost var access := if aa.writes(inst) then MOD_REF else sets[a].access.Join(Access(true, false));
      UnknownAdded(h, a, inst, access);
      UnknownGrows(h, a, inst, access);
      AddUnknownInst(a, inst);
    }

    /** A copy of a pointer is in the same set, whatever the alias analysis says about it. */
    method CopyValue(from: Pointer, to: Pointer)
      requires Valid()
      modifies this`sets, this`total, this`recs
      ensures Valid() && Kept() && any == old(any) && Drift(H()) == old(Drift(H()))
      ensures from !in old(recs) || to in old(recs) ==> H() == old(H())
      ensures from in old(Homes(H())) && to !in old(recs) ==>
                && Homes(H()) == old(Homes(H()))[to := old(Homes(H()))[from]]
                && CopyAdded(aa, old(H()), H(), from, to, old(Homes(H()))[from])
    {
      ghost var h0 := H();
      if from !in recs || to in recs {
        SteadySelf(h0);
        return;
      }
      EmptyRecordIsNoMatter(h0, to);
      recs := recs[to := Record(None, None)];
      ghost var h1 := H();
      SameSetsGrow(h0, h1);
      assert from in Homes(h1) by {
        assert PointerAt(h0, from);
      }
      CopyTo(from, to);
      GrowsTwice(h0, h1, H());
      CopiedIsAdded(aa, h0, h1, H(), from, to, Homes(h0)[from]);
    }

    method CopyTo(from: Pointer, to: Pointer)
      requires Consistent() && from in Homes(H()) && to in recs && recs[to].set_.None? && AllTrackedBut(H(), to)
      modifies this`sets, this`total, this`recs
      ensures Valid() && Kept() && any == old(any) && Drift(H()) == old(Drift(H()))
      ensures Homes(H()) == old(Homes(H()))[to := old(Homes(H()))[from]]
      ensures CopyAdded(aa, old(H()), H(), from, to, old(Homes(H()))[from])
    {
      ghost var h := H();
      var a := KnownSet(from);
      ghost var h1 := H();
      BooksAreNearly(h1, a);
      assert PointerAt(h1, from) && to != from && recs[to] == old(recs)[to];
      assert CanJoin(h1, a, to) && AllTrackedBut(h1, to);
      Insert(a, Location(to, recs[from].tag.value), true, true);
      GrowsTwice(h, h1, H());
      JoinedCopy(aa, h, h1, from, to, a);
    }

    /** The set of a pointer that belongs to one. */
    method KnownSet(p: Pointer) returns (a: SetId)
      requires Consistent() && p in Homes(H())
      modifies this`sets, this`total, this`recs
      ensures Consistent() && Kept() && any == old(any) && next == old(next)
      ensures Homes(H()) == old(Homes(H())) && a == old(Homes(H()))[p] && Active(H(), a)
      ensures recs == old(recs)[p := old(recs)[p].(set_ := Some(a))] && Steady(old(H()), H())
      ensures recs.Keys == old(recs.Keys) && (forall q :: q in recs ==> recs[q].tag == old(recs)[q].tag)
      ensures AllTracked(old(H())) ==> AllTracked(H())
      ensures Drift(H()) == old(Drift(H())) && FullDrift(H()) == old(FullDrift(H()))
    {
      ghost var h := H();
      a := GetAliasSet(p);
      SteadyGrows(h, H());
      SteadyFullDrift(h, H());
      if NoUnknown(h) {
        SteadyKeeps(h, H());
      }
    }

    /** Forgets a pointer. Its set goes with its last member; the tracker is as good as before
        unless that was the set of a saturated tracker, to which `any` still refers then. */
    method DeleteValue(p: Pointer)
      requires Valid()
      modifies this`sets, this`total, this`recs
      ensures p !in old(recs) ==> H() == old(H())
      ensures recs == old(recs) - {p}
      ensures Valid() <==> !old(LastOfSaturated(H(), p))
      ensures Books(H(), {}, multiset{}) && Partition(H()) && Homes(H()) == old(Homes(H())) - {p} && any == old(any)
      ensures Drift(H()) == old(Drift(H())) && (NoUnknown(old(H())) ==> NoUnknown(H()))
      ensures forall x :: Active(old(H()), x) ==>
                if p in old(Homes(H())) && x == old(Homes(H()))[p]
                then LessOne(old(H()), H(), p, x) else SteadyAt(old(H()), H(), x)
    {
      if p !in recs {
        return;
      }
      ghost var h0 := H();
      assert PointerAt(h0, p);
      var a := GetAliasSet(p);
      ghost var h1 := H();
      Forget(p, a);
      DeletedIsRight(h0, h1, H(), p, a);
    }

    /** Takes the pointer out of its set, to which its record refers. */
    method Forget(p: Pointer, a: SetId)
      requires CanForget(H(), p, a)
      modifies this`sets, this`total, this`recs
      ensures ForgetDone(old(H()), H(), p, a) && recs == old(recs) - {p}
    {
      ghost var h := H();
      ForgottenBooks(h, p, a);
      ForgottenPartition(h, p, a);
      recs := recs - {p};
      sets := sets[a := sets[a].(ptrs := Without(sets[a].ptrs, p))];
      if sets[a].may {
        sets := sets[a := sets[a].(size := sets[a].size - 1)];
        total := total - 1;
      }
      ghost var m := H();
      assert m == Forgotten(h, p, a);
      DropRef(a, {}, multiset{a});
      assert multiset{a} - multiset{a} == multiset{};
      ForgetIsDone(h, H(), p, a);
    }

    /** Any sequence of operations, up to one that empties a saturated tracker, leaves a valid tracker; at most
        one full merge happens; pointers that are together stay together until one of them is deleted. The
        total is the size of the active may-alias sets unless there have been unknown instructions. */
    method Run(ops: seq<Op>) returns (emptied: bool)
      requires Valid()
      modifies this
      ensures (!emptied ==> Valid()) && Partition(H())
      ensures old(any).Some? ==> any == old(any)
      ensures merges - old(merges) == if any == old(any) then 0 else 1
      ensures StayTogether(old(Homes(H())), Homes(H()), ops)
      ensures OnlyLocations(ops) && NoUnknown(old(H())) && old(total == MaySizes(sets, next)) ==>
                total == MaySizes(sets, next)
    {
      emptied := false;
      var i := 0;
      while i < |ops| && !emptied
        invariant i <= |ops| && (!emptied ==> Valid()) && Partition(H())
        invariant old(any).Some? ==> any == old(any)
        invariant merges - old(merges) == if any == old(any) then 0 else 1
        invariant StayTogether(old(Homes(H())), Homes(H()), ops[..i])
        invariant OnlyLocations(ops) && NoUnknown(old(H())) && old(total == MaySizes(sets, next)) ==>
                    NoUnknown(H()) && total == MaySizes(sets, next)
      {
        ghost var before := Homes(H());
        emptied := Apply(ops[i]);
        TogetherTwice(old(Homes(H())), before, Homes(H()), ops[..i], ops[i]);
        assert ops[..i] + [ops[i]] == ops[..i + 1];
        i := i + 1;
      }
      TogetherTillEnd(old(Homes(H())), Homes(H()), ops, i);
    }

    /** One operation; `emptied` says that a saturated tracker has lost its last member. */
    method Apply(op: Op) returns (emptied: bool)
      requires Valid()
      modifies this
      ensures (!emptied ==> Valid()) && Partition(H())
      ensures old(any).Some? ==> any == old(any)
      ensures merges - old(merges) == if any == old(any) then 0 else 1
      ensures StayTogether(old(Homes(H())), Homes(H()), [op])
      ensures !op.AddUnknown? && NoUnknown(old(H())) ==> NoUnknown(H()) && Drift(H()) == old(Drift(H()))
    {
      emptied := false;
      match op {
        case AddPointer(loc, access) =>
          ApplyPointer(loc, access);
        case AddUnknown(inst) =>
          ApplyUnknown(inst);
        case CopyValue(from, to) =>
          ghost var h := H();
          CopyValue(from, to);
          CopiedTogether(h, Homes(H()), from, to, [op]);
        case DeleteValue(p) =>
          ghost var h := H();
          emptied := any.Some? && any.value in sets && sets[any.value].ptrs == [p]
                     && sets[any.value].unknown == [] && p in recs;
          DeleteValue(p);
          RemainTogether(h, Homes(H()), p, [op]);
      }
    }

    method ApplyPointer(loc: Location, access: Access)
      requires Valid()
      modifies this
      ensures Valid() && Kept() && (old(any).Some? ==> any == old(any))
      ensures merges - old(merges) == if any == old(any) then 0 else 1
      ensures StayTogether(old(Homes(H())), Homes(H()), [Op.AddPointer(loc, access)])
    {
      ghost var h := H();
      var a, _, _ := AddPointer(loc, access);
      PlacedTogether(aa, h, loc, Homes(H()), a, [Op.AddPointer(loc, access)]);
    }

    method ApplyUnknown(inst: Inst)
      requires Valid()
      modifies this`sets, this`total, this`root, this`next
      ensures Valid() && StayTogether(old(Homes(H())), Homes(H()), [Op.AddUnknown(inst)])
    {
      ghost var h := H();
      AddUnknown(inst);
      ghost var xs := if aa.touches(inst) then Selected(aa, h, ForInst(inst), h.next) else {};
      UnitedTogether(h, Homes(H()), xs, [Op.AddUnknown(inst)]);
    }
  }

  /** No unknown instruction is added. */
  predicate OnlyLocations(ops: seq<Op>) {
    forall k :: 0 <= k < |ops| ==> !ops[k].AddUnknown?
  }

  /** Pointers that are together stay together unless one of them is deleted. */
  ghost predicate StayTogether(homes: map<Pointer, SetId>, homes': map<Pointer, SetId>, ops: seq<Op>) {
    forall p, q :: p in homes && q in homes && homes[p] == homes[q] ==> TogetherAfter(homes', ops, p, q)
  }

  ghost predicate TogetherAfter(homes: map<Pointer, SetId>, ops: seq<Op>, p: Pointer, q: Pointer) {
    || Op.DeleteValue(p) in ops || Op.DeleteValue(q) in ops
    || (p in homes && q in homes && homes[p] == homes[q])
  }

  lemma {:induction false} TogetherTwice(m0: map<Pointer, SetId>, m1: map<Pointer, SetId>, m2: map<Pointer, SetId>,
          ops: seq<Op>, op: Op)
    requires StayTogether(m0, m1, ops) && StayTogether(m1, m2, [op])
    ensures StayTogether(m0, m2, ops + [op])
  {
    forall p, q | p in m0 && q in m0 && m0[p] == m0[q] ensures TogetherAfter(m2, ops + [op], p, q) {
      assert TogetherAfter(m1, ops, p, q);
      assert p in m1 && q in m1 && m1[p] == m1[q] ==> TogetherAfter(m2, [op], p, q);
    }
  }

  lemma {:induction false} TogetherTillEnd(m0: map<Pointer, SetId>, m: map<Pointer, SetId>, ops: seq<Op>, n: nat)
    requires n <= |ops| && StayTogether(m0, m, ops[..n])
    ensures StayTogether(m0, m, ops)
  {
    forall p, q | p in m0 && q in m0 && m0[p] == m0[q] ensures TogetherAfter(m, ops, p, q) {
      assert TogetherAfter(m, ops[..n], p, q);
      assert forall op :: op in ops[..n] ==> op in ops;
    }
  }

  /** A lookup keeps together what is together, and so does a full merge after it. */
  lemma {:induction false} PlacedTogether(aa: Oracle, h: Heap, loc: Location, homes: map<Pointer, SetId>, a: SetId,
          ops: seq<Op>)
    requires Partition(h) && AllTracked(h)
    requires homes == Placed(aa, h, loc) || homes == map p | p in Placed(aa, h, loc) :: a
    ensures StayTogether(Homes(h), homes, ops)
  {
    assert loc.ptr !in h.recs ==> loc.ptr !in Homes(h);
  }

  lemma {:induction false} UnitedTogether(h: Heap, homes: map<Pointer, SetId>, xs: set<SetId>, ops: seq<Op>)
    requires Partition(h) && homes == United(Homes(h), xs)
    ensures StayTogether(Homes(h), homes, ops)
  {
  }

  lemma {:induction false} CopiedTogether(h: Heap, homes: map<Pointer, SetId>, from: Pointer, to: Pointer, ops: seq<Op>)
    requires Partition(h) && AllTracked(h)
    requires from !in h.recs || to in h.recs ==> homes == Homes(h)
    requires from in Homes(h) && to !in h.recs ==> homes == Homes(h)[to := Homes(h)[from]]
    ensures StayTogether(Homes(h), homes, ops)
  {
    assert from in h.recs ==> Tracked(h, from) && PointerAt(h, from);
    assert to !in h.recs ==> to !in Homes(h);
  }

  lemma {:induction false} RemainTogether(h: Heap, homes: map<Pointer, SetId>, p: Pointer, ops: seq<Op>)
    requires Partition(h) && (homes == Homes(h) || homes == Homes(h) - {p}) && Op.DeleteValue(p) in ops
    ensures StayTogether(Homes(h), homes, ops)
  {
  }
}
