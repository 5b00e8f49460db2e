/** The aggregation of alias analyses. */
module AaResults {
  import opened AliasAnswers
  import opened AaLattice
  import opened AaSoundness

  class AAResults {
    var aas: seq<Analysis>

    constructor ()
      ensures aas == []
    {
      aas := [];
    }

    method AddAAResult(aa: Analysis)
      modifies this
      ensures aas == old(aas) + [aa]
    {
      aas := aas + [aa];
    }

    method Alias(l: Location, m: Location) returns (r: AliasResult)
      ensures r == FirstAnswer(aas, l, m)
      ensures if r == MayAlias then forall k :: 0 <= k < |aas| ==> aas[k].alias(l, m) == MayAlias
              else exists k :: 0 <= k < |aas| && aas[k].alias(l, m) == r
                               && forall j :: 0 <= j < k ==> aas[j].alias(l, m) == MayAlias
    {
      var n := 0;
      while n < |aas|
        invariant n <= |aas| && FirstAnswer(aas, l, m) == FirstAnswer(aas[n..], l, m)
        invariant forall k :: 0 <= k < n ==> aas[k].alias(l, m) == MayAlias
      {
        var result := aas[n].alias(l, m);
        if result != MayAlias {
          return result;
        }
        n := n + 1;
      }
      return MayAlias;
    }

    method PointsToConstantMemory(loc: Location, orLocal: bool) returns (r: bool)
      ensures r <==> IsConstant(aas, loc, orLocal)
    {
      var n := 0;
      while n < |aas|
        invariant n <= |aas| && forall k :: 0 <= k < n ==> !aas[k].constant(loc, orLocal)
      {
        if aas[n].constant(loc, orLocal) {
          return true;
        }
        n := n + 1;
      }
      return false;
    }

    method GetArgModRefInfo(call: Call, i: nat) returns (r: ModRefInfo)
      ensures IsModSet(r) <==> ArgMod(aas, call, i)
      ensures IsRefSet(r) <==> ArgRef(aas, call, i)
    {
      r := MOD_REF;
      ConstantBits();
      var n := 0;
      while n < |aas|
        invariant n <= |aas|
        invariant IsModSet(r) <==> forall k :: 0 <= k < n ==> IsModSet(aas[k].argModRef(call, i))
        invariant IsRefSet(r) <==> forall k :: 0 <= k < n ==> IsRefSet(aas[k].argModRef(call, i))
      {
        IntersectBits(r, aas[n].argModRef(call, i));
        r := IntersectModRef(r, aas[n].argModRef(call, i));
        n := n + 1;
        ClearBits(r);
        if IsNoModRef(r) {
          return NO_MOD_REF;
        }
      }
    }

    method GetModRefBehavior(call: Call) returns (b: Behavior)
      ensures MeetOfFirst(aas, call, |aas|, b)
    {
      b := UNKNOWN_BEHAVIOR;
      NothingMet(aas, call);
      var n := 0;
      while n < |aas|
        invariant n <= |aas| && MeetOfFirst(aas, call, n, b)
      {
        NextMeet(aas, call, n, b);
        b := Meet(b, aas[n].behavior(call));
        n := n + 1;
        if b == DOES_NOT_ACCESS_MEMORY {
          BottomIsMeet(aas, call, n, b);
          return;
        }
      }
    }

    method DescribeCall(call: Call) returns (b: Behavior)
      ensures DescribedBy(aas, call, b)
    {
      b := GetModRefBehavior(call);
      BehaviorBits(b);
    }

    // ---- a call and a location ----

    /** The analyses' own answers. */
    method AskCallLocation(call: Call, loc: Location) returns (r: ModRefInfo)
      ensures IsModSet(r) <==> forall k :: 0 <= k < |aas| ==> IsModSet(aas[k].callLoc(call, loc))
      ensures IsRefSet(r) <==> forall k :: 0 <= k < |aas| ==> IsRefSet(aas[k].callLoc(call, loc))
    {
      r := MOD_REF;
      ConstantBits();
      var n := 0;
      while n < |aas|
        invariant n <= |aas|
        invariant IsModSet(r) <==> forall k :: 0 <= k < n ==> IsModSet(aas[k].callLoc(call, loc))
        invariant IsRefSet(r) <==> forall k :: 0 <= k < n ==> IsRefSet(aas[k].callLoc(call, loc))
      {
        IntersectBits(r, aas[n].callLoc(call, loc));
        r := IntersectModRef(r, aas[n].callLoc(call, loc));
        n := n + 1;
        ClearBits(r);
        if IsNoModRef(r) {
          return NO_MOD_REF;
        }
      }
    }

    /** What the arguments that may reach the location may do to it; `must` says
        whether all of them must alias it. */
    method ArgsMask(call: Call, loc: Location) returns (mask: ModRefInfo, must: bool)
      ensures IsModSet(mask) <==> exists i :: 0 <= i < |call.args| && Reaches(aas, call, loc, i) && ArgMod(aas, call, i)
      ensures IsRefSet(mask) <==> exists i :: 0 <= i < |call.args| && Reaches(aas, call, loc, i) && ArgRef(aas, call, i)
      ensures must <==> AllMust(aas, call, loc)
    {
      mask, must := NO_MOD_REF, true;
      ConstantBits();
      var n := 0;
      while n < |call.args|
        invariant n <= |call.args|
        invariant IsModSet(mask) <==> exists i :: 0 <= i < n && Reaches(aas, call, loc, i) && ArgMod(aas, call, i)
        invariant IsRefSet(mask) <==> exists i :: 0 <= i < n && Reaches(aas, call, loc, i) && ArgRef(aas, call, i)
        invariant must <==> forall i :: 0 <= i < n && call.args[i].pointer ==>
                    FirstAnswer(aas, call.args[i].loc, loc) == MustAlias
      {
        if call.args[n].pointer {
          var argAlias := Alias(call.args[n].loc, loc);
          if argAlias != NoAlias {
            assert Reaches(aas, call, loc, n);
            var argMask := GetArgModRefInfo(call, n);
            UnionBits(mask, argMask);
            mask := UnionModRef(mask, argMask);
          }
          must := must && argAlias == MustAlias;
        }
        n := n + 1;
      }
    }

    /** A call that only reads does not modify; one that does not read, but writes, does not reference. */
    static method Restricted(r: ModRefInfo, b: Behavior) returns (r': ModRefInfo)
      ensures IsModSet(r') <==> IsModSet(r) && MayWrite(b)
      ensures IsRefSet(r') <==> IsRefSet(r) && (MayRead(b) || !MayWrite(b))
    {
      r' := r;
      ClearBits(r);
      BehaviorBits(b);
      if OnlyReadsMemory(b) {
        r' := ClearMod(r);
      } else if DoesNotReadMemory(b) {
        r' := ClearRef(r);
      }
    }

    /** Nothing but what the arguments may do to the location is left. */
    method WithinArguments(call: Call, loc: Location, mrb: Behavior, result: ModRefInfo) returns (r: ModRefInfo)
      ensures IsModSet(r) <==>
                IsModSet(result) && DoesAccessArgPointees(mrb) && exists i ::
                    0 <= i < |call.args| && Reaches(aas, call, loc, i) && ArgMod(aas, call, i)
      ensures IsRefSet(r) <==>
                IsRefSet(result) && DoesAccessArgPointees(mrb) && exists i ::
                    0 <= i < |call.args| && Reaches(aas, call, loc, i) && ArgRef(aas, call, i)
      ensures IsModSet(r) || IsRefSet(r) ==> (IsMustSet(r) <==> AllMust(aas, call, loc))
    {
      var isMust, mask := true, NO_MOD_REF;
      ConstantBits();
      if DoesAccessArgPointees(mrb) {
        mask, isMust := ArgsMask(call, loc);
      }
      ClearBits(mask);
      if IsNoModRef(mask) {
        return NO_MOD_REF;
      }
      IntersectBits(result, mask);
      r := IntersectModRef(result, mask);
      ClearBits(r);
      r := if isMust then SetMust(r) else ClearMust(r);
    }

    /** The Mod and Ref bits are exactly what the analyses, the behaviour of the call, its
        arguments and constant memory leave of them. */
    method GetModRefInfo(call: Call, loc: Location) returns (r: ModRefInfo)
      ensures IsModSet(r) <==> LocMod(aas, call, loc)
      ensures IsRefSet(r) <==> LocRef(aas, call, loc)
      ensures (IsModSet(r) <==> MayModify(aas, call, loc)) && (IsRefSet(r) <==> MayReference(aas, call, loc))
      ensures (exists k :: 0 <= k < |aas| && !MayUseOther(aas[k].behavior(call))) && AllApart(aas, call, loc) ==>
                !IsModSet(r) && !IsRefSet(r)
      ensures (exists k :: 0 <= k < |aas| && aas[k].constant(loc, false)) ==> !IsModSet(r)
      ensures (exists k :: 0 <= k < |aas| && !MayUseOther(aas[k].behavior(call))) && (IsModSet(r) || IsRefSet(r)) ==>
                (IsMustSet(r) <==> SurelyThere(aas, call, loc))
    {
      LocationAnswers(aas, call, loc);
      MustAnswers(aas, call, loc);
      ApartLeavesNothing(aas, call, loc);
      r := AskCallLocation(call, loc);
      ClearBits(r);
      ConstantBits();
      if IsNoModRef(r) {
        return NO_MOD_REF;
      }
      var mrb := DescribeCall(call);
      if mrb == DOES_NOT_ACCESS_MEMORY || mrb == ONLY_ACCESSES_INACCESSIBLE_MEM {
        return NO_MOD_REF;
      }
      r := Restricted(r, mrb);
      if OnlyAccessesArgPointees(mrb) || OnlyAccessesInaccessibleOrArgMem(mrb) {
        r := WithinArguments(call, loc, mrb, r);
        ClearBits(r);
        if IsNoModRef(r) {
          return NO_MOD_REF;
        }
      }
      ClearBits(r);
      if IsModSet(r) {
        var constant := PointsToConstantMemory(loc, false);
        if constant {
          r := ClearMod(r);
        }
      }
    }

    // ---- two calls ----

    method AskCallCall(call1: Call, call2: Call) returns (r: ModRefInfo)
      ensures IsModSet(r) <==> forall k :: 0 <= k < |aas| ==> IsModSet(aas[k].callCall(call1, call2))
      ensures IsRefSet(r) <==> forall k :: 0 <= k < |aas| ==> IsRefSet(aas[k].callCall(call1, call2))
    {
      r := MOD_REF;
      ConstantBits();
      var n := 0;
      while n < |aas|
        invariant n <= |aas|
        invariant IsModSet(r) <==> forall k :: 0 <= k < n ==> IsModSet(aas[k].callCall(call1, call2))
        invariant IsRefSet(r) <==> forall k :: 0 <= k < n ==> IsRefSet(aas[k].callCall(call1, call2))
      {
        IntersectBits(r, aas[n].callCall(call1, call2));
        r := IntersectModRef(r, aas[n].callCall(call1, call2));
        n := n + 1;
        ClearBits(r);
        if IsNoModRef(r) {
          return NO_MOD_REF;
        }
      }
    }

    /** How the first call depends on what the second does through its argument `i`. */
    method Dependence2(call1: Call, call2: Call, i: nat) returns (mask: ModRefInfo, must: bool)
      requires i < |call2.args| && call2.args[i].pointer
      ensures IsModSet(mask) <==> ModThrough2(aas, call1, call2, i)
      ensures IsRefSet(mask) <==> RefThrough2(aas, call1, call2, i)
    {
      var argModRefC2 := GetArgModRefInfo(call2, i);
      mask := NO_MOD_REF;
      ConstantBits();
      if IsModSet(argModRefC2) {
        mask := MOD_REF;
      } else if IsRefSet(argModRefC2) {
        mask := MOD;
      }
      var modRefC1 := GetModRefInfo(call1, call2.args[i].loc);
      IntersectBits(mask, modRefC1);
      mask := IntersectModRef(mask, modRefC1);
      must := IsMustSet(modRefC1);
    }

    method Accumulate2(call1: Call, call2: Call, result: ModRefInfo) returns (r: ModRefInfo)
      ensures IsModSet(r) <==> IsModSet(result) && exists i ::
                0 <= i < |call2.args| && ModThrough2(aas, call1, call2, i)
      ensures IsRefSet(r) <==> IsRefSet(result) && exists i ::
                0 <= i < |call2.args| && RefThrough2(aas, call1, call2, i)
    {
      r := NO_MOD_REF;
      ConstantBits();
      var isMust, n := true, 0;
      while n < |call2.args|
        invariant n <= |call2.args|
        invariant IsModSet(r) <==> IsModSet(result) && exists i :: 0 <= i < n && ModThrough2(aas, call1, call2, i)
        invariant IsRefSet(r) <==> IsRefSet(result) && exists i :: 0 <= i < n && RefThrough2(aas, call1, call2, i)
      {
        if call2.args[n].pointer {
          var argMask, must := Dependence2(call1, call2, n);
          isMust := isMust && must;
          UnionBits(r, argMask);
          IntersectBits(UnionModRef(r, argMask), result);
          r := IntersectModRef(UnionModRef(r, argMask), result);
          if r == result {
            if n + 1 != |call2.args| {
              isMust := false;
            }
            break;
          }
        }
        n := n + 1;
      }
      ClearBits(r);
      if IsNoModRef(r) {
        return NO_MOD_REF;
      }
      r := if isMust then SetMust(r) else ClearMust(r);
    }

    /** What the first call does through its argument `i`, and whether that matters to the second. */
    method Dependence1(call1: Call, call2: Call, i: nat) returns (argModRefC1: ModRefInfo, matters: bool, must: bool)
      requires i < |call1.args| && call1.args[i].pointer
      ensures IsModSet(argModRefC1) <==> ArgMod(aas, call1, i)
      ensures IsRefSet(argModRefC1) <==> ArgRef(aas, call1, i)
      ensures matters <==> Matters1(aas, call1, call2, i)
    {
      argModRefC1 := GetArgModRefInfo(call1, i);
      var modRefC2 := GetModRefInfo(call2, call1.args[i].loc);
      ClearBits(modRefC2);
      matters := (IsModSet(argModRefC1) && IsModOrRefSet(modRefC2)) || (IsRefSet(argModRefC1) && IsModSet(modRefC2));
      must := IsMustSet(modRefC2);
    }

    method Accumulate1(call1: Call, call2: Call, result: ModRefInfo) returns (r: ModRefInfo)
      ensures IsModSet(r) <==> IsModSet(result) && exists i ::
                0 <= i < |call1.args| && Matters1(aas, call1, call2, i) && ArgMod(aas, call1, i)
      ensures IsRefSet(r) <==> IsRefSet(result) && exists i ::
                0 <= i < |call1.args| && Matters1(aas, call1, call2, i) && ArgRef(aas, call1, i)
    {
      r := NO_MOD_REF;
      ConstantBits();
      var isMust, n := true, 0;
      while n < |call1.args|
        invariant n <= |call1.args|
        invariant IsModSet(r) <==>
                    IsModSet(result) && exists i ::
                        0 <= i < n && Matters1(aas, call1, call2, i) && ArgMod(aas, call1, i)
        invariant IsRefSet(r) <==>
                    IsRefSet(result) && exists i ::
                        0 <= i < n && Matters1(aas, call1, call2, i) && ArgRef(aas, call1, i)
      {
        if call1.args[n].pointer {
          var argModRefC1, matters, must := Dependence1(call1, call2, n);
          if matters {
            UnionBits(r, argModRefC1);
            IntersectBits(UnionModRef(r, argModRefC1), result);
            r := IntersectModRef(UnionModRef(r, argModRefC1), result);
          }
          isMust := isMust && must;
          if r == result {
            if n + 1 != |call1.args| {
              isMust := false;
            }
            break;
          }
        }
        n := n + 1;
      }
      ClearBits(r);
      if IsNoModRef(r) {
        return NO_MOD_REF;
      }
      r := if isMust then SetMust(r) else ClearMust(r);
    }

    method ByArguments(call1: Call, call2: Call, call1B: Behavior, call2B: Behavior, result: ModRefInfo)
      returns (r: ModRefInfo)
      requires DescribedBy(aas, call1, call1B) && DescribedBy(aas, call2, call2B)
      ensures IsModSet(r) <==> IsModSet(result) && ModByArguments(aas, call1, call2)
      ensures IsRefSet(r) <==> IsRefSet(result) && RefByArguments(aas, call1, call2)
    {
      ConstantBits();
      if OnlyAccessesArgPointees(call2B) {
        if !DoesAccessArgPointees(call2B) {
          return NO_MOD_REF;
        }
        r := Accumulate2(call1, call2, result);
        return;
      }
      if OnlyAccessesArgPointees(call1B) {
        if !DoesAccessArgPointees(call1B) {
          return NO_MOD_REF;
        }
        r := Accumulate1(call1, call2, result);
        return;
      }
      return result;
    }

    /** Calls of which one accesses nothing, or that both only read, do not interact. */
    method Interact(call1: Call, call2: Call) returns (interact: bool, call1B: Behavior, call2B: Behavior)
      ensures interact <==> !NoInterplay(aas, call1, call2)
      ensures interact ==> DescribedBy(aas, call1, call1B) && DescribedBy(aas, call2, call2B)
    {
      interact := false;
      call2B := DOES_NOT_ACCESS_MEMORY;
      call1B := DescribeCall(call1);
      if call1B != DOES_NOT_ACCESS_MEMORY {
        call2B := DescribeCall(call2);
        interact := call2B != DOES_NOT_ACCESS_MEMORY && !(OnlyReadsMemory(call1B) && OnlyReadsMemory(call2B));
      }
    }

    /** The Mod and Ref bits are exactly what the analyses, the behaviours and the arguments of
        both calls leave of them, wherever the accumulation stops. */
    method GetCallModRefInfo(call1: Call, call2: Call) returns (r: ModRefInfo)
      ensures IsModSet(r) <==> CallMod(aas, call1, call2)
      ensures IsRefSet(r) <==> CallRef(aas, call1, call2)
      ensures (IsModSet(r) <==> MayClobber(aas, call1, call2)) && (IsRefSet(r) <==> MayObserve(aas, call1, call2))
    {
      CallAnswers(aas, call1, call2);
      var result := AskCallCall(call1, call2);
      ClearBits(result);
      ConstantBits();
      if IsNoModRef(result) {
        return NO_MOD_REF;
      }
      var interact, call1B, call2B := Interact(call1, call2);
      if !interact {
        return NO_MOD_REF;
      }
      result := Restricted(result, call1B);
      r := ByArguments(call1, call2, call1B, call2B, result);
    }

    // ---- soundness ----

    /** With sound analyses, no write or read of the location that the call can make is dropped. */
    method CheckedCallLocation(ghost w: World, call: Call, loc: Location) returns (r: ModRefInfo)
      requires Sound(w, aas)
      ensures Writes(w, call, loc) ==> IsModSet(r)
      ensures Reads(w, call, loc) ==> IsRefSet(r)
      ensures forall k :: 0 <= k < |aas| ==> (IsModSet(r) ==> IsModSet(aas[k].callLoc(call, loc)))
      ensures forall k :: 0 <= k < |aas| ==> (IsRefSet(r) ==> IsRefSet(aas[k].callLoc(call, loc)))
    {
      CallLocationSound(w, aas, call, loc);
      r := GetModRefInfo(call, loc);
    }

    /** With sound analyses, no dependence between two calls is dropped. */
    method CheckedCallCall(ghost w: World, call1: Call, call2: Call) returns (r: ModRefInfo)
      requires Sound(w, aas)
      ensures Clobbers(w, call1, call2) ==> IsModSet(r)
      ensures Observes(w, call1, call2) ==> IsRefSet(r)
      ensures forall k :: 0 <= k < |aas| ==> (IsModSet(r) ==> IsModSet(aas[k].callCall(call1, call2)))
      ensures forall k :: 0 <= k < |aas| ==> (IsRefSet(r) ==> IsRefSet(aas[k].callCall(call1, call2)))
    {
      CallCallSound(w, aas, call1, call2);
      r := GetCallModRefInfo(call1, call2);
    }
  }
}
