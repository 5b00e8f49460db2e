/** What calls do to memory, what it means for an analysis to be right about it, and
    what the combined answers are. */
module AaSoundness {
  import opened AliasAnswers
  import opened AaLattice

  type Cell = nat

  /** Memory locations are numbered; what they cover is up to the world. */
  type Location = nat

  datatype Arg = Arg(pointer: bool, loc: Location)

  datatype Call = Call(id: nat, args: seq<Arg>)

  /** How an access comes about: through an argument, to memory that the program cannot reach, or otherwise. */
  datatype Via = Argument(index: nat) | Inaccessible | Otherwise

  datatype Effect = Effect(write: bool, cell: Cell, via: Via)

  /** The cells of a location, the constant and the inaccessible cells, and all
      accesses that a call can make. Loads of constant cells do not count as accesses. */
  datatype World = World(cells: Location -> iset<Cell>, constant: iset<Cell>, hidden: iset<Cell>,
                         does: Call -> iset<Effect>)

  datatype Analysis = Analysis(alias: (Location, Location) -> AliasResult, constant: (Location, bool) -> bool,
                               argModRef: (Call, nat) -> ModRefInfo, callLoc: (Call, Location) -> ModRefInfo,
                               callCall: (Call, Call) -> ModRefInfo, behavior: Call -> Behavior)

  // ---- the semantics ----

  ghost predicate EffectOk(w: World, call: Call, e: Effect) {
    && (e.write ==> e.cell !in w.constant)
    && match e.via
       case Argument(i) => i < |call.args| && call.args[i].pointer && e.cell in w.cells(call.args[i].loc)
       case Inaccessible => e.cell in w.hidden
       case Otherwise => true
  }

  ghost predicate WorldOk(w: World) {
    && (forall call, e :: e in w.does(call) ==> EffectOk(w, call, e))
    && (forall loc, c :: c in w.cells(loc) ==> c !in w.hidden)
  }

  /** The call can write a cell of the location. */
  ghost predicate Writes(w: World, call: Call, loc: Location) {
    exists e :: e in w.does(call) && e.write && e.cell in w.cells(loc)
  }

  ghost predicate Reads(w: World, call: Call, loc: Location) {
    exists e :: e in w.does(call) && !e.write && e.cell in w.cells(loc)
  }

  /** The first call can write what the second can read or write. */
  ghost predicate Clobbers(w: World, call1: Call, call2: Call) {
    exists e, f :: e in w.does(call1) && e.write && f in w.does(call2) && f.cell == e.cell
  }

  /** The first call can read what the second can write. */
  ghost predicate Observes(w: World, call1: Call, call2: Call) {
    exists e, f :: e in w.does(call1) && !e.write && f in w.does(call2) && f.write && f.cell == e.cell
  }

  // ---- a sound analysis ----

  ghost predicate AliasSound(w: World, aa: Analysis) {
    && (forall l, m, c :: aa.alias(l, m) == NoAlias ==> !(c in w.cells(l) && c in w.cells(m)))
    && (forall l, c :: aa.constant(l, false) && c in w.cells(l) ==> c in w.constant)
  }

  ghost predicate CallSound(w: World, aa: Analysis) {
    && (forall call, loc :: (Writes(w, call, loc) ==> IsModSet(aa.callLoc(call, loc))) &&
         (Reads(w, call, loc) ==> IsRefSet(aa.callLoc(call, loc))))
    && (forall call1, call2 :: (Clobbers(w, call1, call2) ==> IsModSet(aa.callCall(call1, call2)))
                            && (Observes(w, call1, call2) ==> IsRefSet(aa.callCall(call1, call2))))
  }

  ghost predicate ArgSound(w: World, aa: Analysis) {
    forall call, e :: e in w.does(call) && e.via.Argument? ==>
      if e.write then IsModSet(aa.argModRef(call, e.via.index)) else IsRefSet(aa.argModRef(call, e.via.index))
  }

  ghost predicate BehaviorSound(w: World, aa: Analysis) {
    forall call, e :: e in w.does(call) ==> BehaviorCovers(aa.behavior(call), e)
  }

  predicate BehaviorCovers(b: Behavior, e: Effect) {
    && (if e.write then MayWrite(b) else MayRead(b))
    && match e.via
       case Argument(_) => MayUseArguments(b)
       case Inaccessible => MayUseInaccessible(b)
       case Otherwise => MayUseOther(b)
  }

  ghost predicate Sound(w: World, aas: seq<Analysis>) {
    WorldOk(w) && forall aa :: aa in aas ==>
        AliasSound(w, aa) && CallSound(w, aa) && ArgSound(w, aa) && BehaviorSound(w, aa)
  }

  // ---- the combined answers ----

  /** The first answer other than MayAlias. */
  function FirstAnswer(aas: seq<Analysis>, l: Location, m: Location): AliasResult {
    if aas == [] then MayAlias
    else if aas[0].alias(l, m) != MayAlias then aas[0].alias(l, m)
    else FirstAnswer(aas[1..], l, m)
  }

  predicate IsConstant(aas: seq<Analysis>, loc: Location, orLocal: bool) {
    exists k :: 0 <= k < |aas| && aas[k].constant(loc, orLocal)
  }

  predicate ArgMod(aas: seq<Analysis>, call: Call, i: nat) {
    forall k :: 0 <= k < |aas| ==> IsModSet(aas[k].argModRef(call, i))
  }

  predicate ArgRef(aas: seq<Analysis>, call: Call, i: nat) {
    forall k :: 0 <= k < |aas| ==> IsRefSet(aas[k].argModRef(call, i))
  }

  predicate AllWrite(aas: seq<Analysis>, call: Call) {
    forall k :: 0 <= k < |aas| ==> MayWrite(aas[k].behavior(call))
  }

  predicate AllRead(aas: seq<Analysis>, call: Call) {
    forall k :: 0 <= k < |aas| ==> MayRead(aas[k].behavior(call))
  }

  predicate AllUseArguments(aas: seq<Analysis>, call: Call) {
    forall k :: 0 <= k < |aas| ==> MayUseArguments(aas[k].behavior(call))
  }

  predicate AllUseInaccessible(aas: seq<Analysis>, call: Call) {
    forall k :: 0 <= k < |aas| ==> MayUseInaccessible(aas[k].behavior(call))
  }

  predicate AllUseOther(aas: seq<Analysis>, call: Call) {
    forall k :: 0 <= k < |aas| ==> MayUseOther(aas[k].behavior(call))
  }

  predicate UsesArguments(aas: seq<Analysis>, call: Call) {
    (AllWrite(aas, call) || AllRead(aas, call)) && AllUseArguments(aas, call)
  }

  /** An argument through which the call may reach the location. */
  predicate Reaches(aas: seq<Analysis>, call: Call, loc: Location, i: nat) {
    i < |call.args| && call.args[i].pointer && FirstAnswer(aas, call.args[i].loc, loc) != NoAlias
  }

  /** Every pointer argument must alias the location. */
  predicate AllMust(aas: seq<Analysis>, call: Call, loc: Location) {
    forall i :: 0 <= i < |call.args| && call.args[i].pointer ==> FirstAnswer(aas, call.args[i].loc, loc) == MustAlias
  }

  /** Memory other than what arguments point to or what is inaccessible may be used; or else it is an argument that
      matters. */
  predicate LocMod(aas: seq<Analysis>, call: Call, loc: Location) {
    && (forall k :: 0 <= k < |aas| ==> IsModSet(aas[k].callLoc(call, loc)))
    && AllWrite(aas, call)
    && (AllUseOther(aas, call) ||
        (UsesArguments(aas, call) && exists i ::
            0 <= i < |call.args| && Reaches(aas, call, loc, i) && ArgMod(aas, call, i)))
    && !IsConstant(aas, loc, false)
  }

  /** The code leaves the Ref bit alone if the behaviour allows neither reads nor writes. */
  predicate LocRef(aas: seq<Analysis>, call: Call, loc: Location) {
    && (forall k :: 0 <= k < |aas| ==> IsRefSet(aas[k].callLoc(call, loc)))
    && (AllRead(aas, call) || !AllWrite(aas, call))
    && (AllUseOther(aas, call) ||
        (UsesArguments(aas, call) && exists i ::
            0 <= i < |call.args| && Reaches(aas, call, loc, i) && ArgRef(aas, call, i)))
  }

  predicate NoAccess(aas: seq<Analysis>, call: Call) {
    && !AllWrite(aas, call) && !AllRead(aas, call) && !AllUseArguments(aas, call) && !AllUseInaccessible(aas, call)
    && !AllUseOther(aas, call)
  }

  /** Neither call does anything that the other one could notice, going by their behaviours. */
  predicate NoInterplay(aas: seq<Analysis>, call1: Call, call2: Call) {
    NoAccess(aas, call1) || NoAccess(aas, call2) || (!AllWrite(aas, call1) && !AllWrite(aas, call2))
  }

  predicate OnlyArguments(aas: seq<Analysis>, call: Call) {
    !AllUseOther(aas, call) && !AllUseInaccessible(aas, call)
  }

  /** Through its argument `i`, the second call touches what the first can write. */
  predicate ModThrough2(aas: seq<Analysis>, call1: Call, call2: Call, i: nat) {
    && i < |call2.args| && call2.args[i].pointer && (ArgMod(aas, call2, i) || ArgRef(aas, call2, i))
    && LocMod(aas, call1, call2.args[i].loc)
  }

  /** Through its argument `i`, the second call writes what the first can read. */
  predicate RefThrough2(aas: seq<Analysis>, call1: Call, call2: Call, i: nat) {
    i < |call2.args| && call2.args[i].pointer && ArgMod(aas, call2, i) && LocRef(aas, call1, call2.args[i].loc)
  }

  /** What the first call does through its argument `i` matters to the second. */
  predicate Matters1(aas: seq<Analysis>, call1: Call, call2: Call, i: nat) {
    && i < |call1.args| && call1.args[i].pointer
    && var loc := call1.args[i].loc;
       || (ArgMod(aas, call1, i) && (LocMod(aas, call2, loc) || LocRef(aas, call2, loc)))
       || (ArgRef(aas, call1, i) && LocMod(aas, call2, loc))
  }

  /** If one of the calls uses its arguments only, one of them must matter. */
  predicate ModByArguments(aas: seq<Analysis>, call1: Call, call2: Call) {
    if OnlyArguments(aas, call2) then
      UsesArguments(aas, call2) && exists i :: 0 <= i < |call2.args| && ModThrough2(aas, call1, call2, i)
    else if OnlyArguments(aas, call1) then
      UsesArguments(aas, call1) && exists i ::
          0 <= i < |call1.args| && Matters1(aas, call1, call2, i) && ArgMod(aas, call1, i)
    else true
  }

  predicate RefByArguments(aas: seq<Analysis>, call1: Call, call2: Call) {
    if OnlyArguments(aas, call2) then
      UsesArguments(aas, call2) && exists i :: 0 <= i < |call2.args| && RefThrough2(aas, call1, call2, i)
    else if OnlyArguments(aas, call1) then
      UsesArguments(aas, call1) && exists i ::
          0 <= i < |call1.args| && Matters1(aas, call1, call2, i) && ArgRef(aas, call1, i)
    else true
  }

  predicate CallMod(aas: seq<Analysis>, call1: Call, call2: Call) {
    && (forall k :: 0 <= k < |aas| ==> IsModSet(aas[k].callCall(call1, call2)))
    && !NoInterplay(aas, call1, call2) && AllWrite(aas, call1) && ModByArguments(aas, call1, call2)
  }

  predicate CallRef(aas: seq<Analysis>, call1: Call, call2: Call) {
    && (forall k :: 0 <= k < |aas| ==> IsRefSet(aas[k].callCall(call1, call2)))
    && !NoInterplay(aas, call1, call2) && (AllRead(aas, call1) || !AllWrite(aas, call1)) &&
         RefByArguments(aas, call1, call2)
  }

  /** What a behaviour says about a call that all analyses together describe by it. */
  ghost predicate DescribedBy(aas: seq<Analysis>, call: Call, b: Behavior) {
    && (MayWrite(b) <==> AllWrite(aas, call)) && (MayRead(b) <==> AllRead(aas, call))
    && (OnlyReadsMemory(b) <==> !AllWrite(aas, call))
    && (b == DOES_NOT_ACCESS_MEMORY <==> NoAccess(aas, call))
    && (OnlyAccessesArgPointees(b) <==> OnlyArguments(aas, call))
    && (DoesAccessArgPointees(b) <==> UsesArguments(aas, call))
    && (OnlyAccessesInaccessibleOrArgMem(b) <==> !AllUseOther(aas, call))
    && (b == ONLY_ACCESSES_INACCESSIBLE_MEM ==> !AllUseOther(aas, call) && !AllUseArguments(aas, call))
  }

  /** The behaviours of the first `n` analyses, taken together. */
  ghost predicate MeetOfFirst(aas: seq<Analysis>, call: Call, n: nat, b: Behavior)
    requires n <= |aas|
  {
    && (MayWrite(b) <==> forall k :: 0 <= k < n ==> MayWrite(aas[k].behavior(call)))
    && (MayRead(b) <==> forall k :: 0 <= k < n ==> MayRead(aas[k].behavior(call)))
    && (MayUseArguments(b) <==> forall k :: 0 <= k < n ==> MayUseArguments(aas[k].behavior(call)))
    && (MayUseInaccessible(b) <==> forall k :: 0 <= k < n ==> MayUseInaccessible(aas[k].behavior(call)))
    && (MayUseOther(b) <==> forall k :: 0 <= k < n ==> MayUseOther(aas[k].behavior(call)))
  }

  lemma {:induction false} NothingMet(aas: seq<Analysis>, call: Call)
    ensures MeetOfFirst(aas, call, 0, UNKNOWN_BEHAVIOR)
  {
  }

  lemma {:induction false} NextMeet(aas: seq<Analysis>, call: Call, n: nat, b: Behavior)
    requires n < |aas| && MeetOfFirst(aas, call, n, b)
    ensures MeetOfFirst(aas, call, n + 1, Meet(b, aas[n].behavior(call)))
  {
    BehaviorMeet(b, aas[n].behavior(call));
  }

  /** Nothing is left to take away from a behaviour without any access. */
  lemma {:induction false} BottomIsMeet(aas: seq<Analysis>, call: Call, n: nat, b: Behavior)
    requires n <= |aas| && MeetOfFirst(aas, call, n, b) && b == DOES_NOT_ACCESS_MEMORY
    ensures MeetOfFirst(aas, call, |aas|, b)
  {
    BehaviorBits(b);
  }

  // ---- the combined answers are sound ----

  lemma {:induction false} FirstAnswerSound(w: World, aas: seq<Analysis>, l: Location, m: Location, c: Cell)
    requires forall aa :: aa in aas ==> AliasSound(w, aa)
    requires c in w.cells(l) && c in w.cells(m)
    ensures FirstAnswer(aas, l, m) != NoAlias
  {
    if aas != [] {
      assert AliasSound(w, aas[0]);
      FirstAnswerSound(w, aas[1..], l, m, c);
    }
  }

  lemma {:induction false} BehaviorsCover(w: World, aas: seq<Analysis>, call: Call, e: Effect)
    requires Sound(w, aas) && e in w.does(call)
    ensures if e.write then AllWrite(aas, call) else AllRead(aas, call)
    ensures match e.via
            case Argument(_) => AllUseArguments(aas, call)
            case Inaccessible => AllUseInaccessible(aas, call)
            case Otherwise => AllUseOther(aas, call)
  {
    forall k | 0 <= k < |aas| ensures BehaviorCovers(aas[k].behavior(call), e) {
      assert aas[k] in aas;
    }
  }

  lemma {:induction false} ArgsCover(w: World, aas: seq<Analysis>, call: Call, e: Effect)
    requires Sound(w, aas) && e in w.does(call) && e.via.Argument?
    ensures if e.write then ArgMod(aas, call, e.via.index) else ArgRef(aas, call, e.via.index)
  {
    forall k | 0 <= k < |aas|
      ensures if e.write then IsModSet(aas[k].argModRef(call, e.via.index))
                else IsRefSet(aas[k].argModRef(call, e.via.index))
    {
      assert ArgSound(w, aas[k]);
    }
  }

  /** An access to a location that is not made otherwise is made through an argument that reaches it. */
  lemma {:induction false} AccessReaches(w: World, aas: seq<Analysis>, call: Call, loc: Location, e: Effect)
    requires Sound(w, aas) && e in w.does(call) && e.cell in w.cells(loc) && !AllUseOther(aas, call)
    ensures e.via.Argument? && UsesArguments(aas, call) && Reaches(aas, call, loc, e.via.index)
  {
    assert EffectOk(w, call, e);
    BehaviorsCover(w, aas, call, e);
    if e.via.Argument? {
      FirstAnswerSound(w, aas, call.args[e.via.index].loc, loc, e.cell);
    }
  }

  /** Call against location: no write and no read that the call can make is dropped. */
  lemma {:induction false} CallLocationSound(w: World, aas: seq<Analysis>, call: Call, loc: Location)
    requires Sound(w, aas)
    ensures Writes(w, call, loc) ==> LocMod(aas, call, loc)
    ensures Reads(w, call, loc) ==> LocRef(aas, call, loc)
  {
    if Writes(w, call, loc) {
      var e :| e in w.does(call) && e.write && e.cell in w.cells(loc);
      LocModSound(w, aas, call, loc, e);
    }
    if Reads(w, call, loc) {
      var e :| e in w.does(call) && !e.write && e.cell in w.cells(loc);
      LocRefSound(w, aas, call, loc, e);
    }
  }

  lemma {:induction false} LocModSound(w: World, aas: seq<Analysis>, call: Call, loc: Location, e: Effect)
    requires Sound(w, aas) && e in w.does(call) && e.write && e.cell in w.cells(loc)
    ensures LocMod(aas, call, loc)
  {
    BehaviorsCover(w, aas, call, e);
    forall k | 0 <= k < |aas| ensures IsModSet(aas[k].callLoc(call, loc)) && !aas[k].constant(loc, false) {
      assert CallSound(w, aas[k]) && AliasSound(w, aas[k]);
      assert Writes(w, call, loc);
      assert EffectOk(w, call, e);
    }
    if !AllUseOther(aas, call) {
      AccessReaches(w, aas, call, loc, e);
      ArgsCover(w, aas, call, e);
    }
  }

  lemma {:induction false} LocRefSound(w: World, aas: seq<Analysis>, call: Call, loc: Location, e: Effect)
    requires Sound(w, aas) && e in w.does(call) && !e.write && e.cell in w.cells(loc)
    ensures LocRef(aas, call, loc)
  {
    BehaviorsCover(w, aas, call, e);
    forall k | 0 <= k < |aas| ensures IsRefSet(aas[k].callLoc(call, loc)) {
      assert CallSound(w, aas[k]);
      assert Reads(w, call, loc);
    }
    if !AllUseOther(aas, call) {
      AccessReaches(w, aas, call, loc, e);
      ArgsCover(w, aas, call, e);
    }
  }

  /** A call that uses arguments only touches a cell through an argument that covers it. */
  lemma {:induction false} ThroughArgument(w: World, aas: seq<Analysis>, call: Call, e: Effect)
    requires Sound(w, aas) && e in w.does(call) && OnlyArguments(aas, call)
    ensures e.via.Argument? && e.via.index < |call.args| && call.args[e.via.index].pointer
    ensures e.cell in w.cells(call.args[e.via.index].loc) && UsesArguments(aas, call)
    ensures if e.write then ArgMod(aas, call, e.via.index) else ArgRef(aas, call, e.via.index)
  {
    BehaviorsCover(w, aas, call, e);
    assert EffectOk(w, call, e);
    ArgsCover(w, aas, call, e);
  }

  /** Two calls: no dependence between accesses that they can make is dropped. */
  lemma {:induction false} CallCallSound(w: World, aas: seq<Analysis>, call1: Call, call2: Call)
    requires Sound(w, aas)
    ensures Clobbers(w, call1, call2) ==> CallMod(aas, call1, call2)
    ensures Observes(w, call1, call2) ==> CallRef(aas, call1, call2)
  {
    if Clobbers(w, call1, call2) {
      var e, f :| e in w.does(call1) && e.write && f in w.does(call2) && f.cell == e.cell;
      CallModSound(w, aas, call1, call2, e, f);
    }
    if Observes(w, call1, call2) {
      var e, f :| e in w.does(call1) && !e.write && f in w.does(call2) && f.write && f.cell == e.cell;
      CallRefSound(w, aas, call1, call2, e, f);
    }
  }

  lemma {:induction false} CallModSound(w: World, aas: seq<Analysis>, call1: Call, call2: Call, e: Effect, f: Effect)
    requires Sound(w, aas) && e in w.does(call1) && e.write && f in w.does(call2) && f.cell == e.cell
    ensures CallMod(aas, call1, call2)
  {
    BehaviorsCover(w, aas, call1, e);
    BehaviorsCover(w, aas, call2, f);
    forall k | 0 <= k < |aas| ensures IsModSet(aas[k].callCall(call1, call2)) {
      assert CallSound(w, aas[k]);
      assert Clobbers(w, call1, call2);
    }
    if OnlyArguments(aas, call2) {
      ThroughArgument(w, aas, call2, f);
      LocModSound(w, aas, call1, call2.args[f.via.index].loc, e);
      assert ModThrough2(aas, call1, call2, f.via.index);
    } else if OnlyArguments(aas, call1) {
      ThroughArgument(w, aas, call1, e);
      Touched(w, aas, call2, call1.args[e.via.index].loc, f);
      assert Matters1(aas, call1, call2, e.via.index);
    }
  }

  lemma {:induction false} Touched(w: World, aas: seq<Analysis>, call: Call, loc: Location, f: Effect)
    requires Sound(w, aas) && f in w.does(call) && f.cell in w.cells(loc)
    ensures if f.write then LocMod(aas, call, loc) else LocRef(aas, call, loc)
  {
    if f.write {
      LocModSound(w, aas, call, loc, f);
    } else {
      LocRefSound(w, aas, call, loc, f);
    }
  }

  lemma {:induction false} CallRefSound(w: World, aas: seq<Analysis>, call1: Call, call2: Call, e: Effect, f: Effect)
    requires Sound(w, aas) && e in w.does(call1) && !e.write && f in w.does(call2) && f.write && f.cell == e.cell
    ensures CallRef(aas, call1, call2)
  {
    BehaviorsCover(w, aas, call1, e);
    BehaviorsCover(w, aas, call2, f);
    forall k | 0 <= k < |aas| ensures IsRefSet(aas[k].callCall(call1, call2)) {
      assert CallSound(w, aas[k]);
      assert Observes(w, call1, call2);
    }
    if OnlyArguments(aas, call2) {
      ThroughArgument(w, aas, call2, f);
      LocRefSound(w, aas, call1, call2.args[f.via.index].loc, e);
      assert RefThrough2(aas, call1, call2, f.via.index);
    } else if OnlyArguments(aas, call1) {
      ThroughArgument(w, aas, call1, e);
      LocModSound(w, aas, call2, call1.args[e.via.index].loc, f);
      assert Matters1(aas, call1, call2, e.via.index);
    }
  }

  // ---- the combined answers in terms of the analyses alone ----

  /** The analyses settle how the locations alias: one says so, and those before it leave it open. */
  ghost predicate Settled(aas: seq<Analysis>, l: Location, m: Location, r: AliasResult) {
    exists k :: 0 <= k < |aas| && SettledAt(aas, l, m, r, k)
  }

  ghost predicate SettledAt(aas: seq<Analysis>, l: Location, m: Location, r: AliasResult, k: nat)
    requires k < |aas|
  {
    aas[k].alias(l, m) == r && forall j :: 0 <= j < k ==> aas[j].alias(l, m) == MayAlias
  }

  lemma {:induction false} FirstIsSettled(aas: seq<Analysis>, l: Location, m: Location, r: AliasResult)
    requires r != MayAlias
    ensures FirstAnswer(aas, l, m) == r <==> Settled(aas, l, m, r)
  {
    if aas != [] {
      var rest := aas[1..];
      FirstIsSettled(rest, l, m, r);
      if k :| 0 <= k < |aas| && SettledAt(aas, l, m, r, k) {
        if k > 0 {
          assert SettledAt(rest, l, m, r, k - 1);
        }
      }
      if aas[0].alias(l, m) == MayAlias && Settled(rest, l, m, r) {
        var k :| 0 <= k < |rest| && SettledAt(rest, l, m, r, k);
        assert SettledAt(aas, l, m, r, k + 1);
      }
      if aas[0].alias(l, m) == r {
        assert SettledAt(aas, l, m, r, 0);
      }
    }
  }

  /** All pointer arguments are settled to be where the location is. */
  ghost predicate SurelyThere(aas: seq<Analysis>, call: Call, loc: Location) {
    forall i :: 0 <= i < |call.args| && call.args[i].pointer ==> Settled(aas, call.args[i].loc, loc, MustAlias)
  }

  lemma {:induction false} MustAnswers(aas: seq<Analysis>, call: Call, loc: Location)
    ensures AllMust(aas, call, loc) <==> SurelyThere(aas, call, loc)
  {
    forall i | 0 <= i < |call.args|
      ensures FirstAnswer(aas, call.args[i].loc, loc) == MustAlias <==> Settled(aas, call.args[i].loc, loc, MustAlias)
    {
      FirstIsSettled(aas, call.args[i].loc, loc, MustAlias);
    }
  }

  /** A pointer argument that is not settled to be apart from the location, and that all analyses let the
      call write through. */
  ghost predicate WritesThrough(aas: seq<Analysis>, call: Call, loc: Location, i: nat) {
    && i < |call.args| && call.args[i].pointer && !Settled(aas, call.args[i].loc, loc, NoAlias)
    && forall k :: 0 <= k < |aas| ==> IsModSet(aas[k].argModRef(call, i))
  }

  ghost predicate ReadsThrough(aas: seq<Analysis>, call: Call, loc: Location, i: nat) {
    && i < |call.args| && call.args[i].pointer && !Settled(aas, call.args[i].loc, loc, NoAlias)
    && forall k :: 0 <= k < |aas| ==> IsRefSet(aas[k].argModRef(call, i))
  }

  /** All analyses report Mod and allow writes; if one excludes other memory, none excludes arguments and one of
      these can be written through; and none has the location for constant. */
  ghost predicate MayModify(aas: seq<Analysis>, call: Call, loc: Location) {
    && (forall k :: 0 <= k < |aas| ==> IsModSet(aas[k].callLoc(call, loc)))
    && (forall k :: 0 <= k < |aas| ==> MayWrite(aas[k].behavior(call)))
    && ((exists k :: 0 <= k < |aas| && !MayUseOther(aas[k].behavior(call))) ==>
          && (forall k :: 0 <= k < |aas| ==> MayUseArguments(aas[k].behavior(call)))
          && exists i: nat :: WritesThrough(aas, call, loc, i))
    && !exists k :: 0 <= k < |aas| && aas[k].constant(loc, false)
  }

  /** All analyses report Ref and allow reads, or one excludes writes; if one excludes other memory, the call may
      access memory, none excludes arguments, and one of these can be read through. */
  ghost predicate MayReference(aas: seq<Analysis>, call: Call, loc: Location) {
    && (forall k :: 0 <= k < |aas| ==> IsRefSet(aas[k].callLoc(call, loc)))
    && ((forall k :: 0 <= k < |aas| ==> MayRead(aas[k].behavior(call))) ||
        (exists k :: 0 <= k < |aas| && !MayWrite(aas[k].behavior(call))))
    && ((exists k :: 0 <= k < |aas| && !MayUseOther(aas[k].behavior(call))) ==>
          && MayAccess(aas, call)
          && (forall k :: 0 <= k < |aas| ==> MayUseArguments(aas[k].behavior(call)))
          && exists i: nat :: ReadsThrough(aas, call, loc, i))
  }

  /** All analyses allow writes, or all allow reads. */
  ghost predicate MayAccess(aas: seq<Analysis>, call: Call) {
    || (forall k :: 0 <= k < |aas| ==> MayWrite(aas[k].behavior(call)))
    || (forall k :: 0 <= k < |aas| ==> MayRead(aas[k].behavior(call)))
  }

  lemma {:induction false} LocationAnswers(aas: seq<Analysis>, call: Call, loc: Location)
    ensures LocMod(aas, call, loc) <==> MayModify(aas, call, loc)
    ensures LocRef(aas, call, loc) <==> MayReference(aas, call, loc)
  {
    WriteAnswers(aas, call, loc);
    ReadAnswers(aas, call, loc);
  }

  lemma {:induction false} WriteAnswers(aas: seq<Analysis>, call: Call, loc: Location)
    ensures LocMod(aas, call, loc) <==> MayModify(aas, call, loc)
  {
    forall i: nat | i < |call.args|
      ensures WritesThrough(aas, call, loc, i) <==> Reaches(aas, call, loc, i) && ArgMod(aas, call, i)
    {
      FirstIsSettled(aas, call.args[i].loc, loc, NoAlias);
    }
    ThroughMod(aas, call, loc);
  }

  lemma {:induction false} ReadAnswers(aas: seq<Analysis>, call: Call, loc: Location)
    ensures LocRef(aas, call, loc) <==> MayReference(aas, call, loc)
  {
    forall i: nat | i < |call.args|
      ensures ReadsThrough(aas, call, loc, i) <==> Reaches(aas, call, loc, i) && ArgRef(aas, call, i)
    {
      FirstIsSettled(aas, call.args[i].loc, loc, NoAlias);
    }
    ThroughRef(aas, call, loc);
  }

  /** The analyses settle for every pointer argument that it does not alias the location. */
  ghost predicate AllApart(aas: seq<Analysis>, call: Call, loc: Location) {
    forall i :: 0 <= i < |call.args| && call.args[i].pointer ==>
      exists k :: 0 <= k < |aas| && aas[k].alias(call.args[i].loc, loc) == NoAlias
                  && forall j :: 0 <= j < k ==> aas[j].alias(call.args[i].loc, loc) == MayAlias
  }

  /** That leaves nothing of a call that does not use other memory. */
  lemma {:induction false} ApartLeavesNothing(aas: seq<Analysis>, call: Call, loc: Location)
    ensures (exists k :: 0 <= k < |aas| && !MayUseOther(aas[k].behavior(call))) && AllApart(aas, call, loc) ==>
              !MayModify(aas, call, loc) && !MayReference(aas, call, loc)
    ensures (exists k :: 0 <= k < |aas| && aas[k].constant(loc, false)) ==> !MayModify(aas, call, loc)
  {
    if AllApart(aas, call, loc) {
      forall i: nat ensures !WritesThrough(aas, call, loc, i) && !ReadsThrough(aas, call, loc, i) {
        if i < |call.args| && call.args[i].pointer {
          var k :| 0 <= k < |aas| && aas[k].alias(call.args[i].loc, loc) == NoAlias
                   && forall j :: 0 <= j < k ==> aas[j].alias(call.args[i].loc, loc) == MayAlias;
          assert SettledAt(aas, call.args[i].loc, loc, NoAlias, k);
        }
      }
    }
  }

  lemma {:induction false} ThroughMod(aas: seq<Analysis>, call: Call, loc: Location)
    requires forall i: nat :: i < |call.args| ==>
               (WritesThrough(aas, call, loc, i) <==> Reaches(aas, call, loc, i) && ArgMod(aas, call, i))
    ensures (exists i: nat :: WritesThrough(aas, call, loc, i)) <==>
              exists i :: 0 <= i < |call.args| && Reaches(aas, call, loc, i) && ArgMod(aas, call, i)
  {
  }

  lemma {:induction false} ThroughRef(aas: seq<Analysis>, call: Call, loc: Location)
    requires forall i: nat :: i < |call.args| ==>
               (ReadsThrough(aas, call, loc, i) <==> Reaches(aas, call, loc, i) && ArgRef(aas, call, i))
    ensures (exists i: nat :: ReadsThrough(aas, call, loc, i)) <==>
              exists i :: 0 <= i < |call.args| && Reaches(aas, call, loc, i) && ArgRef(aas, call, i)
  {
  }

  /** One analysis excludes other memory, and one excludes inaccessible memory. */
  ghost predicate ArgumentsOnly(aas: seq<Analysis>, call: Call) {
    && (exists k :: 0 <= k < |aas| && !MayUseOther(aas[k].behavior(call)))
    && exists k :: 0 <= k < |aas| && !MayUseInaccessible(aas[k].behavior(call))
  }

  /** All analyses allow some access, or some memory, and one of the calls may write. */
  ghost predicate MayInteract(aas: seq<Analysis>, call1: Call, call2: Call) {
    && (MayAccess(aas, call1) || MayTouch(aas, call1)) && (MayAccess(aas, call2) || MayTouch(aas, call2))
    && ((forall k :: 0 <= k < |aas| ==> MayWrite(aas[k].behavior(call1))) ||
        (forall k :: 0 <= k < |aas| ==> MayWrite(aas[k].behavior(call2))))
  }

  ghost predicate MayTouch(aas: seq<Analysis>, call: Call) {
    || (forall k :: 0 <= k < |aas| ==> MayUseArguments(aas[k].behavior(call)))
    || (forall k :: 0 <= k < |aas| ==> MayUseInaccessible(aas[k].behavior(call)))
    || (forall k :: 0 <= k < |aas| ==> MayUseOther(aas[k].behavior(call)))
  }

  /** All analyses let the call write through its argument. */
  ghost predicate ArgWrites(aas: seq<Analysis>, call: Call, i: nat) {
    i < |call.args| && call.args[i].pointer && forall k :: 0 <= k < |aas| ==> IsModSet(aas[k].argModRef(call, i))
  }

  ghost predicate ArgReads(aas: seq<Analysis>, call: Call, i: nat) {
    i < |call.args| && call.args[i].pointer && forall k :: 0 <= k < |aas| ==> IsRefSet(aas[k].argModRef(call, i))
  }

  /** The second call has an argument that it may access and the first may modify. */
  ghost predicate ModifiesArgument(aas: seq<Analysis>, call1: Call, call2: Call, i: nat) {
    (ArgWrites(aas, call2, i) || ArgReads(aas, call2, i)) && MayModify(aas, call1, call2.args[i].loc)
  }

  ghost predicate ReadsArgument(aas: seq<Analysis>, call1: Call, call2: Call, i: nat) {
    ArgWrites(aas, call2, i) && MayReference(aas, call1, call2.args[i].loc)
  }

  /** What the first call does through its argument meets the second: one of the two writes. */
  ghost predicate MeetsThrough(aas: seq<Analysis>, call1: Call, call2: Call, i: nat) {
    || (ArgWrites(aas, call1, i) && MayModify(aas, call2, call1.args[i].loc))
    || (ArgWrites(aas, call1, i) && MayReference(aas, call2, call1.args[i].loc))
    || (ArgReads(aas, call1, i) && MayModify(aas, call2, call1.args[i].loc))
  }

  /** If one of the calls uses its arguments only, one of them must matter. */
  ghost predicate ClobbersByArguments(aas: seq<Analysis>, call1: Call, call2: Call) {
    if ArgumentsOnly(aas, call2) then
      && MayAccess(aas, call2) && (forall k :: 0 <= k < |aas| ==> MayUseArguments(aas[k].behavior(call2)))
      && exists i: nat :: ModifiesArgument(aas, call1, call2, i)
    else if ArgumentsOnly(aas, call1) then
      && MayAccess(aas, call1) && (forall k :: 0 <= k < |aas| ==> MayUseArguments(aas[k].behavior(call1)))
      && exists i: nat :: MeetsThrough(aas, call1, call2, i) && ArgWrites(aas, call1, i)
    else true
  }

  ghost predicate ObservesByArguments(aas: seq<Analysis>, call1: Call, call2: Call) {
    if ArgumentsOnly(aas, call2) then
      && MayAccess(aas, call2) && (forall k :: 0 <= k < |aas| ==> MayUseArguments(aas[k].behavior(call2)))
      && exists i: nat :: ReadsArgument(aas, call1, call2, i)
    else if ArgumentsOnly(aas, call1) then
      && MayAccess(aas, call1) && (forall k :: 0 <= k < |aas| ==> MayUseArguments(aas[k].behavior(call1)))
      && exists i: nat :: MeetsThrough(aas, call1, call2, i) && ArgReads(aas, call1, i)
    else true
  }

  ghost predicate MayClobber(aas: seq<Analysis>, call1: Call, call2: Call) {
    && (forall k :: 0 <= k < |aas| ==> IsModSet(aas[k].callCall(call1, call2)))
    && (forall k :: 0 <= k < |aas| ==> MayWrite(aas[k].behavior(call1)))
    && MayInteract(aas, call1, call2) && ClobbersByArguments(aas, call1, call2)
  }

  ghost predicate MayObserve(aas: seq<Analysis>, call1: Call, call2: Call) {
    && (forall k :: 0 <= k < |aas| ==> IsRefSet(aas[k].callCall(call1, call2)))
    && ((forall k :: 0 <= k < |aas| ==> MayRead(aas[k].behavior(call1))) ||
        (exists k :: 0 <= k < |aas| && !MayWrite(aas[k].behavior(call1))))
    && MayInteract(aas, call1, call2) && ObservesByArguments(aas, call1, call2)
  }

  lemma {:induction false} BehaviorAnswers(aas: seq<Analysis>, call: Call)
    ensures ArgumentsOnly(aas, call) <==> OnlyArguments(aas, call)
    ensures MayAccess(aas, call) <==> AllWrite(aas, call) || AllRead(aas, call)
    ensures MayAccess(aas, call) || MayTouch(aas, call) <==> !NoAccess(aas, call)
  {
  }

  lemma {:induction false} InteractAnswers(aas: seq<Analysis>, call1: Call, call2: Call)
    ensures MayInteract(aas, call1, call2) <==> !NoInterplay(aas, call1, call2)
  {
    BehaviorAnswers(aas, call1);
    BehaviorAnswers(aas, call2);
  }

  lemma {:induction false} CallAnswers(aas: seq<Analysis>, call1: Call, call2: Call)
    ensures CallMod(aas, call1, call2) <==> MayClobber(aas, call1, call2)
    ensures CallRef(aas, call1, call2) <==> MayObserve(aas, call1, call2)
  {
    InteractAnswers(aas, call1, call2);
    ByArgumentsAnswers(aas, call1, call2);
  }

  lemma {:induction false} ByArgumentsAnswers(aas: seq<Analysis>, call1: Call, call2: Call)
    ensures ModByArguments(aas, call1, call2) <==> ClobbersByArguments(aas, call1, call2)
    ensures RefByArguments(aas, call1, call2) <==> ObservesByArguments(aas, call1, call2)
  {
    ClobberAnswers(aas, call1, call2);
    ObserveAnswers(aas, call1, call2);
  }

  lemma {:induction false} ClobberAnswers(aas: seq<Analysis>, call1: Call, call2: Call)
    ensures ModByArguments(aas, call1, call2) <==> ClobbersByArguments(aas, call1, call2)
  {
    BehaviorAnswers(aas, call1);
    BehaviorAnswers(aas, call2);
    if OnlyArguments(aas, call2) {
      ArgumentAnswers2(aas, call1, call2);
    } else {
      ArgumentAnswers1(aas, call1, call2);
    }
  }

  lemma {:induction false} ObserveAnswers(aas: seq<Analysis>, call1: Call, call2: Call)
    ensures RefByArguments(aas, call1, call2) <==> ObservesByArguments(aas, call1, call2)
  {
    BehaviorAnswers(aas, call1);
    BehaviorAnswers(aas, call2);
    if OnlyArguments(aas, call2) {
      ArgumentAnswers2(aas, call1, call2);
    } else {
      ArgumentAnswers1(aas, call1, call2);
    }
  }

  lemma {:induction false} ArgumentAnswers2(aas: seq<Analysis>, call1: Call, call2: Call)
    ensures (exists i :: 0 <= i < |call2.args| && ModThrough2(aas, call1, call2, i)) <==>
              exists i: nat :: ModifiesArgument(aas, call1, call2, i)
    ensures (exists i :: 0 <= i < |call2.args| && RefThrough2(aas, call1, call2, i)) <==>
              exists i: nat :: ReadsArgument(aas, call1, call2, i)
  {
    forall i: nat | i < |call2.args|
      ensures ModThrough2(aas, call1, call2, i) <==> ModifiesArgument(aas, call1, call2, i)
      ensures RefThrough2(aas, call1, call2, i) <==> ReadsArgument(aas, call1, call2, i)
    {
      LocationAnswers(aas, call1, call2.args[i].loc);
    }
    Through2(aas, call1, call2);
  }

  lemma {:induction false} ArgumentAnswers1(aas: seq<Analysis>, call1: Call, call2: Call)
    ensures (exists i :: 0 <= i < |call1.args| && Matters1(aas, call1, call2, i) && ArgMod(aas, call1, i)) <==>
              exists i: nat :: MeetsThrough(aas, call1, call2, i) && ArgWrites(aas, call1, i)
    ensures (exists i :: 0 <= i < |call1.args| && Matters1(aas, call1, call2, i) && ArgRef(aas, call1, i)) <==>
              exists i: nat :: MeetsThrough(aas, call1, call2, i) && ArgReads(aas, call1, i)
  {
    forall i: nat | i < |call1.args| ensures Matters1(aas, call1, call2, i) <==> MeetsThrough(aas, call1, call2, i) {
      LocationAnswers(aas, call2, call1.args[i].loc);
    }
    Through1(aas, call1, call2);
  }

  lemma {:induction false} Through2(aas: seq<Analysis>, call1: Call, call2: Call)
    requires forall i: nat :: i < |call2.args| ==>
               (ModThrough2(aas, call1, call2, i) <==> ModifiesArgument(aas, call1, call2, i))
    requires forall i: nat :: i < |call2.args| ==>
               (RefThrough2(aas, call1, call2, i) <==> ReadsArgument(aas, call1, call2, i))
    ensures (exists i :: 0 <= i < |call2.args| && ModThrough2(aas, call1, call2, i)) <==>
              exists i: nat :: ModifiesArgument(aas, call1, call2, i)
    ensures (exists i :: 0 <= i < |call2.args| && RefThrough2(aas, call1, call2, i)) <==>
              exists i: nat :: ReadsArgument(aas, call1, call2, i)
  {
  }

  lemma {:induction false} Through1(aas: seq<Analysis>, call1: Call, call2: Call)
    requires forall i: nat :: i < |call1.args| ==>
               (Matters1(aas, call1, call2, i) <==> MeetsThrough(aas, call1, call2, i))
    ensures (exists i :: 0 <= i < |call1.args| && Matters1(aas, call1, call2, i) && ArgMod(aas, call1, i)) <==>
              exists i: nat :: MeetsThrough(aas, call1, call2, i) && ArgWrites(aas, call1, i)
    ensures (exists i :: 0 <= i < |call1.args| && Matters1(aas, call1, call2, i) && ArgRef(aas, call1, i)) <==>
              exists i: nat :: MeetsThrough(aas, call1, call2, i) && ArgReads(aas, call1, i)
  {
  }

  // ---- how tight the combined answers are ----

  /** A Mod answer is never given to a call that may not write. A Ref answer may be given to a call that
      may not read, but only if it may not write either and may use memory other than through arguments. */
  lemma {:induction false} BitsWithinBehavior(aas: seq<Analysis>, call: Call, loc: Location)
    ensures LocMod(aas, call, loc) ==> AllWrite(aas, call)
    ensures LocRef(aas, call, loc) && !AllRead(aas, call) <==>
              !AllRead(aas, call) && !AllWrite(aas, call) && AllUseOther(aas, call)
              && forall k :: 0 <= k < |aas| ==> IsRefSet(aas[k].callLoc(call, loc))
  {
  }

  /** The other call writes, and what the first call may do to memory that it shares with it is not told by
      its arguments. */
  predicate LooseRef(aas: seq<Analysis>, call1: Call, call2: Call) {
    && AllWrite(aas, call2)
    && if OnlyArguments(aas, call2) then
         && AllUseOther(aas, call1) && AllUseArguments(aas, call2)
         && exists i :: 0 <= i < |call2.args| && LooseArgument(aas, call1, call2, i)
       else
         AllUseOther(aas, call1) || AllUseInaccessible(aas, call1)
  }

  predicate LooseArgument(aas: seq<Analysis>, call1: Call, call2: Call, i: nat) {
    && i < |call2.args| && call2.args[i].pointer && ArgMod(aas, call2, i)
    && forall k :: 0 <= k < |aas| ==> IsRefSet(aas[k].callLoc(call1, call2.args[i].loc))
  }

  /** The same for two calls: Mod is never given to a first call that may not write; Ref is given to one that
      may not read exactly if it may not write either, all analyses report it, and the calls share memory that
      the arguments do not settle. */
  lemma {:induction false} CallBitsWithinBehavior(aas: seq<Analysis>, call1: Call, call2: Call)
    ensures CallMod(aas, call1, call2) ==> AllWrite(aas, call1)
    ensures CallRef(aas, call1, call2) && !AllRead(aas, call1) <==>
              !AllRead(aas, call1) && !AllWrite(aas, call1) && LooseRef(aas, call1, call2)
              && forall k :: 0 <= k < |aas| ==> IsRefSet(aas[k].callCall(call1, call2))
  {
    if !AllRead(aas, call1) && !AllWrite(aas, call1) {
      forall i: nat | i < |call2.args|
        ensures RefThrough2(aas, call1, call2, i) <==> AllUseOther(aas, call1) && LooseArgument(aas, call1, call2, i)
      {
        BitsWithinBehavior(aas, call1, call2.args[i].loc);
      }
      if OnlyArguments(aas, call2) {
        LooseIffThrough(aas, call1, call2);
      }
    }
  }

  lemma {:induction false} LooseIffThrough(aas: seq<Analysis>, call1: Call, call2: Call)
    requires forall i: nat :: i < |call2.args| ==>
               (RefThrough2(aas, call1, call2, i) <==> AllUseOther(aas, call1) && LooseArgument(aas, call1, call2, i))
    ensures (exists i :: 0 <= i < |call2.args| && RefThrough2(aas, call1, call2, i))
       <==> AllUseOther(aas, call1) && exists i :: 0 <= i < |call2.args| && LooseArgument(aas, call1, call2, i)
  {
  }

  /** One analysis says that the call only reads, another that it does not read: Ref is what remains, for
      locations and for calls that write. */
  lemma {:induction false} RefOfNoReader() returns (aas: seq<Analysis>, call: Call, other: Call)
    ensures !AllRead(aas, call) && !AllWrite(aas, call) && LocRef(aas, call, 0) && CallRef(aas, call, other)
  {
    var onlyReads: Behavior := 61;
    var onlyWrites: Behavior := 62;
    call, other := Call(0, []), Call(1, []);
    aas := [Anything(c => if c == Call(0, []) then onlyReads else UNKNOWN_BEHAVIOR),
            Anything(c => if c == Call(0, []) then onlyWrites else UNKNOWN_BEHAVIOR)];
    BehaviorBits(onlyReads);
    BehaviorBits(onlyWrites);
    BehaviorBits(UNKNOWN_BEHAVIOR);
    assert !MayWrite(aas[0].behavior(call)) && !MayRead(aas[1].behavior(call));
    assert AllUseOther(aas, call) && AllUseOther(aas, other) && AllWrite(aas, other);
    BitsWithinBehavior(aas, call, 0);
    CallBitsWithinBehavior(aas, call, other);
  }

  /** An analysis that knows nothing but how calls behave. */
  function Anything(behavior: Call -> Behavior): Analysis {
    Analysis((l, m) => MayAlias, (l, b) => false, (c, i) => MOD_REF, (c, l) => MOD_REF, (c, d) => MOD_REF, behavior)
  }
}
