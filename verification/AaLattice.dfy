/** The bits of mod/ref answers and of call behaviours. */
module AaLattice {
  /** Bit 0 is Ref, bit 1 is Mod; bit 2 set means that no must-alias relation is known. */
  type ModRefInfo = bv8

  const MUST: ModRefInfo := 0
  const MUST_REF: ModRefInfo := 1
  const MUST_MOD: ModRefInfo := 2
  const MUST_MOD_REF: ModRefInfo := 3
  const NO_MOD_REF: ModRefInfo := 4
  const REF: ModRefInfo := 5
  const MOD: ModRefInfo := 6
  const MOD_REF: ModRefInfo := 7

  predicate IsNoModRef(m: ModRefInfo) { m & MUST_MOD_REF == MUST }
  predicate IsModOrRefSet(m: ModRefInfo) { m & MUST_MOD_REF != 0 }
  predicate IsModSet(m: ModRefInfo) { m & MUST_MOD != 0 }
  predicate IsRefSet(m: ModRefInfo) { m & MUST_REF != 0 }
  predicate IsMustSet(m: ModRefInfo) { m & NO_MOD_REF == 0 }

  function SetMust(m: ModRefInfo): ModRefInfo { m & MUST_MOD_REF }
  function ClearMust(m: ModRefInfo): ModRefInfo { m | NO_MOD_REF }
  function ClearMod(m: ModRefInfo): ModRefInfo { m & REF }
  function ClearRef(m: ModRefInfo): ModRefInfo { m & MOD }
  function UnionModRef(m: ModRefInfo, n: ModRefInfo): ModRefInfo { m | n }
  function IntersectModRef(m: ModRefInfo, n: ModRefInfo): ModRefInfo { m & n }

  /** Which kinds of access a call makes (the bits of ModRefInfo), and where. */
  type Behavior = b: bv8 | b & NO_MOD_REF == NO_MOD_REF && b <= 63 witness 4

  const ARGUMENT_POINTEES: bv8 := 8
  const INACCESSIBLE_MEM: bv8 := 16
  const OTHER_MEM: bv8 := 32
  const ANYWHERE: bv8 := OTHER_MEM | INACCESSIBLE_MEM | ARGUMENT_POINTEES
  const DOES_NOT_ACCESS_MEMORY: Behavior := NO_MOD_REF
  const ONLY_ACCESSES_INACCESSIBLE_MEM: Behavior := INACCESSIBLE_MEM | MOD_REF
  const UNKNOWN_BEHAVIOR: Behavior := ANYWHERE | MOD_REF

  function CreateModRefInfo(b: Behavior): ModRefInfo { b & MOD_REF }
  predicate OnlyReadsMemory(b: Behavior) { !IsModSet(CreateModRefInfo(b)) }
  predicate DoesNotReadMemory(b: Behavior) { !IsRefSet(CreateModRefInfo(b)) }
  predicate OnlyAccessesArgPointees(b: Behavior) { b & ANYWHERE & !ARGUMENT_POINTEES == 0 }
  predicate DoesAccessArgPointees(b: Behavior) { IsModOrRefSet(CreateModRefInfo(b)) && b & ARGUMENT_POINTEES != 0 }
  predicate OnlyAccessesInaccessibleOrArgMem(b: Behavior) {
    b & ANYWHERE & !(INACCESSIBLE_MEM | ARGUMENT_POINTEES) == 0
  }

  /** What a behaviour allows, bit by bit. */
  predicate MayWrite(b: Behavior) { b & MUST_MOD != 0 }
  predicate MayRead(b: Behavior) { b & MUST_REF != 0 }
  predicate MayUseArguments(b: Behavior) { b & ARGUMENT_POINTEES != 0 }
  predicate MayUseInaccessible(b: Behavior) { b & INACCESSIBLE_MEM != 0 }
  predicate MayUseOther(b: Behavior) { b & OTHER_MEM != 0 }

  lemma {:induction false} IntersectBits(m: ModRefInfo, n: ModRefInfo)
    ensures IsModSet(IntersectModRef(m, n)) <==> IsModSet(m) && IsModSet(n)
    ensures IsRefSet(IntersectModRef(m, n)) <==> IsRefSet(m) && IsRefSet(n)
    ensures IsMustSet(IntersectModRef(m, n)) <==> IsMustSet(m) || IsMustSet(n)
  {
  }

  lemma {:induction false} UnionBits(m: ModRefInfo, n: ModRefInfo)
    ensures IsModSet(UnionModRef(m, n)) <==> IsModSet(m) || IsModSet(n)
    ensures IsRefSet(UnionModRef(m, n)) <==> IsRefSet(m) || IsRefSet(n)
  {
  }

  lemma {:induction false} ClearBits(m: ModRefInfo)
    ensures !IsModSet(ClearMod(m)) && (IsRefSet(ClearMod(m)) <==> IsRefSet(m))
    ensures (IsMustSet(ClearMod(m)) <==> IsMustSet(m))
    ensures !IsRefSet(ClearRef(m)) && (IsModSet(ClearRef(m)) <==> IsModSet(m))
    ensures (IsMustSet(ClearRef(m)) <==> IsMustSet(m))
    ensures IsMustSet(SetMust(m)) && (IsModSet(SetMust(m)) <==> IsModSet(m)) && (IsRefSet(SetMust(m)) <==> IsRefSet(m))
    ensures !IsMustSet(ClearMust(m)) && (IsModSet(ClearMust(m)) <==> IsModSet(m))
    ensures (IsRefSet(ClearMust(m)) <==> IsRefSet(m))
    ensures IsNoModRef(m) <==> !IsModSet(m) && !IsRefSet(m)
    ensures IsModOrRefSet(m) <==> IsModSet(m) || IsRefSet(m)
  {
  }

  lemma {:induction false} ConstantBits()
    ensures !IsModSet(NO_MOD_REF) && !IsRefSet(NO_MOD_REF) && !IsMustSet(NO_MOD_REF)
    ensures IsModSet(MOD_REF) && IsRefSet(MOD_REF) && !IsMustSet(MOD_REF)
    ensures IsModSet(MOD) && !IsRefSet(MOD)
  {
  }

  lemma {:induction false} BehaviorBits(b: Behavior)
    ensures OnlyReadsMemory(b) <==> !MayWrite(b)
    ensures DoesNotReadMemory(b) <==> !MayRead(b)
    ensures OnlyAccessesArgPointees(b) <==> !MayUseOther(b) && !MayUseInaccessible(b)
    ensures OnlyAccessesInaccessibleOrArgMem(b) <==> !MayUseOther(b)
    ensures DoesAccessArgPointees(b) <==> (MayWrite(b) || MayRead(b)) && MayUseArguments(b)
    ensures b == DOES_NOT_ACCESS_MEMORY <==>
              !MayWrite(b) && !MayRead(b) && !MayUseArguments(b) && !MayUseInaccessible(b) && !MayUseOther(b)
    ensures b == ONLY_ACCESSES_INACCESSIBLE_MEM ==> !MayUseOther(b) && !MayUseArguments(b)
  {
  }

  function Meet(b: Behavior, c: Behavior): Behavior { b & c }

  lemma {:induction false} BehaviorMeet(b: Behavior, c: Behavior)
    ensures MayWrite(Meet(b, c)) <==> MayWrite(b) && MayWrite(c)
    ensures MayRead(Meet(b, c)) <==> MayRead(b) && MayRead(c)
    ensures MayUseArguments(Meet(b, c)) <==> MayUseArguments(b) && MayUseArguments(c)
    ensures MayUseInaccessible(Meet(b, c)) <==> MayUseInaccessible(b) && MayUseInaccessible(c)
    ensures MayUseOther(Meet(b, c)) <==> MayUseOther(b) && MayUseOther(c)
  {
  }
}
