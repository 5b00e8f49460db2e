/** The thread barrier: any number of threads that call `block` once each, and a main thread that calls
    `releaseThreads` for all of them, as interleaved steps. */
module Barrier {
  import opened Options

  /** Where a thread is. From `Entered` to `Broadcasting` and at `Leaving` it holds the mutex. */
  datatype Pc = Start         // before pthread_mutex_lock
              | Entered       // before n++, or before the test of n in releaseThreads
              | Counted       // before the test of n and waitFor in block
              | Setting       // before waitFor = num in releaseThreads
              | ResettingN    // before n = 0
              | ResettingWait // before waitFor = 0
              | Broadcasting  // before pthread_cond_broadcast
              | Asleep        // in pthread_cond_wait
              | Woken         // about to lock the mutex again
              | Leaving       // before pthread_mutex_unlock
              | Done

  /** The last of `pcs` is the main thread. `arrivals` lists the threads in the order in which they got the
      mutex for the first time, `broadcasts` those that have called pthread_cond_broadcast. */
  datatype State = State(pcs: seq<Pc>, mutex: Option<nat>, n: nat, waitFor: nat, arrivals: seq<nat>,
                         broadcasts: seq<nat>)

  function Init(threads: nat): State {
    State(seq(threads + 1, i => Start), None, 0, 0, [], [])
  }

  /** The number of threads that call `block`, and the number of the main thread. */
  function Main(s: State): nat
    requires s.pcs != []
  {
    |s.pcs| - 1
  }

  function Wake(pcs: seq<Pc>): seq<Pc> {
    seq(|pcs|, i requires 0 <= i < |pcs| => if pcs[i] == Asleep then Woken else pcs[i])
  }

  /** What thread `t` can do next, if it can do anything on its own. */
  function Step(s: State, t: nat): Option<State>
    requires t < |s.pcs|
  {
    match s.pcs[t]
    case Start =>
      if s.mutex.Some? then None
      else Some(s.(pcs := s.pcs[t := Entered], mutex := Some(t), arrivals := s.arrivals + [t]))
    case Entered =>
      if t < Main(s) then Some(s.(pcs := s.pcs[t := Counted], n := s.n + 1))
      else if s.n >= Main(s) then Some(s.(pcs := s.pcs[t := ResettingN]))
      else Some(s.(pcs := s.pcs[t := Setting]))
    case Counted =>
      if s.waitFor > 0 && s.n == s.waitFor then Some(s.(pcs := s.pcs[t := ResettingN]))
      else Some(s.(pcs := s.pcs[t := Asleep], mutex := None))
    case Setting => Some(s.(pcs := s.pcs[t := Asleep], mutex := None, waitFor := Main(s)))
    case ResettingN => Some(s.(pcs := s.pcs[t := ResettingWait], n := 0))
    case ResettingWait => Some(s.(pcs := s.pcs[t := Broadcasting], waitFor := 0))
    case Broadcasting => Some(s.(pcs := Wake(s.pcs)[t := Leaving], broadcasts := s.broadcasts + [t]))
    case Asleep => None
    case Woken => if s.mutex == None then Some(s.(pcs := s.pcs[t := Leaving], mutex := Some(t))) else None
    case Leaving => Some(s.(pcs := s.pcs[t := Done], mutex := None))
    case Done => None
  }

  /** A wakeup without a broadcast. */
  predicate SpuriousWakeup(s: State, s': State, t: nat) {
    t < |s.pcs| && s.pcs[t] == Asleep && s' == s.(pcs := s.pcs[t := Woken])
  }

  predicate Next(s: State, s': State, t: nat, spurious: bool) {
    t < |s.pcs| && (Step(s, t) == Some(s') || (spurious && SpuriousWakeup(s, s', t)))
  }

  /** Some steps on end: the states in between, and the thread that makes each step. */
  predicate Path(states: seq<State>, steps: seq<nat>, spurious: bool) {
    |states| == |steps| + 1 && forall i :: 0 <= i < |steps| ==> Next(states[i], states[i + 1], steps[i], spurious)
  }

  predicate Run(states: seq<State>, steps: seq<nat>, threads: nat, spurious: bool) {
    Path(states, steps, spurious) && states[0] == Init(threads)
  }

  // ---- the invariant ----

  predicate Holding(pc: Pc) {
    pc != Start && pc != Asleep && pc != Woken && pc != Done
  }

  predicate Arrived(pc: Pc) {
    pc != Start
  }

  predicate Releasing(pc: Pc) {
    pc == ResettingN || pc == ResettingWait || pc == Broadcasting
  }

  predicate Past(pc: Pc) {
    pc == Woken || pc == Leaving || pc == Done
  }

  /** The threads that have been counted. */
  function CountedThreads(pcs: seq<Pc>): set<nat> {
    set t: nat | t < |pcs| - 1 && pcs[t] != Start && pcs[t] != Entered
  }

  ghost predicate MutexOk(s: State) {
    && (s.mutex.Some? ==> s.mutex.value < |s.pcs| && Holding(s.pcs[s.mutex.value]))
    && forall t: nat :: t < |s.pcs| && Holding(s.pcs[t]) ==> s.mutex == Some(t)
  }

  ghost predicate ArrivalsOk(s: State) {
    && (forall t: nat :: t in s.arrivals <==> t < |s.pcs| && Arrived(s.pcs[t]))
    && (forall i, j :: 0 <= i < j < |s.arrivals| ==> s.arrivals[i] != s.arrivals[j])
    && (forall t: nat :: t < |s.pcs| && Holding(s.pcs[t]) && s.pcs[t] != Leaving ==>
         s.arrivals != [] && s.arrivals[|s.arrivals| - 1] == t)
  }

  ghost predicate AllArrived(s: State) {
    forall t: nat :: t < |s.pcs| ==>
        Arrived(s.pcs[t]) && s.pcs[t] != Entered && s.pcs[t] != Counted && s.pcs[t] != Setting
  }

  ghost predicate RolesOk(s: State) {
    s.pcs != [] && s.pcs[Main(s)] != Counted && forall t: nat :: t < Main(s) ==> s.pcs[t] != Setting
  }

  /** Nobody has begun to release the threads. */
  ghost predicate Gathering(s: State)
    requires s.pcs != []
  {
    && s.broadcasts == [] && (forall t: nat :: t < |s.pcs| ==> !Releasing(s.pcs[t]))
    && s.n == |CountedThreads(s.pcs)|
    && s.waitFor == (if s.pcs[Main(s)] in {Start, Entered, Setting} then 0 else Main(s))
    && (s.pcs[Main(s)] == Setting ==> s.n < Main(s))
    && (s.waitFor > 0 && s.n == s.waitFor ==>
          s.mutex.Some? && s.mutex.value < |s.pcs| && s.pcs[s.mutex.value] == Counted)
    && (s.pcs[Main(s)] !in {Start, Entered, Setting} ==> s.waitFor > 0)
  }

  /** Somebody is releasing the threads, and everybody has arrived. */
  ghost predicate InRelease(s: State) {
    && s.broadcasts == [] && AllArrived(s) && s.mutex.Some? && s.mutex.value < |s.pcs|
    && var pc := s.pcs[s.mutex.value];
       Releasing(pc) && (pc != ResettingN ==> s.n == 0) && (pc == Broadcasting ==> s.waitFor == 0)
  }

  /** The threads have been released, by the last that has arrived, and the counters are as in the beginning. */
  ghost predicate Released(s: State) {
    && s.n == 0 && s.waitFor == 0
    && |s.broadcasts| == 1 && AllArrived(s) && s.arrivals != [] && s.broadcasts[0] == s.arrivals[|s.arrivals| - 1]
    && forall t: nat :: t < |s.pcs| ==> s.pcs[t] != Asleep && !Releasing(s.pcs[t])
  }

  ghost predicate Invariant(s: State)
    requires s.pcs != []
  {
    MutexOk(s) && ArrivalsOk(s) && RolesOk(s) && (Gathering(s) || InRelease(s) || Released(s))
  }

  // ---- counting ----

  lemma {:induction false} SubsetCount(a: set<nat>, b: set<nat>)
    requires a <= b
    ensures |a| <= |b| && (|a| == |b| ==> a == b)
  {
    assert b == a + (b - a);
  }

  function Below(n: nat): (r: set<nat>)
    ensures |r| == n && forall t: nat :: t in r <==> t < n
  {
    if n == 0 then {} else Below(n - 1) + {n - 1}
  }

  /** Never are more threads counted than there are, and if all are, none is still on its way. */
  lemma {:induction false} CountedBound(s: State)
    requires s.pcs != []
    ensures |CountedThreads(s.pcs)| <= Main(s)
    ensures |CountedThreads(s.pcs)| == Main(s) ==>
              forall t: nat :: t < Main(s) ==> s.pcs[t] != Start && s.pcs[t] != Entered
  {
    SubsetCount(CountedThreads(s.pcs), Below(Main(s)));
    if |CountedThreads(s.pcs)| == Main(s) {
      forall t: nat | t < Main(s) ensures s.pcs[t] != Start && s.pcs[t] != Entered {
        assert t in Below(Main(s));
        assert t in CountedThreads(s.pcs);
      }
    }
  }

  lemma {:induction false} SameCounted(pcs: seq<Pc>, pcs': seq<Pc>)
    requires |pcs| == |pcs'|
    requires forall t: nat :: t < |pcs| - 1 ==> (pcs[t] in {Start, Entered} <==> pcs'[t] in {Start, Entered})
    ensures CountedThreads(pcs') == CountedThreads(pcs)
  {
  }

  lemma {:induction false} OneMoreCounted(pcs: seq<Pc>, t: nat)
    requires t < |pcs| - 1 && pcs[t] == Entered
    ensures |CountedThreads(pcs[t := Counted])| == |CountedThreads(pcs)| + 1
  {
    assert CountedThreads(pcs[t := Counted]) == CountedThreads(pcs) + {t};
  }

  // ---- every step keeps the invariant ----

  lemma {:induction false} InitInvariant(threads: nat)
    ensures Invariant(Init(threads))
  {
    assert CountedThreads(Init(threads).pcs) == {};
  }

  lemma {:induction false} MutexStep(s: State, s': State, t: nat)
    requires MutexOk(s) && t < |s.pcs| && Step(s, t) == Some(s')
    ensures MutexOk(s')
  {
  }

  lemma {:induction false} ArrivalsStep(s: State, s': State, t: nat)
    requires MutexOk(s) && ArrivalsOk(s) && t < |s.pcs| && Step(s, t) == Some(s')
    ensures ArrivalsOk(s')
  {
    if s.pcs[t] == Start {
      assert s'.arrivals[|s.arrivals|] == t;
      forall u: nat ensures u in s'.arrivals <==> u in s.arrivals || u == t {
      }
    }
  }

  /** Before the release begins: the step leads on, or begins the release when all have arrived. */
  lemma {:induction false} GatheringStep(s: State, s': State, t: nat)
    requires s.pcs != [] && MutexOk(s) && RolesOk(s) && Gathering(s) && t < |s.pcs| && Step(s, t) == Some(s')
    ensures Gathering(s') || InRelease(s')
  {
    if t == Main(s) {
      MainGathers(s, s');
    } else if s.pcs[t] == Entered {
      OneMoreCounted(s.pcs, t);
    } else if s.pcs[t] == Counted {
      CountedGathers(s, s', t);
    } else {
      ThreadGathers(s, s', t);
    }
  }

  lemma {:induction false} MainGathers(s: State, s': State)
    requires s.pcs != [] && MutexOk(s) && RolesOk(s) && Gathering(s) && Step(s, Main(s)) == Some(s')
    ensures Gathering(s') || InRelease(s')
  {
    CountedBound(s);
    SameCounted(s.pcs, s'.pcs);
  }

  lemma {:induction false} CountedGathers(s: State, s': State, t: nat)
    requires s.pcs != [] && MutexOk(s) && RolesOk(s) && Gathering(s) && t < Main(s) && s.pcs[t] == Counted
    requires Step(s, t) == Some(s')
    ensures Gathering(s') || InRelease(s')
  {
    CountedBound(s);
    SameCounted(s.pcs, s'.pcs);
  }

  /** A thread that arrives, or leaves. */
  lemma {:induction false} ThreadGathers(s: State, s': State, t: nat)
    requires s.pcs != [] && MutexOk(s) && RolesOk(s) && Gathering(s) && t < Main(s)
    requires s.pcs[t] != Entered && s.pcs[t] != Counted && Step(s, t) == Some(s')
    ensures Gathering(s')
  {
    SameCounted(s.pcs, s'.pcs);
  }

  lemma {:induction false} ReleasingStep(s: State, s': State, t: nat)
    requires s.pcs != [] && MutexOk(s) && ArrivalsOk(s) && InRelease(s) && t < |s.pcs| && Step(s, t) == Some(s')
    ensures InRelease(s') || Released(s')
  {
  }

  /** After the broadcast, threads only leave. */
  lemma {:induction false} ReleasedStep(s: State, s': State, t: nat)
    requires s.pcs != [] && Released(s) && t < |s.pcs| && Step(s, t) == Some(s')
    ensures Released(s')
  {
  }

  lemma {:induction false} RolesStep(s: State, s': State, t: nat)
    requires RolesOk(s) && t < |s.pcs| && Step(s, t) == Some(s')
    ensures RolesOk(s') && |s'.pcs| == |s.pcs|
  {
  }

  lemma {:induction false} StepKeepsInvariant(s: State, s': State, t: nat)
    requires s.pcs != [] && Invariant(s) && t < |s.pcs| && Step(s, t) == Some(s')
    ensures |s'.pcs| == |s.pcs| && Invariant(s')
  {
    RolesStep(s, s', t);
    MutexStep(s, s', t);
    ArrivalsStep(s, s', t);
    if Gathering(s) {
      GatheringStep(s, s', t);
    } else if InRelease(s) {
      ReleasingStep(s, s', t);
    } else {
      ReleasedStep(s, s', t);
    }
  }

  lemma {:induction false} WakeupKeepsInvariant(s: State, s': State, t: nat)
    requires s.pcs != [] && Invariant(s) && SpuriousWakeup(s, s', t)
    ensures |s'.pcs| == |s.pcs| && Invariant(s')
  {
    WakeupKeepsOrder(s, s', t);
    if Gathering(s) {
      SameCounted(s.pcs, s'.pcs);
    }
  }

  lemma {:induction false} WakeupKeepsOrder(s: State, s': State, t: nat)
    requires MutexOk(s) && ArrivalsOk(s) && RolesOk(s) && SpuriousWakeup(s, s', t)
    ensures MutexOk(s') && ArrivalsOk(s') && RolesOk(s')
  {
  }

  lemma {:induction false} NextKeepsInvariant(s: State, s': State, t: nat, spurious: bool)
    requires s.pcs != [] && Invariant(s) && Next(s, s', t, spurious)
    ensures |s'.pcs| == |s.pcs| && Invariant(s')
  {
    if Step(s, t) == Some(s') {
      StepKeepsInvariant(s, s', t);
    } else {
      WakeupKeepsInvariant(s, s', t);
    }
  }

  lemma {:induction false} RunKeepsInvariant(states: seq<State>, steps: seq<nat>, threads: nat, spurious: bool, i: nat)
    requires Run(states, steps, threads, spurious) && i < |states|
    ensures |states[i].pcs| == threads + 1 && Invariant(states[i])
  {
    if i == 0 {
      InitInvariant(threads);
    } else {
      RunKeepsInvariant(states, steps, threads, spurious, i - 1);
      NextKeepsInvariant(states[i - 1], states[i], steps[i - 1], spurious);
    }
  }

  // ---- what every run keeps, with spurious wakeups or without ----

  /** The assert of `block`: no more threads have been counted than are waited for. */
  predicate AssertHolds(s: State, t: nat) {
    t < |s.pcs| && s.pcs[t] == Counted ==> s.waitFor == 0 || s.n <= s.waitFor
  }

  /** There is at most one broadcast; it is made by the last thread to arrive, and then nobody is left asleep and
      the counters are reset. */
  lemma {:induction false} BroadcastOnce(states: seq<State>, steps: seq<nat>, threads: nat, spurious: bool, i: nat)
    requires Run(states, steps, threads, spurious) && i < |states|
    ensures var s := states[i];
            && |s.broadcasts| <= 1
            && (s.broadcasts != [] ==>
                  && |s.arrivals| == threads + 1 && s.broadcasts[0] == s.arrivals[threads]
                  && s.n == 0 && s.waitFor == 0
                  && forall t: nat :: t < |s.pcs| ==> s.pcs[t] in {Woken, Leaving, Done})
            && forall t: nat :: AssertHolds(s, t)
  {
    RunKeepsInvariant(states, steps, threads, spurious, i);
    var s := states[i];
    CountedBound(s);
    if s.broadcasts != [] {
      assert forall t: nat :: t < threads + 1 ==> t in s.arrivals;
      AllDistinct(s.arrivals, threads + 1);
    }
  }

  lemma {:induction false} AllDistinct(xs: seq<nat>, n: nat)
    requires forall i, j :: 0 <= i < j < |xs| ==> xs[i] != xs[j]
    requires forall x: nat :: x in xs <==> x < n
    ensures |xs| == n
  {
    assert Elements(xs) == Below(n);
  }

  function Elements(xs: seq<nat>): (r: set<nat>)
    requires forall i, j :: 0 <= i < j < |xs| ==> xs[i] != xs[j]
    ensures |r| == |xs| && forall x :: x in r <==> x in xs
  {
    if xs == [] then {} else
      var last := |xs| - 1;
      assert xs == xs[..last] + [xs[last]];
      Elements(xs[..last]) + {xs[last]}
  }

  // ---- nothing gets stuck ----

  predicate CanMove(s: State, t: nat) {
    t < |s.pcs| && Step(s, t).Some?
  }

  lemma {:induction false} AllCounted(s: State)
    requires s.pcs != [] && forall t: nat :: t < Main(s) ==> s.pcs[t] != Start && s.pcs[t] != Entered
    ensures |CountedThreads(s.pcs)| == Main(s)
  {
    assert CountedThreads(s.pcs) == Below(Main(s));
  }

  predicate Resting(pc: Pc) {
    pc == Asleep || pc == Done
  }

  /** When all threads rest, they have been released: none of them is asleep. */
  lemma {:induction false} RestingIsReleased(s: State)
    requires s.pcs != [] && Invariant(s) && forall t: nat :: t < |s.pcs| ==> Resting(s.pcs[t])
    ensures Released(s)
  {
    AllCounted(s);
    assert Resting(s.pcs[Main(s)]);
  }

  /** As long as a thread is not done, a thread can go on without a spurious wakeup. */
  lemma {:induction false} NoDeadlock(states: seq<State>, steps: seq<nat>, threads: nat, spurious: bool, i: nat)
    requires Run(states, steps, threads, spurious) && i < |states|
    ensures (exists t: nat :: CanMove(states[i], t)) ||
              (forall t: nat :: t < |states[i].pcs| ==> states[i].pcs[t] == Done)
    ensures (forall t: nat :: t < |states[i].pcs| ==> states[i].pcs[t] == Done) ==> |states[i].broadcasts| == 1
  {
    RunKeepsInvariant(states, steps, threads, spurious, i);
    var s := states[i];
    if t: nat :| t < |s.pcs| && !Resting(s.pcs[t]) {
      assert CanMove(s, if s.mutex.Some? then s.mutex.value else t);
    } else {
      RestingIsReleased(s);
    }
  }

  function Rank(pc: Pc): nat {
    match pc
    case Start => 10
    case Entered => 9
    case Counted => 8
    case Setting => 7
    case ResettingN => 6
    case ResettingWait => 5
    case Broadcasting => 4
    case Asleep => 3
    case Woken => 2
    case Leaving => 1
    case Done => 0
  }

  function StepsLeft(pcs: seq<Pc>): nat {
    if pcs == [] then 0 else Rank(pcs[0]) + StepsLeft(pcs[1..])
  }

  lemma {:induction false} FewerSteps(pcs: seq<Pc>, pcs': seq<Pc>, t: nat)
    requires |pcs| == |pcs'| && t < |pcs| && Rank(pcs'[t]) < Rank(pcs[t])
    requires forall u: nat :: u < |pcs| ==> Rank(pcs'[u]) <= Rank(pcs[u])
    ensures StepsLeft(pcs') < StepsLeft(pcs)
  {
    if t == 0 {
      NoMoreSteps(pcs[1..], pcs'[1..]);
    } else {
      FewerSteps(pcs[1..], pcs'[1..], t - 1);
    }
  }

  lemma {:induction false} NoMoreSteps(pcs: seq<Pc>, pcs': seq<Pc>)
    requires |pcs| == |pcs'| && forall u: nat :: u < |pcs| ==> Rank(pcs'[u]) <= Rank(pcs[u])
    ensures StepsLeft(pcs') <= StepsLeft(pcs)
  {
    if pcs != [] {
      NoMoreSteps(pcs[1..], pcs'[1..]);
    }
  }

  lemma {:induction false} NextIsProgress(s: State, s': State, t: nat, spurious: bool)
    requires Next(s, s', t, spurious)
    ensures StepsLeft(s'.pcs) < StepsLeft(s.pcs)
  {
    FewerSteps(s.pcs, s'.pcs, t);
  }

  lemma {:induction false} InitialSteps(n: nat)
    ensures StepsLeft(seq(n, i => Start)) == 10 * n
  {
    if n > 0 {
      var pcs: seq<Pc> := seq(n, i => Start);
      assert pcs[1..] == seq(n - 1, i => Start);
      InitialSteps(n - 1);
    }
  }

  lemma {:induction false} RunIsProgress(states: seq<State>, steps: seq<nat>, threads: nat, spurious: bool, i: nat)
    requires Run(states, steps, threads, spurious) && i < |states|
    ensures i + StepsLeft(states[i].pcs) <= 10 * (threads + 1)
  {
    if i == 0 {
      InitialSteps(threads + 1);
    } else {
      RunIsProgress(states, steps, threads, spurious, i - 1);
      assert Next(states[i - 1], states[i], steps[i - 1], spurious);
      NextIsProgress(states[i - 1], states[i], steps[i - 1], spurious);
    }
  }

  /** Every run ends, after at most ten steps per thread. A run that cannot be continued has let
      everybody through, by exactly one broadcast, and left the barrier ready for use again. */
  lemma {:induction false} EverybodyGetsThrough(states: seq<State>, steps: seq<nat>, threads: nat, spurious: bool)
    requires Run(states, steps, threads, spurious)
    ensures |steps| <= 10 * (threads + 1)
    ensures (forall t: nat :: !CanMove(states[|steps|], t)) ==>
              && |states[|steps|].broadcasts| == 1
              && states[|steps|].mutex == None && states[|steps|].n == 0 && states[|steps|].waitFor == 0
              && forall t: nat :: t < |states[|steps|].pcs| ==> states[|steps|].pcs[t] == Done
  {
    RunIsProgress(states, steps, threads, spurious, |steps|);
    RunKeepsInvariant(states, steps, threads, spurious, |steps|);
    NoDeadlock(states, steps, threads, spurious, |steps|);
    BroadcastOnce(states, steps, threads, spurious, |steps|);
  }

  // ---- the barrier ----

  ghost predicate EverybodyArrived(s: State) {
    forall t: nat :: t < |s.pcs| ==> Arrived(s.pcs[t])
  }

  /** Nobody is past the barrier before everybody has arrived. */
  ghost predicate Tight(s: State) {
    forall t: nat :: t < |s.pcs| && Past(s.pcs[t]) ==> EverybodyArrived(s)
  }

  /** A wakeup without a broadcast while somebody is still to arrive. */
  predicate EarlyWakeup(s: State, s': State, t: nat) {
    SpuriousWakeup(s, s', t) && |s.arrivals| < |s.pcs|
  }

  lemma {:induction false} ArrivalsCounted(s: State)
    requires ArrivalsOk(s)
    ensures |s.arrivals| <= |s.pcs|
    ensures |s.arrivals| == |s.pcs| <==> EverybodyArrived(s)
  {
    SubsetCount(Elements(s.arrivals), Below(|s.pcs|));
    if EverybodyArrived(s) {
      AllDistinct(s.arrivals, |s.pcs|);
    }
    assert forall t: nat :: t in Below(|s.pcs|) <==> t < |s.pcs|;
  }

  /** Only an early wakeup lets a thread pass early. */
  lemma {:induction false} NextIsTight(s: State, s': State, t: nat)
    requires s.pcs != [] && Invariant(s) && Next(s, s', t, true) && !EarlyWakeup(s, s', t) && Tight(s)
    ensures Tight(s')
  {
    ArrivalsCounted(s);
    if s.pcs[t] == Broadcasting {
      assert Releasing(s.pcs[t]) && InRelease(s);
    }
    assert EverybodyArrived(s) ==> EverybodyArrived(s');
  }

  lemma {:induction false} RunIsTight(states: seq<State>, steps: seq<nat>, threads: nat, i: nat)
    requires Run(states, steps, threads, true) && i < |states|
    requires forall j: nat :: j < i ==> !EarlyWakeup(states[j], states[j + 1], steps[j])
    ensures Tight(states[i])
  {
    if i > 0 {
      RunIsTight(states, steps, threads, i - 1);
      RunKeepsInvariant(states, steps, threads, true, i - 1);
      assert Next(states[i - 1], states[i], steps[i - 1], true);
      NextIsTight(states[i - 1], states[i], steps[i - 1]);
    }
  }

  /** Out of the wait, for good: about to unlock the mutex, or done. */
  predicate Through(pc: Pc) {
    pc == Leaving || pc == Done
  }

  /** A thread is through the barrier while somebody is still to arrive. */
  ghost predicate Breach(s: State) {
    |s.arrivals| < |s.pcs| && exists t: nat :: t < |s.pcs| && Through(s.pcs[t])
  }

  /** Steps without spurious wakeups can lead from here to a breach. */
  ghost predicate CanBreach(s: State) {
    exists states, steps :: Path(states, steps, false) && states[0] == s && Breach(states[|steps|])
  }

  ghost predicate NoEarlyWakeup(states: seq<State>, steps: seq<nat>)
    requires |states| == |steps| + 1
  {
    forall i: nat :: i < |steps| ==> !EarlyWakeup(states[i], states[i + 1], steps[i])
  }

  lemma {:induction false} StepIsTight(s: State, s': State, t: nat)
    requires s.pcs != [] && Invariant(s) && Tight(s) && Next(s, s', t, false)
    ensures s'.pcs != [] && Invariant(s') && Tight(s')
  {
    NextKeepsInvariant(s, s', t, false);
    NextIsTight(s, s', t);
  }

  lemma {:induction false} PathIsTight(states: seq<State>, steps: seq<nat>, i: nat)
    requires Path(states, steps, false) && i < |states|
    requires states[0].pcs != [] && Invariant(states[0]) && Tight(states[0])
    ensures states[i].pcs != [] && Invariant(states[i]) && Tight(states[i])
  {
    if i > 0 {
      PathIsTight(states, steps, i - 1);
      StepIsTight(states[i - 1], states[i], steps[i - 1]);
    }
  }

  lemma {:induction false} OneStepMore(s: State, t: nat, states: seq<State>, steps: seq<nat>)
    requires Path(states, steps, false) && Next(s, states[0], t, false)
    ensures Path([s] + states, [t] + steps, false)
  {
    var states', steps' := [s] + states, [t] + steps;
    forall i | 0 <= i < |steps'| ensures Next(states'[i], states'[i + 1], steps'[i], false) {
      if i > 0 {
        assert Next(states[i - 1], states[i], steps[i - 1], false);
      }
    }
  }

  /** Whoever holds the mutex can go on, and comes closer to giving it back. */
  lemma {:induction false} HolderStep(s: State, t: nat) returns (h: nat, s': State)
    requires s.pcs != [] && Invariant(s) && t < |s.pcs| && s.pcs[t] == Woken && s.mutex.Some?
    ensures s.mutex == Some(h) && h < |s.pcs| && Step(s, h) == Some(s')
    ensures |s'.pcs| == |s.pcs| && Invariant(s') && s'.pcs[t] == Woken && s'.arrivals == s.arrivals
    ensures s'.mutex.None? || (s'.mutex == s.mutex && Rank(s'.pcs[h]) < Rank(s.pcs[h]))
  {
    h := s.mutex.value;
    assert MutexOk(s);
    s' := Step(s, h).value;
    StepKeepsInvariant(s, s', h);
  }

  /** A thread that has been woken up gets through, however few have arrived: whoever holds the mutex gives it
      back after some steps, and then the thread locks and unlocks it. */
  lemma {:induction false} WokenGetsThrough(s: State, t: nat) returns (states: seq<State>, steps: seq<nat>)
    requires s.pcs != [] && Invariant(s) && t < |s.pcs| && s.pcs[t] == Woken
    ensures Path(states, steps, false) && states[0] == s && states[|steps|].arrivals == s.arrivals
    ensures |states[|steps|].pcs| == |s.pcs| && states[|steps|].pcs[t] == Done
    decreases if s.mutex.Some? && s.mutex.value < |s.pcs| then Rank(s.pcs[s.mutex.value]) + 1 else 0
  {
    if s.mutex.Some? {
      var h, s' := HolderStep(s, t);
      var later, laterSteps := WokenGetsThrough(s', t);
      OneStepMore(s, h, later, laterSteps);
      states, steps := [s] + later, [h] + laterSteps;
    } else {
      var s1 := s.(pcs := s.pcs[t := Leaving], mutex := Some(t));
      var s2 := s1.(pcs := s1.pcs[t := Done], mutex := None);
      assert Next(s, s1, t, false) && Next(s1, s2, t, false);
      states, steps := [s, s1, s2], [t, t];
    }
  }

  /** Exactly from the states that are not tight, steps without spurious wakeups can lead to a breach. */
  lemma {:induction false} CanBreachUnlessTight(s: State)
    requires s.pcs != [] && Invariant(s)
    ensures CanBreach(s) <==> !Tight(s)
  {
    if Tight(s) {
      forall states, steps | Path(states, steps, false) && states[0] == s ensures !Breach(states[|steps|]) {
        PathIsTight(states, steps, |steps|);
        ArrivalsCounted(states[|steps|]);
      }
    } else {
      var t: nat :| t < |s.pcs| && Past(s.pcs[t]) && !EverybodyArrived(s);
      ArrivalsCounted(s);
      var states, steps := [s], [];
      if s.pcs[t] == Woken {
        states, steps := WokenGetsThrough(s, t);
      }
      assert Path(states, steps, false) && Through(states[|steps|].pcs[t]);
    }
  }

  /** A run has no early wakeup exactly if none of its states can be followed, without any more spurious
      wakeups, by a breach. */
  lemma {:induction false} BreachNeedsEarlyWakeup(states: seq<State>, steps: seq<nat>, threads: nat)
    requires Run(states, steps, threads, true)
    ensures NoEarlyWakeup(states, steps) <==> forall i: nat :: i < |states| ==> !CanBreach(states[i])
  {
    forall i: nat | i < |states|
      ensures states[i].pcs != [] && Invariant(states[i]) && (CanBreach(states[i]) <==> !Tight(states[i]))
    {
      RunKeepsInvariant(states, steps, threads, true, i);
      CanBreachUnlessTight(states[i]);
    }
    if NoEarlyWakeup(states, steps) {
      forall i: nat | i < |states| ensures !CanBreach(states[i]) {
        RunIsTight(states, steps, threads, i);
      }
    } else {
      var i: nat :| i < |steps| && EarlyWakeup(states[i], states[i + 1], steps[i]);
      EarlyIsNotTight(states[i], states[i + 1], steps[i]);
      assert CanBreach(states[i + 1]);
    }
  }

  lemma {:induction false} EarlyIsNotTight(s: State, s': State, t: nat)
    requires ArrivalsOk(s') && EarlyWakeup(s, s', t)
    ensures !Tight(s')
  {
    ArrivalsCounted(s');
    assert Past(s'.pcs[t]);
  }

  /** In no state of the run a thread is through the barrier before all threads and the main thread have arrived. */
  ghost predicate KeepsBarrier(states: seq<State>, threads: nat) {
    forall i: nat, t: nat :: i < |states| && t < |states[i].pcs| && Through(states[i].pcs[t]) ==>
      |states[i].arrivals| == threads + 1
  }

  /** Without early wakeups, nobody gets through the barrier before all have arrived. */
  lemma {:induction false} NoEarlyWakeupKeepsBarrier(states: seq<State>, steps: seq<nat>, threads: nat)
    requires Run(states, steps, threads, true) && NoEarlyWakeup(states, steps)
    ensures KeepsBarrier(states, threads) && forall i: nat :: i < |states| ==> Tight(states[i])
  {
    forall i: nat | i < |states| ensures Tight(states[i]) {
      RunIsTight(states, steps, threads, i);
    }
    forall i: nat, t: nat | i < |states| && t < |states[i].pcs| && Through(states[i].pcs[t])
      ensures |states[i].arrivals| == threads + 1
    {
      RunKeepsInvariant(states, steps, threads, true, i);
      ArrivalsCounted(states[i]);
    }
  }

  /** Without spurious wakeups, nobody passes the barrier before all have arrived. */
  lemma {:induction false} NobodyPassesEarly(states: seq<State>, steps: seq<nat>, threads: nat)
    requires Run(states, steps, threads, false)
    ensures KeepsBarrier(states, threads) && forall i: nat :: i < |states| ==> Tight(states[i])
  {
    forall i: nat | i < |steps|
      ensures Next(states[i], states[i + 1], steps[i], true) && !EarlyWakeup(states[i], states[i + 1], steps[i])
    {
      assert Next(states[i], states[i + 1], steps[i], false);
    }
    NoEarlyWakeupKeepsBarrier(states, steps, threads);
  }

  /** With a spurious wakeup, a thread can be through before the other one and the main thread have arrived. */
  lemma {:induction false} SpuriousWakeupBreaksBarrier() returns (states: seq<State>, steps: seq<nat>)
    ensures Run(states, steps, 2, true)
    ensures |states| == 7 && |states[6].pcs| == 3 && states[6].pcs[0] == Done && states[6].arrivals == [0]
  {
    var s0 := Init(2);
    var s1 := s0.(pcs := s0.pcs[0 := Entered], mutex := Some(0), arrivals := s0.arrivals + [0]);
    var s2 := s1.(pcs := s1.pcs[0 := Counted], n := 1);
    var s3 := s2.(pcs := s2.pcs[0 := Asleep], mutex := None);
    var s4 := s3.(pcs := s3.pcs[0 := Woken]);
    var s5 := s4.(pcs := s4.pcs[0 := Leaving], mutex := Some(0));
    var s6 := s5.(pcs := s5.pcs[0 := Done], mutex := None);
    assert Next(s0, s1, 0, true) && Next(s1, s2, 0, true) && Next(s2, s3, 0, true);
    assert Next(s3, s4, 0, true) && Next(s4, s5, 0, true) && Next(s5, s6, 0, true);
    states, steps := [s0, s1, s2, s3, s4, s5, s6], [0, 0, 0, 0, 0, 0];
  }
}
