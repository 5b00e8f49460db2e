/** Finding the choices that can be taken from B, one after the other or by bisection. */
module Bisect {
  type Name = string

  /** Whether the program passes when exactly these choices are taken from B. */
  type Test = set<Name> -> bool

  function Members(names: seq<Name>): set<Name> {
    set x | x in names
  }

  /** Taking fewer choices from B never makes a passing program fail. */
  ghost predicate Hereditary(test: Test) {
    forall s, t :: s <= t && test(t) ==> test(s)
  }

  /** The program fails exactly if a bad choice is taken. */
  ghost predicate FailsOn(test: Test, bad: set<Name>) {
    forall s :: test(s) <==> s * bad == {}
  }

  lemma {:induction false} BadChoicesAreHereditary(test: Test, bad: set<Name>)
    requires FailsOn(test, bad)
    ensures Hereditary(test)
  {
    forall s, t | s <= t && test(t) ensures test(s) {
      assert s * bad <= t * bad;
    }
  }

  /** The choices that pass on their own. */
  function Alone(names: seq<Name>, test: Test): set<Name> {
    set x | x in names && test({x})
  }

  method CheckSequentially(names: seq<Name>, test: Test) returns (knownGood: set<Name>)
    ensures knownGood == Alone(names, test)
  {
    knownGood := {};
    var n := 0;
    while n < |names|
      invariant n <= |names| && knownGood == Alone(names[..n], test)
    {
      if test({names[n]}) {
        knownGood := knownGood + {names[n]};
      }
      assert names[..n + 1] == names[..n] + [names[n]];
      n := n + 1;
    }
    assert names[..n] == names;
  }

  // ---- how many tests are left ----

  /** The tests it can take to split partitions that have failed. */
  function SplitTests(partitions: seq<seq<Name>>): int {
    if partitions == [] then 0 else (|partitions[0]| - 1) * 2 + SplitTests(partitions[1..])
  }

  /** The tests it can take to bisect `n` names. */
  function MostTests(n: nat): int {
    if n <= 1 then n else n * 2 - 2
  }

  lemma {:induction false} SplitTestsConcat(a: seq<seq<Name>>, b: seq<seq<Name>>)
    ensures SplitTests(a + b) == SplitTests(a) + SplitTests(b)
  {
    if a == [] {
      assert a + b == b;
    } else {
      assert (a + b)[1..] == a[1..] + b;
      SplitTestsConcat(a[1..], b);
    }
  }

  /** Every announced bound covers the tests done since then, and `more` tests to come. */
  ghost predicate Bounded(log: seq<int>, more: int) {
    forall k :: 0 <= k < |log| ==> |log| - k + more <= log[k]
  }

  /** One more test, announced with its own cost, what follows it, and what waits. */
  lemma {:induction false} Announced(log: seq<int>, split: int, split': int, cost: int, more: int)
    requires split' <= split + cost - 1
    ensures Bounded(log, split + cost + more) ==> Bounded(log + [cost + more + split], split' + more)
    ensures split' == split + cost - 1 && Exact(log, split + cost + more) ==>
              Exact(log + [cost + more + split], split' + more)
  {
  }

  ghost predicate Exact(log: seq<int>, more: int) {
    forall k :: 0 <= k < |log| ==> |log| - k + more == log[k]
  }

  /** The tests it can take for the partition that is to be tested next. */
  function Upcoming(upcoming: seq<Name>): int {
    if upcoming != [] then |upcoming| * 2 - 1 else 0
  }

  predicate WaitsIn(partitions: seq<seq<Name>>, x: Name) {
    exists i :: 0 <= i < |partitions| && x in partitions[i]
  }

  class Bisector {
    const test: Test
    var knownGood: set<Name>
    var partitionsToSplit: seq<seq<Name>>
    /** The bounds announced so far, one for each test. */
    var log: seq<int>

    constructor (test: Test)
      ensures this.test == test && knownGood == {} && partitionsToSplit == [] && log == []
    {
      this.test := test;
      knownGood, partitionsToSplit, log := {}, [], [];
    }

    /** A name is known to be good, waits in a partition, is still to be tested, or fails on its own. */
    ghost predicate Settled(names: seq<Name>, untested: set<Name>)
      reads this
    {
      forall x :: x in names ==> x in knownGood || WaitsIn(partitionsToSplit, x) || x in untested || !test({x})
    }

    ghost predicate Sound(names: seq<Name>)
      reads this
    {
      && (forall x :: x in knownGood ==> x in names) && (Hereditary(test) ==> forall x :: x in knownGood ==> test({x}))
      && forall i :: 0 <= i < |partitionsToSplit| ==>
           partitionsToSplit[i] != [] && forall x :: x in partitionsToSplit[i] ==> x in names
    }

    /** The maximum number of tests that are still to be done, which is announced before each test. */
    method MaxRemainingSteps(partition: seq<Name>, upcoming: seq<Name>) returns (maxRemainingSteps: int)
      ensures maxRemainingSteps == |partition| * 2 - 1 + Upcoming(upcoming) + SplitTests(partitionsToSplit)
    {
      maxRemainingSteps := |partition| * 2 - 1;
      if upcoming != [] {
        maxRemainingSteps := maxRemainingSteps + |upcoming| * 2 - 1;
      }
      var n := 0;
      while n < |partitionsToSplit|
        invariant n <= |partitionsToSplit|
        invariant maxRemainingSteps == |partition| * 2 - 1 + Upcoming(upcoming) + SplitTests(partitionsToSplit[..n])
      {
        SplitTestsConcat(partitionsToSplit[..n], [partitionsToSplit[n]]);
        assert partitionsToSplit[..n + 1] == partitionsToSplit[..n] + [partitionsToSplit[n]];
        maxRemainingSteps := maxRemainingSteps + (|partitionsToSplit[n]| - 1) * 2;
        n := n + 1;
      }
      assert partitionsToSplit[..n] == partitionsToSplit;
    }

    /** Tests a partition; `upcoming` is the one to be tested next. */
    method TestPartition(partition: seq<Name>, upcoming: seq<Name>, ghost names: seq<Name>)
      requires partition != [] && (forall x :: x in partition ==> x in names)
      requires Settled(names, Members(partition) + Members(upcoming)) && Sound(names)
      modifies this`knownGood, this`partitionsToSplit, this`log
      ensures Settled(names, Members(upcoming)) && Sound(names)
      ensures log == old(log) + [|partition| * 2 - 1 + Upcoming(upcoming) + SplitTests(old(partitionsToSplit))]
      ensures partitionsToSplit ==
                Queued(partition, !test(Members(partition)) && |partition| > 1, old(partitionsToSplit))
      ensures SplitTests(partitionsToSplit) <= old(SplitTests(partitionsToSplit)) + (|partition| - 1) * 2
      ensures AlwaysFails(test) ==>
                SplitTests(partitionsToSplit) == old(SplitTests(partitionsToSplit)) + (|partition| - 1) * 2
      ensures Weight(partitionsToSplit) <= old(Weight(partitionsToSplit))
                + if |partition| > 1 then |partition| * 2 - 1 else 0
      ensures old(Bounded(log, SplitTests(partitionsToSplit) + |partition| * 2 - 1 + Upcoming(upcoming))) ==>
                Bounded(log, SplitTests(partitionsToSplit) + Upcoming(upcoming))
      ensures AlwaysFails(test)
              && old(Exact(log, SplitTests(partitionsToSplit) + |partition| * 2 - 1 + Upcoming(upcoming))) ==>
                Exact(log, SplitTests(partitionsToSplit) + Upcoming(upcoming))
    {
      var maxRemainingSteps := MaxRemainingSteps(partition, upcoming);
      ghost var split := SplitTests(partitionsToSplit);
      QueuedCounts(partition, !test(Members(partition)) && |partition| > 1, partitionsToSplit);
      Announced(log, split,
                SplitTests(Queued(partition, !test(Members(partition)) && |partition| > 1, partitionsToSplit)),
                |partition| * 2 - 1, Upcoming(upcoming));
      log := log + [maxRemainingSteps];
      Conclude(partition, upcoming, names, test(Members(partition)));
    }

    /** What follows from the outcome of a test. */
    method Conclude(partition: seq<Name>, ghost upcoming: seq<Name>, ghost names: seq<Name>, res: bool)
      requires partition != [] && (forall x :: x in partition ==> x in names) && res == test(Members(partition))
      requires Settled(names, Members(partition) + Members(upcoming)) && Sound(names)
      modifies this`knownGood, this`partitionsToSplit
      ensures Settled(names, Members(upcoming)) && Sound(names)
      ensures partitionsToSplit == Queued(partition, !res && |partition| > 1, old(partitionsToSplit))
    {
      ghost var waiting := partitionsToSplit;
      if res {
        knownGood := knownGood + Members(partition);
        assert [] + partitionsToSplit == partitionsToSplit;
        assert forall x :: x in partition ==> {x} <= Members(partition);
      } else if |partition| > 1 {
        partitionsToSplit := [partition] + partitionsToSplit;
        assert partitionsToSplit[0] == partition;
        assert forall i :: 0 <= i < |waiting| ==> waiting[i] == partitionsToSplit[i + 1];
      } else {
        assert [] + partitionsToSplit == partitionsToSplit;
        assert Members(partition) == {partition[0]};
      }
    }

    /** Tests the halves of a partition that has failed. */
    method TestHalves(left: seq<Name>, right: seq<Name>, ghost names: seq<Name>)
      requires right != [] && (left == [] ==> log == [] && |right| == 1)
      requires (forall x :: x in left + right ==> x in names)
      requires Settled(names, Members(left) + Members(right)) && Sound(names) && AllLong(partitionsToSplit)
      modifies this`knownGood, this`partitionsToSplit, this`log
      ensures Settled(names, {}) && Sound(names) && AllLong(partitionsToSplit) && log != []
      ensures |log| + SplitTests(partitionsToSplit)
           <= old(|log| + SplitTests(partitionsToSplit)) + MostTests(|left| + |right|)
      ensures AlwaysFails(test) ==>
                |log| + SplitTests(partitionsToSplit) ==
                old(|log| + SplitTests(partitionsToSplit)) + MostTests(|left| + |right|)
      ensures Weight(partitionsToSplit) <= old(Weight(partitionsToSplit)) + |left| * 2 + |right| * 2 - 2
      ensures old(Bounded(log, SplitTests(partitionsToSplit) + (|left| + |right| - 1) * 2)) ==>
                Bounded(log, SplitTests(partitionsToSplit))
      ensures AlwaysFails(test) && old(Exact(log, SplitTests(partitionsToSplit) + (|left| + |right| - 1) * 2)) ==>
                Exact(log, SplitTests(partitionsToSplit))
    {
      if |left| > 0 {
        assert forall x :: x in left ==> x in left + right;
        TestPartition(left, right, names);
      }
      assert forall x :: x in right ==> x in left + right;
      assert Members([]) == {};
      TestPartition(right, [], names);
    }

    /** A partition that has failed, or the first one if that has a single name. */
    ghost predicate ToBeSplit()
      reads this
    {
      AllLong(partitionsToSplit) || (log == [] && |partitionsToSplit| == 1)
    }

    /** Takes the last partition and tests its halves. */
    method SplitLast(ghost names: seq<Name>)
      requires partitionsToSplit != [] && Settled(names, {}) && Sound(names) && ToBeSplit()
      modifies this`knownGood, this`partitionsToSplit, this`log
      ensures Settled(names, {}) && Sound(names) && AllLong(partitionsToSplit) && log != []
      ensures Weight(partitionsToSplit) < old(Weight(partitionsToSplit))
      ensures var one := if |old(partitionsToSplit[|partitionsToSplit| - 1])| == 1 then 1 else 0;
              && |log| + SplitTests(partitionsToSplit) <= old(|log| + SplitTests(partitionsToSplit)) + one
              && (AlwaysFails(test) ==>
                    |log| + SplitTests(partitionsToSplit) == old(|log| + SplitTests(partitionsToSplit)) + one)
      ensures old(Bounded(log, SplitTests(partitionsToSplit))) ==> Bounded(log, SplitTests(partitionsToSplit))
      ensures AlwaysFails(test) && old(Exact(log, SplitTests(partitionsToSplit))) ==>
                Exact(log, SplitTests(partitionsToSplit))
    {
      ghost var queue := partitionsToSplit;
      var last := |partitionsToSplit| - 1;
      var partition := partitionsToSplit[last];
      partitionsToSplit := partitionsToSplit[..last];
      assert queue == partitionsToSplit + [partition];
      SplitTestsConcat(partitionsToSplit, [partition]);
      WeightConcat(partitionsToSplit, [partition]);
      OnePartition(partition);
      var middle := |partition| / 2;
      var left := partition[0..middle];
      var right := partition[middle..];
      assert left + right == partition;
      PoppedSettled(queue, partition, left, right);
      assert |right| > 0;
      TestHalves(left, right, names);
    }

    /** Bisects until no partition is left to be split. However the tests come out, it ends, every name that
        passes on its own is found, and the bounds announced hold, as does the one on the number of tests;
        they are exact if all tests fail. */
    method CheckBisect(names: seq<Name>)
      requires knownGood == {} && partitionsToSplit == [] && log == []
      modifies this
      ensures Alone(names, test) <= knownGood <= Members(names)
      ensures Hereditary(test) ==> knownGood == Alone(names, test)
      ensures Bounded(log, 0) && (AlwaysFails(test) ==> Exact(log, 0))
      ensures |log| <= MostTests(|names|) && (AlwaysFails(test) ==> |log| == MostTests(|names|))
    {
      if |names| == 0 {
        return;
      }
      partitionsToSplit := [names];
      assert partitionsToSplit[0] == names;
      while |partitionsToSplit| > 0
        invariant Settled(names, {}) && Sound(names)
        invariant ToBeSplit()
        invariant log == [] ==> partitionsToSplit == [names]
        invariant log != [] ==> |log| + SplitTests(partitionsToSplit) <= MostTests(|names|)
        invariant log != [] && AlwaysFails(test) ==> |log| + SplitTests(partitionsToSplit) == MostTests(|names|)
        invariant Bounded(log, SplitTests(partitionsToSplit))
        invariant AlwaysFails(test) ==> Exact(log, SplitTests(partitionsToSplit))
        decreases Weight(partitionsToSplit)
      {
        SplitLast(names);
      }
      assert forall x :: x in Alone(names, test) ==> x in names && test({x});
    }
  }

  /** What is in the popped partition is in one of its halves. */
  lemma {:induction false} PoppedSettled(queue: seq<seq<Name>>, partition: seq<Name>, left: seq<Name>, right: seq<Name>)
    requires queue != [] && queue[|queue| - 1] == partition == left + right
    ensures forall x :: WaitsIn(queue, x) ==> WaitsIn(queue[..|queue| - 1], x) || x in Members(left) + Members(right)
  {
    var rest := queue[..|queue| - 1];
    forall x | WaitsIn(queue, x) ensures WaitsIn(rest, x) || x in Members(left) + Members(right) {
      var i :| 0 <= i < |queue| && x in queue[i];
      if i < |queue| - 1 {
        assert rest[i] == queue[i];
      }
    }
  }

  ghost predicate AlwaysFails(test: Test) {
    forall s :: !test(s)
  }

  predicate AllLong(partitions: seq<seq<Name>>) {
    forall i :: 0 <= i < |partitions| ==> |partitions[i]| > 1
  }

  /** Decreases whenever a partition is split. */
  function Weight(partitions: seq<seq<Name>>): nat {
    if partitions == [] then 0
    else
      (if partitions[0] == [] then 0 else |partitions[0]| * 2 - 1) + Weight(partitions[1..])
  }

  lemma {:induction false} OnePartition(p: seq<Name>)
    requires p != []
    ensures SplitTests([p]) == (|p| - 1) * 2 && Weight([p]) == |p| * 2 - 1
  {
    assert [p][1..] == [];
  }

  /** A partition put into the queue if it has failed. */
  function Queued(p: seq<Name>, failed: bool, queue: seq<seq<Name>>): seq<seq<Name>> {
    (if failed then [p] else []) + queue
  }

  lemma {:induction false} QueuedCounts(p: seq<Name>, failed: bool, queue: seq<seq<Name>>)
    requires p != []
    ensures SplitTests(Queued(p, failed, queue)) == SplitTests(queue) + if failed then (|p| - 1) * 2 else 0
    ensures Weight(Queued(p, failed, queue)) == Weight(queue) + if failed then |p| * 2 - 1 else 0
  {
    if failed {
      OnePartition(p);
      SplitTestsConcat([p], queue);
      WeightConcat([p], queue);
    } else {
      assert [] + queue == queue;
    }
  }

  lemma {:induction false} WeightConcat(a: seq<seq<Name>>, b: seq<seq<Name>>)
    ensures Weight(a + b) == Weight(a) + Weight(b)
  {
    if a == [] {
      assert a + b == b;
    } else {
      assert (a + b)[1..] == a[1..] + b;
      WeightConcat(a[1..], b);
    }
  }

  /** For tests that fail exactly if a bad choice is taken, both ways find the same choices: those that are not bad. */
  method CheckBothWays(names: seq<Name>, test: Test, ghost bad: set<Name>) returns (good: set<Name>)
    requires FailsOn(test, bad)
    ensures good == set x | x in names && x !in bad
  {
    BadChoicesAreHereditary(test, bad);
    forall x: Name ensures test({x}) <==> x !in bad {
      assert test({x}) <==> {x} * bad == {};
      assert x in bad ==> x in {x} * bad;
    }
    var sequential := CheckSequentially(names, test);
    var bisector := new Bisector(test);
    bisector.CheckBisect(names);
    assert bisector.knownGood == sequential;
    good := bisector.knownGood;
  }
}
