/** Aligning the blocks that several outputs have in common by inserting empty blocks. */
module McaAlign {
  /** A block of text; the empty block fills gaps. */
  type Block = string

  type Key = string

  // ---- lists of blocks ----

  function NonEmpty(blocks: seq<Block>): seq<Block> {
    if blocks == [] then [] else (if blocks[0] == "" then [] else [blocks[0]]) + NonEmpty(blocks[1..])
  }

  function Filler(n: nat): seq<Block> {
    seq(n, i => "")
  }

  /** The number of adjacent blocks that are both not empty. */
  function Pairs(blocks: seq<Block>): nat {
    if |blocks| < 2 then 0
    else (if blocks[0] != "" && blocks[1] != "" then 1 else 0) + Pairs(blocks[1..])
  }

  function FirstIndex(blocks: seq<Block>, b: Block): (i: nat)
    requires b in blocks
    ensures i < |blocks| && blocks[i] == b && forall j :: 0 <= j < i ==> blocks[j] != b
  {
    if blocks[0] == b then 0 else 1 + FirstIndex(blocks[1..], b)
  }

  lemma {:induction false} NonEmptyConcat(a: seq<Block>, b: seq<Block>)
    ensures NonEmpty(a + b) == NonEmpty(a) + NonEmpty(b)
  {
    if a == [] {
      assert a + b == b;
    } else {
      assert (a + b)[1..] == a[1..] + b;
      NonEmptyConcat(a[1..], b);
    }
  }

  lemma {:induction false} NonEmptyFiller(n: nat)
    ensures NonEmpty(Filler(n)) == []
  {
    if n > 0 {
      assert Filler(n)[1..] == Filler(n - 1);
      NonEmptyFiller(n - 1);
    }
  }

  lemma {:induction false} PairsConcat(a: seq<Block>, b: seq<Block>)
    requires a != [] && b != []
    ensures Pairs(a + b) == Pairs(a) + Pairs(b) + if a[|a| - 1] != "" && b[0] != "" then 1 else 0
  {
    assert (a + b)[1..] == a[1..] + b;
    if |a| == 1 {
      assert a[1..] + b == b;
    } else {
      PairsConcat(a[1..], b);
    }
  }

  lemma {:induction false} PairsFiller(n: nat)
    ensures Pairs(Filler(n)) == 0
  {
    if n > 1 {
      assert Filler(n)[1..] == Filler(n - 1);
      PairsFiller(n - 1);
    }
  }

  /** `n` empty blocks inserted before index `i`. */
  function Inserted(blocks: seq<Block>, i: nat, n: nat): seq<Block>
    requires i <= |blocks|
  {
    blocks[..i] + Filler(n) + blocks[i..]
  }

  predicate AdjacentAt(blocks: seq<Block>, i: nat) {
    0 < i < |blocks| && blocks[i - 1] != "" && blocks[i] != ""
  }

  /** Inserting between two blocks that are not empty takes away exactly one pair, and no block. */
  lemma {:induction false} InsertedCounts(blocks: seq<Block>, i: nat, n: nat)
    requires AdjacentAt(blocks, i) && n > 0
    ensures NonEmpty(Inserted(blocks, i, n)) == NonEmpty(blocks)
    ensures Pairs(Inserted(blocks, i, n)) == Pairs(blocks) - 1
  {
    var a, f, b := blocks[..i], Filler(n), blocks[i..];
    assert blocks == a + b;
    NonEmptyConcat(a, b);
    NonEmptyConcat(a + f, b);
    NonEmptyConcat(a, f);
    NonEmptyFiller(n);
    PairsConcat(a, b);
    PairsConcat(a + f, b);
    PairsConcat(a, f);
    PairsFiller(n);
  }

  /** Inserting moves no block to the left. */
  lemma {:induction false} InsertedFirstIndex(blocks: seq<Block>, i: nat, n: nat, b: Block)
    requires i <= |blocks| && b in blocks && b != ""
    ensures b in Inserted(blocks, i, n) && FirstIndex(Inserted(blocks, i, n), b) >= FirstIndex(blocks, b)
  {
    var after, k := Inserted(blocks, i, n), FirstIndex(blocks, b);
    assert after[if k < i then k else k + n] == b;
    forall j | 0 <= j < k ensures after[j] != b {
      assert after[j] == if j < i then blocks[j] else if j < i + n then "" else blocks[j - n];
    }
  }

  // ---- all lists ----

  datatype State = State(keys: seq<Key>, lists: map<Key, seq<Block>>, farthest: map<Block, nat>)

  ghost predicate Ok(s: State) {
    && (forall k :: k in s.keys <==> k in s.lists)
    && (forall i, j :: 0 <= i < j < |s.keys| ==> s.keys[i] != s.keys[j])
  }

  function Far(farthest: map<Block, nat>, b: Block): nat {
    if b in farthest then farthest[b] else 0
  }

  ghost predicate CoversAt(farthest: map<Block, nat>, blocks: seq<Block>, b: Block) {
    b != "" && b in blocks ==> FirstIndex(blocks, b) <= Far(farthest, b)
  }

  /** No list has a block's first occurrence farther than recorded. */
  ghost predicate Covers(s: State) {
    forall k, b :: k in s.lists ==> CoversAt(s.farthest, s.lists[k], b)
  }

  /** Some list has the block's first occurrence as far as recorded. */
  ghost predicate ReachedAt(s: State, b: Block) {
    Far(s.farthest, b) == 0 || exists k ::
        k in s.lists && b in s.lists[k] && FirstIndex(s.lists[k], b) >= Far(s.farthest, b)
  }

  ghost predicate Reached(s: State) {
    forall b :: b != "" ==> ReachedAt(s, b)
  }

  /** Every block that follows a block is where it should be, or beyond. */
  ghost predicate AlignedList(farthest: map<Block, nat>, blocks: seq<Block>) {
    forall i: nat :: AdjacentAt(blocks, i) ==> i >= Far(farthest, blocks[i])
  }

  ghost predicate Aligned(s: State) {
    forall k :: k in s.lists ==> AlignedList(s.farthest, s.lists[k])
  }

  function TotalPairs(keys: seq<Key>, lists: map<Key, seq<Block>>): nat
    requires forall k :: k in keys ==> k in lists
  {
    if keys == [] then 0 else Pairs(lists[keys[0]]) + TotalPairs(keys[1..], lists)
  }

  lemma {:induction false} TotalUnchanged(keys: seq<Key>, lists: map<Key, seq<Block>>, k: Key, blocks: seq<Block>)
    requires k !in keys && forall x :: x in keys ==> x in lists
    ensures TotalPairs(keys, lists[k := blocks]) == TotalPairs(keys, lists)
  {
    if keys != [] {
      TotalUnchanged(keys[1..], lists, k, blocks);
    }
  }

  lemma {:induction false} TotalChanged(keys: seq<Key>, lists: map<Key, seq<Block>>, k: Key, blocks: seq<Block>)
    requires k in keys && forall x :: x in keys ==> x in lists
    requires forall i, j :: 0 <= i < j < |keys| ==> keys[i] != keys[j]
    ensures TotalPairs(keys, lists[k := blocks]) == TotalPairs(keys, lists) - Pairs(lists[k]) + Pairs(blocks)
  {
    if keys[0] == k {
      TotalUnchanged(keys[1..], lists, k, blocks);
    } else {
      TotalChanged(keys[1..], lists, k, blocks);
    }
  }

  /** One alignment step: empty blocks inserted in one list, between two blocks that are not empty,
      so that the second of them gets to its farthest index. */
  ghost predicate Shunted(s: State, s': State, k: Key, i: nat) {
    && k in s.lists && AdjacentAt(s.lists[k], i) && i < Far(s.farthest, s.lists[k][i])
    && s'.keys == s.keys && s'.farthest == s.farthest
    && s'.lists == s.lists[k := Inserted(s.lists[k], i, Far(s.farthest, s.lists[k][i]) - i)]
  }

  lemma {:induction false} ShuntedKeeps(s: State, s': State, k: Key, i: nat)
    requires Ok(s) && Shunted(s, s', k, i)
    ensures Ok(s') && TotalPairs(s'.keys, s'.lists) == TotalPairs(s.keys, s.lists) - 1
    ensures forall x :: x in s.lists ==> NonEmpty(s'.lists[x]) == NonEmpty(s.lists[x])
    ensures Reached(s) ==> Reached(s')
  {
    var n := Far(s.farthest, s.lists[k][i]) - i;
    InsertedCounts(s.lists[k], i, n);
    TotalChanged(s.keys, s.lists, k, Inserted(s.lists[k], i, n));
    if Reached(s) {
      forall b | b != "" ensures ReachedAt(s', b) {
        assert ReachedAt(s, b);
        if Far(s.farthest, b) != 0 {
          var x :| x in s.lists && b in s.lists[x] && FirstIndex(s.lists[x], b) >= Far(s.farthest, b);
          if x == k {
            InsertedFirstIndex(s.lists[k], i, n, b);
          }
          assert x in s'.lists && b in s'.lists[x];
        }
      }
    }
  }

  /** In the end the recorded index of a block is the largest index at which it first occurs in a list. */
  lemma {:induction false} FarthestIsLargest(s: State, b: Block, k: Key)
    requires Covers(s) && Reached(s) && b != "" && k in s.lists && b in s.lists[k]
    ensures FirstIndex(s.lists[k], b) <= Far(s.farthest, b)
    ensures exists x :: x in s.lists && b in s.lists[x] && FirstIndex(s.lists[x], b) == Far(s.farthest, b)
  {
    assert CoversAt(s.farthest, s.lists[k], b) && ReachedAt(s, b);
    if Far(s.farthest, b) == 0 {
      assert FirstIndex(s.lists[k], b) == Far(s.farthest, b);
    } else {
      var x :| x in s.lists && b in s.lists[x] && FirstIndex(s.lists[x], b) >= Far(s.farthest, b);
      assert CoversAt(s.farthest, s.lists[x], b);
    }
  }

  class Aligner {
    /** The dictionary of block lists in insertion order, and the dictionary of farthest indexes. */
    var keys: seq<Key>
    var lists: map<Key, seq<Block>>
    var farthest: map<Block, nat>

    ghost function S(): State
      reads this
    {
      State(keys, lists, farthest)
    }

    constructor ()
      ensures keys == [] && lists == map[] && farthest == map[]
    {
      keys, lists, farthest := [], map[], map[];
    }

    /** The farthest-block analysis. */
    method Analyse()
      requires Ok(S())
      modifies this`farthest
      ensures Covers(S()) && (old(Reached(S())) ==> Reached(S()))
      ensures forall b :: Far(old(farthest), b) <= Far(farthest, b)
    {
      var n := 0;
      while n < |keys|
        invariant n <= |keys|
        invariant forall m, b :: 0 <= m < n ==> CoversAt(farthest, lists[keys[m]], b)
        invariant old(Reached(S())) ==> Reached(S())
        invariant forall b :: Far(old(farthest), b) <= Far(farthest, b)
      {
        ghost var f := farthest;
        AnalyseList(keys[n]);
        forall m, b | 0 <= m < n ensures CoversAt(farthest, lists[keys[m]], b) {
          assert CoversAt(f, lists[keys[m]], b);
        }
        n := n + 1;
      }
      forall k, b | k in lists ensures CoversAt(farthest, lists[k], b) {
        var m :| 0 <= m < |keys| && keys[m] == k;
        assert CoversAt(farthest, lists[keys[m]], b);
      }
    }

    method AnalyseList(k: Key)
      requires k in lists
      modifies this`farthest
      ensures forall b :: CoversAt(farthest, lists[k], b)
      ensures forall b :: Far(old(farthest), b) <= Far(farthest, b)
      ensures old(Reached(S())) ==> Reached(S())
    {
      var blocks, n := lists[k], 0;
      while n < |blocks|
        invariant n <= |blocks|
        invariant forall m :: 0 <= m < n ==> CoversAt(farthest, blocks, blocks[m])
        invariant forall b :: Far(old(farthest), b) <= Far(farthest, b)
        invariant old(Reached(S())) ==> Reached(S())
      {
        var block := blocks[n];
        if block != "" {
          var index := FirstIndex(blocks, block);
          ghost var s := S();
          if index > Far(farthest, block) {
            farthest := farthest[block := index];
          }
          if Reached(s) {
            forall b | b != "" ensures ReachedAt(S(), b) {
              assert ReachedAt(s, b);
            }
          }
        }
        n := n + 1;
      }
      forall b ensures CoversAt(farthest, blocks, b) {
        if b in blocks {
          var m :| 0 <= m < |blocks| && blocks[m] == b;
          assert CoversAt(farthest, blocks, blocks[m]);
        }
      }
    }

    /** Moves the first block found that is not as far as it should be. */
    method Shunt() returns (changed: bool, ghost k: Key, ghost i: nat)
      requires Ok(S())
      modifies this`lists
      ensures changed ==> Shunted(old(S()), S(), k, i)
      ensures !changed ==> S() == old(S()) && Aligned(S())
    {
      var n := 0;
      while n < |keys|
        invariant n <= |keys| && S() == old(S())
        invariant forall m :: 0 <= m < n ==> AlignedList(farthest, lists[keys[m]])
      {
        changed, i := ShuntList(keys[n]);
        if changed {
          k := keys[n];
          return;
        }
        n := n + 1;
      }
      changed, k, i := false, "", 0;
      forall x | x in lists ensures AlignedList(farthest, lists[x]) {
        var m :| 0 <= m < |keys| && keys[m] == x;
        assert AlignedList(farthest, lists[keys[m]]);
      }
    }

    method ShuntList(k: Key) returns (changed: bool, ghost i: nat)
      requires k in lists
      modifies this`lists
      ensures changed ==> Shunted(old(S()), S(), k, i)
      ensures !changed ==> S() == old(S()) && AlignedList(farthest, lists[k])
    {
      var blocks, n := lists[k], 0;
      while n < |blocks|
        invariant n <= |blocks| && S() == old(S())
        invariant forall m: nat :: AdjacentAt(blocks, m) && m < n ==> m >= Far(farthest, blocks[m])
      {
        var block := blocks[n];
        if block != "" && n > 0 && blocks[n - 1] != "" {
          var index, after := n, blocks;
          while index < Far(farthest, block)
            invariant n <= index <= |after| && after == Inserted(blocks, n, index - n)
            invariant n < Far(farthest, block) ==> index <= Far(farthest, block)
            invariant n >= Far(farthest, block) ==> index == n
            invariant S() == old(S())
          {
            after := after[..index] + [""] + after[index..];
            InsertOneMore(blocks, n, index);
            index := index + 1;
          }
          if index > n {
            lists := lists[k := after];
            return true, n;
          }
        }
        n := n + 1;
      }
      return false, 0;
    }

    /** One call of the alignment: a change takes away exactly one pair of adjacent blocks. */
    method AlignMatchingBlocks() returns (changed: bool)
      requires Ok(S())
      modifies this`lists, this`farthest
      ensures Ok(S()) && keys == old(keys) && Covers(old(S()).(farthest := farthest))
      ensures old(Reached(S())) ==> Reached(S())
      ensures Hold(lists, old(lists))
      ensures TotalPairs(keys, lists) == old(TotalPairs(keys, lists)) - if changed then 1 else 0
      ensures !changed ==> lists == old(lists) && Covers(S()) && Aligned(S())
      ensures changed ==> Step(old(S()), S())
      ensures forall b :: Far(old(farthest), b) <= Far(farthest, b)
    {
      ghost var s0 := S();
      Analyse();
      ghost var s := S();
      ghost var k, i;
      changed, k, i := Shunt();
      if changed {
        ShuntedKeeps(s, S(), k, i);
        assert s == s0.(farthest := farthest);
      }
    }

    /** Aligns until there is nothing left to do, which happens on all inputs. The lists change by
        alignment steps only. */
    method AlignFully() returns (ghost trace: seq<State>)
      requires Ok(S())
      modifies this`lists, this`farthest
      ensures Ok(S()) && keys == old(keys) && Covers(S()) && Aligned(S())
      ensures old(Reached(S())) ==> Reached(S())
      ensures Hold(lists, old(lists)) && Leads(old(S()), trace, S())
    {
      var madeChanges := true;
      trace := [S()];
      while madeChanges
        invariant Ok(S()) && keys == old(keys) && (old(Reached(S())) ==> Reached(S()))
        invariant Hold(lists, old(lists)) && Leads(old(S()), trace, S())
        invariant madeChanges ==> trace[|trace| - 1] == S()
        invariant !madeChanges ==> Covers(S()) && Aligned(S())
        decreases TotalPairs(keys, lists), madeChanges
      {
        madeChanges := AlignMatchingBlocks();
        if madeChanges {
          LeadsOn(old(S()), trace, S());
          trace := trace + [S()];
        }
      }
    }

    /** The output of one more run is added, and everything is aligned. Every list still begins as its
        output did, and a list on its own is left as it is. */
    method AddRun(key: Key, output: seq<Block>, ghost outputs: map<Key, seq<Block>>) returns (ghost trace: seq<State>)
      requires Ok(S()) && Hold(lists, outputs) && BeginAlike(lists, outputs)
      modifies this
      ensures Ok(S()) && Covers(S()) && Aligned(S()) && Hold(lists, outputs[key := output])
      ensures key !in outputs && old(Reached(S())) ==> Reached(S())
      ensures trace != [] && Steps(trace) && trace[0].lists == old(lists)[key := output] && Final(trace) == lists
      ensures BeginAlike(lists, outputs[key := output])
      ensures old(keys == [] && farthest == map[]) ==> lists == old(lists)[key := output]
    {
      PutAlike(lists, outputs, key, output);
      Put(key, output);
      trace := AlignAdded(outputs[key := output]);
    }

    method AlignAdded(ghost outputs: map<Key, seq<Block>>) returns (ghost trace: seq<State>)
      requires Ok(S()) && Hold(lists, outputs) && BeginAlike(lists, outputs)
      modifies this`lists, this`farthest
      ensures Ok(S()) && Covers(S()) && Aligned(S()) && Hold(lists, outputs) && BeginAlike(lists, outputs)
      ensures old(Reached(S())) ==> Reached(S())
      ensures trace != [] && Steps(trace) && trace[0] == old(S()) && Final(trace) == lists
      ensures |old(keys)| == 1 && old(farthest == map[]) ==> lists == old(lists)
    {
      ghost var s := S();
      trace := AlignFully();
      HoldTwice(s.lists, lists, outputs);
      LedBeginsAlike(s, trace, S(), outputs);
      if |s.keys| == 1 && s.farthest == map[] {
        SingleIsLeft(s, trace, S());
      }
    }

    method Put(key: Key, output: seq<Block>)
      requires Ok(S())
      modifies this`keys, this`lists
      ensures Ok(S()) && lists == old(lists)[key := output] && (old(keys) == [] ==> |keys| == 1)
      ensures key !in old(lists) && old(Reached(S())) ==> Reached(S())
    {
      ghost var s := S();
      if key !in lists {
        keys := keys + [key];
      }
      lists := lists[key := output];
      if key !in s.lists && Reached(s) {
        NewListReached(s, S(), key, output);
      }
    }

    /** The loop over all runs. */
    method AlignRuns(runs: seq<(Key, seq<Block>)>) returns (ghost traces: seq<seq<State>>)
      requires keys == [] && lists == map[] && farthest == map[]
      modifies this
      ensures Ok(S()) && (runs != [] ==> Covers(S()) && Aligned(S()))
      ensures Hold(lists, LastOutputs(runs)) && (DistinctKeys(runs) ==> Reached(S()))
      ensures BeginAlike(lists, LastOutputs(runs)) && (|runs| == 1 ==> lists == map[runs[0].0 := runs[0].1])
      ensures TracesOf(runs, traces, lists)
    {
      var n := 0;
      traces := [];
      ghost var outputs := map[];
      while n < |runs|
        invariant n <= |runs| && Ok(S()) && (n > 0 ==> Covers(S()) && Aligned(S()))
        invariant outputs == LastOutputs(runs[..n]) && Hold(lists, outputs) && BeginAlike(lists, outputs)
        invariant DistinctKeys(runs) ==> Reached(S())
        invariant n == 0 ==> keys == [] && lists == map[] && farthest == map[]
        invariant n == 1 ==> lists == map[runs[0].0 := runs[0].1]
        invariant TracesOf(runs[..n], traces, lists)
      {
        ghost var before := lists;
        LastOutputsNext(runs, n);
        ghost var trace := AddRun(runs[n].0, runs[n].1, outputs);
        TracesNext(runs, n, traces, before, trace, lists);
        traces, outputs := traces + [trace], outputs[runs[n].0 := runs[n].1];
        n := n + 1;
      }
      assert runs[..n] == runs;
    }
  }

  /** The lists have the blocks of these outputs, with empty ones among them. */
  ghost predicate Hold(lists: map<Key, seq<Block>>, outputs: map<Key, seq<Block>>) {
    lists.Keys == outputs.Keys && forall k :: k in lists ==> NonEmpty(lists[k]) == NonEmpty(outputs[k])
  }

  // ---- what happens to the lists on the way ----

  /** One call that changes something: the recorded indexes may rise, and one list is shunted. */
  ghost predicate Step(s: State, s': State) {
    && (forall b :: Far(s.farthest, b) <= Far(s'.farthest, b))
    && (Reached(s) ==> Reached(s.(farthest := s'.farthest)))
    && exists k, i: nat :: Shunted(s.(farthest := s'.farthest), s', k, i)
  }

  ghost predicate Steps(trace: seq<State>) {
    forall j :: 0 <= j < |trace| - 1 ==> Step(trace[j], trace[j + 1])
  }

  /** The trace leads from `s` to `s'` by alignment steps; in the end the recorded indexes may rise once more. */
  ghost predicate Leads(s: State, trace: seq<State>, s': State) {
    && trace != [] && trace[0] == s && trace[|trace| - 1].(farthest := s'.farthest) == s' && Steps(trace)
    && forall b :: Far(trace[|trace| - 1].farthest, b) <= Far(s'.farthest, b)
  }

  lemma {:induction false} LeadsOn(s: State, trace: seq<State>, s': State)
    requires trace != [] && Leads(s, trace, trace[|trace| - 1]) && Step(trace[|trace| - 1], s')
    ensures Leads(s, trace + [s'], s')
  {
    var longer := trace + [s'];
    forall j | 0 <= j < |longer| - 1 ensures Step(longer[j], longer[j + 1]) {
      assert j < |trace| - 1 ==> Step(trace[j], trace[j + 1]);
    }
  }

  function Final(trace: seq<State>): map<Key, seq<Block>> {
    if trace == [] then map[] else trace[|trace| - 1].lists
  }

  /** The trace of run `r` begins with the lists of the run before it and the run's output. */
  ghost predicate TracedAt(runs: seq<(Key, seq<Block>)>, traces: seq<seq<State>>, r: nat)
    requires r < |runs| == |traces|
  {
    && traces[r] != [] && Steps(traces[r])
    && traces[r][0].lists == Final(if r == 0 then [] else traces[r - 1])[runs[r].0 := runs[r].1]
  }

  /** The lists come about by adding the outputs and by alignment steps only. */
  ghost predicate TracesOf(runs: seq<(Key, seq<Block>)>, traces: seq<seq<State>>, lists: map<Key, seq<Block>>) {
    && |traces| == |runs| && lists == Final(if runs == [] then [] else traces[|runs| - 1])
    && forall r :: 0 <= r < |runs| ==> TracedAt(runs, traces, r)
  }

  lemma {:induction false} TracesOn(runs: seq<(Key, seq<Block>)>, run: (Key, seq<Block>), traces: seq<seq<State>>,
          before: map<Key, seq<Block>>, trace: seq<State>, lists: map<Key, seq<Block>>)
    requires TracesOf(runs, traces, before) && trace != [] && Steps(trace) && trace[0].lists == before[run.0 := run.1]
    requires lists == Final(trace)
    ensures TracesOf(runs + [run], traces + [trace], lists)
  {
    var rs, all := runs + [run], traces + [trace];
    forall r | 0 <= r < |rs| ensures TracedAt(rs, all, r) {
      if r < |runs| {
        assert TracedAt(runs, traces, r);
      }
    }
  }

  lemma {:induction false} TracesNext(runs: seq<(Key, seq<Block>)>, n: nat, traces: seq<seq<State>>,
          before: map<Key, seq<Block>>, trace: seq<State>, lists: map<Key, seq<Block>>)
    requires n < |runs| && TracesOf(runs[..n], traces, before) && trace != [] && Steps(trace)
    requires trace[0].lists == before[runs[n].0 := runs[n].1] && lists == Final(trace)
    ensures TracesOf(runs[..n + 1], traces + [trace], lists)
  {
    TracesOn(runs[..n], runs[n], traces, before, trace, lists);
    assert runs[..n] + [runs[n]] == runs[..n + 1];
  }

  /** Every list begins with the same block as the output. */
  ghost predicate BeginAlike(lists: map<Key, seq<Block>>, outputs: map<Key, seq<Block>>) {
    && lists.Keys == outputs.Keys
    && forall k :: k in lists ==>
         (lists[k] == [] <==> outputs[k] == []) && (lists[k] != [] ==> lists[k][0] == outputs[k][0])
  }

  lemma {:induction false} PutAlike(lists: map<Key, seq<Block>>, outputs: map<Key, seq<Block>>, key: Key,
          output: seq<Block>)
    requires Hold(lists, outputs) && BeginAlike(lists, outputs)
    ensures Hold(lists[key := output], outputs[key := output])
    ensures BeginAlike(lists[key := output], outputs[key := output])
  {
  }

  lemma {:induction false} LedBeginsAlike(s: State, trace: seq<State>, s': State, outputs: map<Key, seq<Block>>)
    requires Leads(s, trace, s') && BeginAlike(s.lists, outputs)
    ensures BeginAlike(s'.lists, outputs)
    decreases |trace|
  {
    var last := |trace| - 1;
    if last > 0 {
      var before := trace[..last];
      assert Step(trace[last - 1], trace[last]);
      forall j | 0 <= j < last - 1 ensures Step(before[j], before[j + 1]) {
        assert Step(trace[j], trace[j + 1]);
      }
      LedBeginsAlike(s, before, trace[last - 1], outputs);
      ShuntedBeginsAlike(trace[last - 1], trace[last], outputs);
    }
  }

  lemma {:induction false} ShuntedBeginsAlike(s: State, s': State, outputs: map<Key, seq<Block>>)
    requires Step(s, s') && BeginAlike(s.lists, outputs)
    ensures BeginAlike(s'.lists, outputs)
  {
    var k, i: nat :| Shunted(s.(farthest := s'.farthest), s', k, i);
    assert s'.lists[k][0] == s.lists[k][0];
  }

  /** A list on its own has nothing to be aligned with. */
  lemma {:induction false} SingleIsLeft(s: State, trace: seq<State>, s': State)
    requires Leads(s, trace, s') && Ok(s) && |s.keys| == 1 && s.farthest == map[]
    ensures s'.lists == s.lists
  {
    var k := s.keys[0];
    assert s.lists.Keys == {k};
    assert Reached(s) by {
      forall b ensures ReachedAt(s, b) {
      }
    }
    if |trace| > 1 {
      assert Step(trace[0], trace[1]);
      NoSingleStep(s, trace[1], k);
    }
  }

  lemma {:induction false} NoSingleStep(s: State, s': State, k: Key)
    requires Reached(s) && s.lists.Keys == {k}
    ensures !Step(s, s')
  {
    var t := s.(farthest := s'.farthest);
    if Reached(t) {
      forall x, i: nat ensures !Shunted(t, s', x, i) {
        if x == k {
          NotShunted(t, s', k, i);
        }
      }
    }
  }

  lemma {:induction false} NotShunted(s: State, s': State, k: Key, i: nat)
    requires Reached(s) && s.lists.Keys == {k}
    ensures !Shunted(s, s', k, i)
  {
    if AdjacentAt(s.lists[k], i) {
      assert ReachedAt(s, s.lists[k][i]);
    }
  }

  lemma {:induction false} HoldTwice(added: map<Key, seq<Block>>, lists: map<Key, seq<Block>>,
          outputs: map<Key, seq<Block>>)
    requires Hold(lists, added) && Hold(added, outputs)
    ensures Hold(lists, outputs)
  {
  }

  lemma {:induction false} InsertOneMore(blocks: seq<Block>, n: nat, index: nat)
    requires n <= |blocks| && n <= index
    ensures var after := Inserted(blocks, n, index - n);
            after[..index] + [""] + after[index..] == Inserted(blocks, n, index + 1 - n)
  {
    assert Filler(index + 1 - n) == Filler(index - n) + [""];
  }

  /** The output of the last run with each key. */
  function LastOutputs(runs: seq<(Key, seq<Block>)>): (outputs: map<Key, seq<Block>>)
    ensures forall k :: k in outputs ==> exists r :: 0 <= r < |runs| && runs[r].0 == k
  {
    if runs == [] then map[] else LastOutputs(runs[..|runs| - 1])[runs[|runs| - 1].0 := runs[|runs| - 1].1]
  }

  lemma {:induction false} LastOutputsNext(runs: seq<(Key, seq<Block>)>, n: nat)
    requires n < |runs|
    ensures LastOutputs(runs[..n + 1]) == LastOutputs(runs[..n])[runs[n].0 := runs[n].1]
    ensures DistinctKeys(runs) ==> runs[n].0 !in LastOutputs(runs[..n])
  {
    assert runs[..n + 1][..n] == runs[..n];
  }

  predicate DistinctKeys(runs: seq<(Key, seq<Block>)>) {
    forall q, r :: 0 <= q < r < |runs| ==> runs[q].0 != runs[r].0
  }

  lemma {:induction false} NewListReached(s: State, s': State, key: Key, output: seq<Block>)
    requires Reached(s) && key !in s.lists && s'.lists == s.lists[key := output] && s'.farthest == s.farthest
    ensures Reached(s')
  {
    forall b | b != "" ensures ReachedAt(s', b) {
      assert ReachedAt(s, b);
      if Far(s.farthest, b) != 0 {
        var x :| x in s.lists && b in s.lists[x] && FirstIndex(s.lists[x], b) >= Far(s.farthest, b);
        assert x in s'.lists && b in s'.lists[x];
      }
    }
  }
}
