/** What the compiler emits for each symbol, and why running it is running the symbol. */
module BrainFCode {
  import opened BrainFSource
  import opened BrainFTokens
  import opened BrainFCfg
  import opened Machines

  /** Registers and blocks that the header creates. */
  const ARR: Reg := 0
  const ARRMAX: Reg := 1
  const HEAD: Reg := 2
  const ENTRY: BlockId := 0
  const END: BlockId := 1
  const ABERROR: BlockId := 2

  /** Where the code of a symbol starts: the insertion point, the register that
      holds the head there, and the first unused register. */
  datatype Pos = Pos(blk: BlockId, idx: nat, head: Reg, next: Reg)

  ghost predicate At(f: Function, b: BlockId, i: nat, code: seq<Instr>) {
    b < |f| && i + |code| <= |f[b]| && f[b][i..i + |code|] == code
  }

  function ReadCode(p: Pos): seq<Instr> {
    [GetChar(p.next), Trunc(p.next + 1, p.next), Store8(p.next + 1, p.head)]
  }

  function WriteCode(p: Pos): seq<Instr> {
    [Load(p.next, p.head), SExt(p.next + 1, p.next), PutChar(p.next + 1)]
  }

  function ChangeCode(p: Pos, k: int): seq<Instr> {
    [Load(p.next, p.head), AddI8(p.next + 1, p.next, k), Store8(p.next + 1, p.head)]
  }

  function MoveCode(p: Pos, k: int): seq<Instr> {
    [Gep(p.next, p.head, k)]
  }

  function CheckCode(p: Pos, next: BlockId): seq<Instr> {
    [CmpUge(p.next + 1, p.next, ARRMAX), CmpUlt(p.next + 2, p.next, ARR),
     OrI1(p.next + 3, p.next + 1, p.next + 2), CondBr(p.next + 3, ABERROR, next)]
  }

  /** The loop test: `first` leads into the loop, whose body starts at `body`
      and ends at `last`; behind the loop comes `after`. */
  function TestCode(first: Pos, body: Pos, last: Pos, after: BlockId): seq<Instr> {
    [Phi(body.head, [Edge(first.head, first.blk), Edge(last.head, last.blk)]),
     Load(last.next, body.head), CmpEqZero(last.next + 1, last.next),
     CondBr(last.next + 1, after, body.blk)]
  }

  ghost predicate LoopCode(f: Function, first: Pos, body: Pos, last: Pos, after: Pos) {
    && body.blk > 0
    && var test := body.blk - 1;
       && At(f, first.blk, first.idx, [Br(test)])
       && At(f, last.blk, last.idx, [Br(test)])
       && At(f, test, 0, TestCode(first, body, last, after.blk))
       && At(f, after.blk, 0, [Phi(after.head, [Edge(body.head, test)])])
       && first.blk != last.blk && body.idx == 0 && after.idx == 1
       && HEAD <= body.head < last.next && HEAD <= after.head
  }

  ghost predicate MoveCoded(f: Function, p: Pos, k: int, q: Pos, checked: bool) {
    && q.head == p.next
    && if checked then At(f, p.blk, p.idx, MoveCode(p, k) + CheckCode(p, q.blk)) && q.idx == 0
       else At(f, p.blk, p.idx, MoveCode(p, k)) && q.blk == p.blk && q.idx == p.idx + 1
  }

  ghost predicate PlainCoded(f: Function, p: Pos, code: seq<Instr>, q: Pos) {
    At(f, p.blk, p.idx, code) && q.blk == p.blk && q.idx == p.idx + |code| && q.head == p.head
  }

  /** `f` has the code of symbol `i`, between `pos[i]` and `pos[i + 1]`. */
  ghost predicate Coded(f: Function, toks: seq<Token>, jumps: seq<nat>, pos: seq<Pos>, checked: bool, i: nat)
    requires i < |toks| == |jumps| && i + 1 < |pos|
  {
    var p, q := pos[i], pos[i + 1];
    && HEAD <= p.head < p.next
    && match toks[i]
       case Read => PlainCoded(f, p, ReadCode(p), q)
       case Write => PlainCoded(f, p, WriteCode(p), q)
       case Change(k) => PlainCoded(f, p, ChangeCode(p, k), q)
       case Move(k) => MoveCoded(f, p, k, q, checked)
       case Open => jumps[i] + 1 < |pos| && LoopCode(f, p, q, pos[jumps[i]], pos[jumps[i] + 1])
       case Close => jumps[i] + 1 < |pos| && LoopCode(f, pos[jumps[i]], pos[jumps[i] + 1], p, q)
  }

  /** The code of a whole program. */
  ghost predicate ProgramCoded(f: Function, toks: seq<Token>, jumps: seq<nat>, pos: seq<Pos>, checked: bool) {
    && |jumps| == |toks| && |pos| == |toks| + 1
    && (forall i :: 0 <= i < |toks| ==> Coded(f, toks, jumps, pos, checked, i))
    && At(f, pos[|toks|].blk, pos[|toks|].idx, [Br(END)])
    && At(f, END, 0, [Ret])
    && (checked ==> At(f, ABERROR, 0, [PutsError, Br(END)]))
  }

  // ---- simulation ----

  /** The registers that all code relies on. */
  ghost predicate Env(x: State, mem: nat, checked: bool, r: Reg, head: int) {
    && ARR in x.regs && x.regs[ARR] == Ptr(0)
    && (checked ==> ARRMAX in x.regs && x.regs[ARRMAX] == Ptr(mem))
    && r in x.regs && x.regs[r] == Ptr(head)
    && |x.store.tape| == mem
  }

  ghost predicate Placed(x: State, p: Pos, mem: nat, checked: bool, head: int, store: Store) {
    && x.outcome == Going && x.errors == 0 && x.blk == p.blk && x.idx == p.idx
    && x.store == store && Env(x, mem, checked, p.head, head)
  }

  /** The code is at the start of a symbol's code, or has stopped as the symbols have. */
  ghost predicate Simulates(x: State, s: TokenState, pos: seq<Pos>, mem: nat, checked: bool) {
    |pos| > 0 &&
    match s.status
    case Running => s.pc < |pos| && Placed(x, pos[s.pc], mem, checked, s.head, s.store)
    case Halted =>
      && x.outcome == Returned && x.errors == 0 && x.store == s.store
      && Env(x, mem, checked, pos[|pos| - 1].head, s.head)
    case OffTape => x.outcome == Trapped && x.errors == 0 && x.store.output == s.store.output
    case Aborted => x.outcome == Returned && x.errors == 1 && x.store == s.store
  }

  lemma {:induction false} Fetch(f: Function, x: State, b: BlockId, i: nat, code: seq<Instr>, k: nat)
    requires At(f, b, i, code) && k < |code|
    requires x.outcome == Going && x.blk == b && x.idx == i + k
    ensures CfgStep(f, x) == Exec(code[k], x)
  {
    assert f[b][i..i + |code|][k] == f[b][i + k];
  }

  lemma {:induction false} Then(f: Function, x: State, k: nat, y: State)
    requires Run(CfgMachine(f), x, k) == y
    ensures Run(CfgMachine(f), x, k + 1) == CfgStep(f, y)
  {
    RunOnce(CfgMachine(f), y);
    RunAdd(CfgMachine(f), x, k, 1);
  }

  /** Executes three instructions in a row. */
  lemma {:induction false} Three(f: Function, x: State, code: seq<Instr>)
    requires |code| == 3 && At(f, x.blk, x.idx, code) && x.outcome == Going
    ensures CfgStep(f, x) == Exec(code[0], x)
    ensures var y := Exec(code[0], x);
            y.outcome == Going && y.blk == x.blk && y.idx == x.idx + 1 ==>
              && Run(CfgMachine(f), x, 2) == Exec(code[1], y)
              && var z := Exec(code[1], y);
                 z.outcome == Going && z.blk == x.blk && z.idx == x.idx + 2 ==>
                   Run(CfgMachine(f), x, 3) == Exec(code[2], z)
  {
    Fetch(f, x, x.blk, x.idx, code, 0);
    RunOnce(CfgMachine(f), x);
    var y := Exec(code[0], x);
    if y.outcome == Going && y.blk == x.blk && y.idx == x.idx + 1 {
      Fetch(f, y, x.blk, x.idx, code, 1);
      Then(f, x, 1, y);
      var z := Exec(code[1], y);
      if z.outcome == Going && z.blk == x.blk && z.idx == x.idx + 2 {
        Fetch(f, z, x.blk, x.idx, code, 2);
        Then(f, x, 2, z);
      }
    }
  }

  /** The effect that `Symbol` gives to `,`, `.` and runs of `+-`. */
  lemma {:induction false} ReadSimulated(f: Function, x: State, p: Pos, q: Pos, mem: nat, checked: bool, head: int)
    returns (k: nat)
    requires PlainCoded(f, p, ReadCode(p), q) && HEAD <= p.head < p.next
    requires Placed(x, p, mem, checked, head, x.store)
    ensures k > 0
    ensures var y := Run(CfgMachine(f), x, k);
            if x.store.OnTape(head)
            then Placed(y, q, mem, checked, head, x.store.Consume().Put(head, x.store.NextByte()))
            else y.outcome == Trapped && y.errors == 0 && y.store.output == x.store.output
  {
    Three(f, x, ReadCode(p));
    k := 3;
  }

  lemma {:induction false} WriteSimulated(f: Function, x: State, p: Pos, q: Pos, mem: nat, checked: bool, head: int)
    returns (k: nat)
    requires PlainCoded(f, p, WriteCode(p), q) && HEAD <= p.head < p.next
    requires Placed(x, p, mem, checked, head, x.store)
    ensures k > 0
    ensures var y := Run(CfgMachine(f), x, k);
            if x.store.OnTape(head)
            then Placed(y, q, mem, checked, head, x.store.Print(x.store.tape[head]))
            else y.outcome == Trapped && y.errors == 0 && y.store.output == x.store.output
  {
    Three(f, x, WriteCode(p));
    RunOnce(CfgMachine(f), x);
    k := if x.store.OnTape(head) then 3 else 1;
  }

  lemma {:induction false} ChangeSimulated(f: Function, x: State, p: Pos, q: Pos, mem: nat, checked: bool, head: int,
          n: int)
    returns (k: nat)
    requires PlainCoded(f, p, ChangeCode(p, n), q) && HEAD <= p.head < p.next
    requires Placed(x, p, mem, checked, head, x.store)
    ensures k > 0
    ensures var y := Run(CfgMachine(f), x, k);
            if x.store.OnTape(head)
            then Placed(y, q, mem, checked, head, x.store.Put(head, Wrap(x.store.tape[head] as int + n)))
            else y.outcome == Trapped && y.errors == 0 && y.store.output == x.store.output
  {
    Three(f, x, ChangeCode(p, n));
    RunOnce(CfgMachine(f), x);
    k := if x.store.OnTape(head) then 3 else 1;
  }

  /** The error block prints the message and returns. */
  lemma {:induction false} AbortSimulated(f: Function, x: State) returns (k: nat)
    requires At(f, END, 0, [Ret]) && At(f, ABERROR, 0, [PutsError, Br(END)])
    requires x.outcome == Going && x.blk == ABERROR && x.idx == 0 && x.errors == 0
    ensures var y := Run(CfgMachine(f), x, k);
            y.outcome == Returned && y.errors == 1 && y.store == x.store
  {
    Fetch(f, x, ABERROR, 0, [PutsError, Br(END)], 0);
    RunOnce(CfgMachine(f), x);
    var x1 := Exec(PutsError, x);
    Fetch(f, x1, ABERROR, 0, [PutsError, Br(END)], 1);
    Then(f, x, 1, x1);
    var x2 := Exec(Br(END), x1);
    Fetch(f, x2, END, 0, [Ret], 0);
    Then(f, x, 2, x2);
    k := 3;
  }

  /** Where a run of `<>` leads: in checked code off the tape to the error block. */
  ghost predicate Moved(y: State, store: Store, q: Pos, mem: nat, checked: bool, head: int) {
    if checked && !store.OnTape(head)
    then y.outcome == Going && y.blk == ABERROR && y.idx == 0 && y.errors == 0 && y.store == store
    else Placed(y, q, mem, checked, head, store)
  }

  /** A run of `<>`: the head moves, and checked code branches on the result. */
  lemma {:induction false} MoveSimulated(f: Function, x: State, p: Pos, q: Pos, mem: nat, checked: bool, head: int,
          n: int)
    returns (k: nat)
    requires MoveCoded(f, p, n, q, checked) && HEAD <= p.head < p.next
    requires Placed(x, p, mem, checked, head, x.store)
    ensures k > 0 && Moved(Run(CfgMachine(f), x, k), x.store, q, mem, checked, head + n)
  {
    if checked {
      k := 5;
      CheckedMoveSimulated(f, x, p, q, mem, head, n);
    } else {
      k := 1;
      Fetch(f, x, p.blk, p.idx, MoveCode(p, n), 0);
      RunOnce(CfgMachine(f), x);
    }
  }

  /** The registers after the move, the two comparisons and their disjunction. */
  lemma {:induction false} BoundsCompared(x: State, p: Pos, q: Pos, mem: nat, head: int, n: int, code: seq<Instr>)
    returns (x1: State, x2: State, x3: State, x4: State)
    requires code == MoveCode(p, n) + CheckCode(p, q.blk) && HEAD <= p.head < p.next
    requires Placed(x, p, mem, true, head, x.store)
    ensures x1 == Exec(code[0], x) == x.(idx := x.idx + 1, regs := x1.regs)
    ensures x2 == Exec(code[1], x1) == x.(idx := x.idx + 2, regs := x2.regs)
    ensures x3 == Exec(code[2], x2) == x.(idx := x.idx + 3, regs := x3.regs)
    ensures x4 == Exec(code[3], x3) == x.(idx := x.idx + 4, regs := x4.regs)
    ensures Env(x4, mem, true, p.next, head + n)
    ensures x4.HasI1(p.next + 3) && x4.regs[p.next + 3].t == !(0 <= head + n < mem)
  {
    x1 := Exec(code[0], x);
    assert x1.regs[p.next] == Ptr(head + n);
    x2 := Exec(code[1], x1);
    assert x2.regs[p.next + 1] == I1(head + n >= mem);
    x3 := Exec(code[2], x2);
    assert x3.regs[p.next + 2] == I1(head + n < 0);
    x4 := Exec(code[3], x3);
  }

  lemma {:induction false} CheckedMoveSimulated(f: Function, x: State, p: Pos, q: Pos, mem: nat, head: int, n: int)
    requires MoveCoded(f, p, n, q, true) && HEAD <= p.head < p.next
    requires Placed(x, p, mem, true, head, x.store)
    ensures Moved(Run(CfgMachine(f), x, 5), x.store, q, mem, true, head + n)
  {
    var code := MoveCode(p, n) + CheckCode(p, q.blk);
    var x1, x2, x3, x4 := BoundsCompared(x, p, q, mem, head, n, code);
    Fetch(f, x, p.blk, p.idx, code, 0);
    RunOnce(CfgMachine(f), x);
    Fetch(f, x1, p.blk, p.idx, code, 1);
    Then(f, x, 1, x1);
    Fetch(f, x2, p.blk, p.idx, code, 2);
    Then(f, x, 2, x2);
    Fetch(f, x3, p.blk, p.idx, code, 3);
    Then(f, x, 3, x3);
    Fetch(f, x4, p.blk, p.idx, code, 4);
    Then(f, x, 4, x4);
  }

  /** Into the test block, whose phi takes the head from wherever control came from. */
  lemma {:induction false} ReachTest(f: Function, x: State, first: Pos, body: Pos, last: Pos, after: Pos, from: Pos,
          mem: nat, checked: bool, head: int)
    returns (y: State)
    requires LoopCode(f, first, body, last, after) && (from == first || from == last)
    requires Placed(x, from, mem, checked, head, x.store)
    ensures Run(CfgMachine(f), x, 2) == y
    ensures Placed(y, body.(blk := body.blk - 1, idx := 1), mem, checked, head, x.store)
  {
    var test := body.blk - 1;
    Fetch(f, x, from.blk, from.idx, [Br(test)], 0);
    RunOnce(CfgMachine(f), x);
    var x1 := Exec(Br(test), x);
    var edges := [Edge(first.head, first.blk), Edge(last.head, last.blk)];
    assert edges[1..] == [Edge(last.head, last.blk)];
    assert Incoming(edges, from.blk) == [from.head];
    Fetch(f, x1, test, 0, TestCode(first, body, last, after.blk), 0);
    Then(f, x, 1, x1);
    y := Exec(Phi(body.head, edges), x1);
  }

  /** A trap off the tape, or else the body or the code behind the loop, depending on the cell under the head. */
  ghost predicate Branched(y: State, store: Store, body: Pos, after: Pos, mem: nat, checked: bool, head: int) {
    if !store.OnTape(head) then y.outcome == Trapped && y.errors == 0 && y.store.output == store.output
    else if store.tape[head] != 0 then Placed(y, body, mem, checked, head, store)
    else Placed(y, after, mem, checked, head, store)
  }

  /** The test itself: into the body while the cell under the head is not zero. */
  lemma {:induction false} TestSimulated(f: Function, x: State, first: Pos, body: Pos, last: Pos, after: Pos,
          mem: nat, checked: bool, head: int)
    returns (k: nat)
    requires LoopCode(f, first, body, last, after)
    requires Placed(x, body.(blk := body.blk - 1, idx := 1), mem, checked, head, x.store)
    ensures Branched(Run(CfgMachine(f), x, k), x.store, body, after, mem, checked, head)
  {
    var test := body.blk - 1;
    var code := TestCode(first, body, last, after.blk);
    Fetch(f, x, test, 0, code, 1);
    RunOnce(CfgMachine(f), x);
    k := 1;
    if x.store.OnTape(head) {
      var x1 := Exec(code[1], x);
      Fetch(f, x1, test, 0, code, 2);
      Then(f, x, 1, x1);
      var x2 := Exec(code[2], x1);
      Fetch(f, x2, test, 0, code, 3);
      Then(f, x, 2, x2);
      var x3 := Exec(code[3], x2);
      k := 3;
      if x.store.tape[head] == 0 {
        var phi := Phi(after.head, [Edge(body.head, test)]);
        assert x3.blk == after.blk && x3.prev == test;
        assert Incoming([Edge(body.head, test)], test) == [body.head];
        Fetch(f, x3, after.blk, 0, [phi], 0);
        Then(f, x, 3, x3);
        k := 4;
      }
    }
  }

  lemma {:induction false} LoopSimulated(f: Function, x: State, first: Pos, body: Pos, last: Pos, after: Pos,
          from: Pos, mem: nat, checked: bool, head: int)
    returns (k: nat)
    requires LoopCode(f, first, body, last, after) && (from == first || from == last)
    requires Placed(x, from, mem, checked, head, x.store)
    ensures k > 0
    ensures Branched(Run(CfgMachine(f), x, k), x.store, body, after, mem, checked, head)
  {
    var y := ReachTest(f, x, first, body, last, after, from, mem, checked, head);
    var j := TestSimulated(f, y, first, body, last, after, mem, checked, head);
    assert y.store == x.store;
    RunAdd(CfgMachine(f), x, 2, j);
    k := 2 + j;
  }

  /** The end of the program. */
  lemma {:induction false} EndSimulated(f: Function, x: State, p: Pos, mem: nat, checked: bool, head: int)
    requires At(f, p.blk, p.idx, [Br(END)]) && At(f, END, 0, [Ret])
    requires Placed(x, p, mem, checked, head, x.store)
    ensures var y := Run(CfgMachine(f), x, 2);
            y.outcome == Returned && y.errors == 0 && y.store == x.store && Env(y, mem, checked, p.head, head)
  {
    Fetch(f, x, p.blk, p.idx, [Br(END)], 0);
    RunOnce(CfgMachine(f), x);
    var x1 := Exec(Br(END), x);
    Fetch(f, x1, END, 0, [Ret], 0);
    Then(f, x, 1, x1);
  }

  /** Any symbol but the run of `<>`. */
  lemma {:induction false} SymbolSimulated(f: Function, toks: seq<Token>, jumps: seq<nat>, pos: seq<Pos>,
          checked: bool, mem: nat, x: State, s: TokenState)
    returns (k: nat)
    requires ProgramCoded(f, toks, jumps, pos, checked)
    requires s.status == Running && Simulates(x, s, pos, mem, checked)
    requires s.pc < |toks| ==> !toks[s.pc].Move?
    ensures k > 0 && Simulates(Run(CfgMachine(f), x, k), TokenStep(toks, jumps, checked, s), pos, mem, checked)
  {
    if s.pc == |toks| {
      EndSimulated(f, x, pos[s.pc], mem, checked, s.head);
      k := 2;
    } else {
      var p, q := pos[s.pc], pos[s.pc + 1];
      assert Coded(f, toks, jumps, pos, checked, s.pc);
      match toks[s.pc]
      case Read => k := ReadSimulated(f, x, p, q, mem, checked, s.head);
      case Write => k := WriteSimulated(f, x, p, q, mem, checked, s.head);
      case Change(n) => k := ChangeSimulated(f, x, p, q, mem, checked, s.head, n);
      case Open => k := BracketSimulated(f, toks, jumps, pos, checked, mem, x, s);
      case Close => k := BracketSimulated(f, toks, jumps, pos, checked, mem, x, s);
    }
  }

  /** `[` or `]`. */
  lemma {:induction false} BracketSimulated(f: Function, toks: seq<Token>, jumps: seq<nat>, pos: seq<Pos>,
          checked: bool, mem: nat, x: State, s: TokenState)
    returns (k: nat)
    requires ProgramCoded(f, toks, jumps, pos, checked)
    requires s.status == Running && Simulates(x, s, pos, mem, checked)
    requires s.pc < |toks| && (toks[s.pc].Open? || toks[s.pc].Close?)
    ensures k > 0 && Simulates(Run(CfgMachine(f), x, k), TokenStep(toks, jumps, checked, s), pos, mem, checked)
  {
    var p, q, j := pos[s.pc], pos[s.pc + 1], jumps[s.pc];
    assert Coded(f, toks, jumps, pos, checked, s.pc);
    if toks[s.pc].Open? {
      k := LoopSimulated(f, x, p, q, pos[j], pos[j + 1], p, mem, checked, s.head);
    } else {
      k := LoopSimulated(f, x, pos[j], pos[j + 1], p, q, p, mem, checked, s.head);
    }
  }

  lemma {:induction false} MoveSymbolSimulated(f: Function, toks: seq<Token>, jumps: seq<nat>, pos: seq<Pos>,
          checked: bool, mem: nat, x: State, s: TokenState)
    returns (k: nat)
    requires ProgramCoded(f, toks, jumps, pos, checked)
    requires s.status == Running && Simulates(x, s, pos, mem, checked)
    requires s.pc < |toks| && toks[s.pc].Move?
    ensures k > 0 && Simulates(Run(CfgMachine(f), x, k), TokenStep(toks, jumps, checked, s), pos, mem, checked)
  {
    var p, q, n := pos[s.pc], pos[s.pc + 1], toks[s.pc].amount;
    assert Coded(f, toks, jumps, pos, checked, s.pc);
    k := MoveSimulated(f, x, p, q, mem, checked, s.head, n);
    if checked && !s.store.OnTape(s.head + n) {
      var j := AbortSimulated(f, Run(CfgMachine(f), x, k));
      RunAdd(CfgMachine(f), x, k, j);
      k := k + j;
    }
  }

  lemma {:induction false} StepSimulated(f: Function, toks: seq<Token>, jumps: seq<nat>, pos: seq<Pos>, checked: bool,
          mem: nat, x: State, s: TokenState)
    requires ProgramCoded(f, toks, jumps, pos, checked)
    requires Simulates(x, s, pos, mem, checked)
    ensures StepMatched(CfgMachine(f), TokenMachine(toks, jumps, checked),
                        (x, s) => Simulates(x, s, pos, mem, checked), (x, s) => false, x, s)
  {
    var k;
    if s.status != Running {
      RunOnce(CfgMachine(f), x);
      k := 1;
    } else if s.pc < |toks| && toks[s.pc].Move? {
      k := MoveSymbolSimulated(f, toks, jumps, pos, checked, mem, x, s);
    } else {
      k := SymbolSimulated(f, toks, jumps, pos, checked, mem, x, s);
    }
    assert Simulates(Run(CfgMachine(f), x, k), TokenStep(toks, jumps, checked, s), pos, mem, checked);
  }

  /** The entry block sets up the registers and jumps nowhere. */
  function EntryCode(mem: nat, checked: bool): seq<Instr> {
    [Malloc(ARR)] + (if checked then [Gep(ARRMAX, ARR, mem)] else []) + [Gep(HEAD, ARR, mem / 2)]
  }

  lemma {:induction false} EntrySimulated(f: Function, pos: seq<Pos>, mem: nat, checked: bool, input: seq<byte>)
    returns (k: nat)
    requires |pos| > 0 && At(f, ENTRY, 0, EntryCode(mem, checked))
    requires pos[0] == Pos(ENTRY, |EntryCode(mem, checked)|, HEAD, HEAD + 1)
    ensures Simulates(Run(CfgMachine(f), CfgStart(mem, input), k), TokenStart(mem, input), pos, mem, checked)
  {
    var x := CfgStart(mem, input);
    var code := EntryCode(mem, checked);
    Fetch(f, x, ENTRY, 0, code, 0);
    RunOnce(CfgMachine(f), x);
    var x1 := Exec(Malloc(ARR), x);
    Fetch(f, x1, ENTRY, 0, code, 1);
    Then(f, x, 1, x1);
    var x2 := Exec(code[1], x1);
    k := 2;
    if checked {
      Fetch(f, x2, ENTRY, 0, code, 2);
      Then(f, x, 2, x2);
      k := 3;
    }
  }

  lemma {:induction false} RunSimulated(f: Function, toks: seq<Token>, jumps: seq<nat>, pos: seq<Pos>, checked: bool,
          mem: nat, x: State, s: TokenState, n: nat)
    returns (k: nat)
    requires ProgramCoded(f, toks, jumps, pos, checked)
    requires Simulates(x, s, pos, mem, checked)
    ensures k >= n
    ensures Simulates(Run(CfgMachine(f), x, k), Run(TokenMachine(toks, jumps, checked), s, n), pos, mem, checked)
  {
    var related := (x, s) => Simulates(x, s, pos, mem, checked);
    var final := (x: State, s: TokenState) => false;
    forall x, s | related(x, s)
      ensures StepMatched(CfgMachine(f), TokenMachine(toks, jumps, checked), related, final, x, s)
    {
      StepSimulated(f, toks, jumps, pos, checked, mem, x, s);
    }
    k := RunMatched(CfgMachine(f), TokenMachine(toks, jumps, checked), related, final, x, s, n);
  }

  /** However long the symbols run, the code reaches the corresponding state. */
  lemma {:induction false} CodeIsFaithful(f: Function, toks: seq<Token>, jumps: seq<nat>, pos: seq<Pos>,
          checked: bool, mem: nat, input: seq<byte>, n: nat)
    returns (k: nat)
    requires ProgramCoded(f, toks, jumps, pos, checked)
    requires At(f, ENTRY, 0, EntryCode(mem, checked))
    requires pos[0] == Pos(ENTRY, |EntryCode(mem, checked)|, HEAD, HEAD + 1)
    ensures k >= n
    ensures Simulates(Run(CfgMachine(f), CfgStart(mem, input), k),
                      Run(TokenMachine(toks, jumps, checked), TokenStart(mem, input), n), pos, mem, checked)
  {
    var j := EntrySimulated(f, pos, mem, checked, input);
    var x, s := Run(CfgMachine(f), CfgStart(mem, input), j), TokenStart(mem, input);
    var m := RunSimulated(f, toks, jumps, pos, checked, mem, x, s, n);
    JoinRuns(f, CfgStart(mem, input), j, m);
    k := j + m;
  }

  lemma {:induction false} JoinRuns(f: Function, x: State, j: nat, m: nat)
    ensures Run(CfgMachine(f), x, j + m) == Run(CfgMachine(f), Run(CfgMachine(f), x, j), m)
  {
    RunAdd(CfgMachine(f), x, j, m);
  }
}
