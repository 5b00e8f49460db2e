/** The generated function is well-formed SSA. */
module BrainFGenSsa {
  import opened BrainFSource
  import opened BrainFTokens
  import opened BrainFCfg
  import opened BrainFCode
  import opened BrainFGen
  import opened BrainFLayout
  import opened BrainFSsa

  /** Straight-line code that numbers its registers from `next` on and reads only
      these and the ones in `have`. */
  ghost predicate StraightOk(code: seq<Instr>, have: set<Reg>, next: Reg) {
    && code != []
    && (forall i :: 0 <= i < |code| ==> LineStraight(code[i], have, next, i))
    && (forall i :: 0 <= i < |code| - 1 ==> HasDef(code[i]))
  }

  ghost predicate LineStraight(x: Instr, have: set<Reg>, next: Reg, i: nat) {
    && !IsTerminator(x) && !x.Phi? && (HasDef(x) ==> x.dst == next + i)
    && forall r :: r in Uses(x) ==> r in have || next <= r < next + i
  }

  function NextAfter(code: seq<Instr>, next: Reg): Reg
    requires code != []
  {
    next + if HasDef(code[|code| - 1]) then |code| else |code| - 1
  }

  lemma {:induction false} AppendAll(f: Function, z: Cert, open: set<BlockId>, b: BlockId, code: seq<Instr>,
          have: set<Reg>)
    returns (z': Cert)
    requires Sound(f, z, open) && b < |f| && b in open
    requires have <= z.avail[b] + BlockDefs(f[b]) && StraightOk(code, have, z.next)
    ensures Sound(Append(f, b, code), z', open)
    ensures z'.avail == z.avail && z'.next == NextAfter(code, z.next)
    ensures BlockDefs(f[b]) <= BlockDefs(Append(f, b, code)[b])
    ensures HasDef(code[0]) ==> z.next in BlockDefs(Append(f, b, code)[b])
    decreases |code|
  {
    var x, rest := code[0], code[1..];
    assert LineStraight(x, have, z.next, 0);
    AppendPlain(f, z, open, b, x);
    var f1, z1 := Append(f, b, [x]), Defining(z, b, |f[b]|, x);
    DefsOfAppend(f[b], x);
    assert f1[b] + rest == f[b] + code;
    if rest == [] {
      assert code == [x];
      assert Append(f, b, code) == f1;
      z' := z1;
    } else {
      forall i | 0 <= i < |rest| ensures LineStraight(rest[i], have + {x.dst}, z1.next, i) {
        assert LineStraight(code[i + 1], have, z.next, i + 1);
      }
      assert Append(f1, b, rest) == Append(f, b, code);
      z' := AppendAll(f1, z1, open, b, rest, have + {x.dst});
    }
  }

  /** What every block but the entry can rely on. */
  function Globals(checked: bool): set<Reg> {
    if checked then {ARR, ARRMAX} else {ARR}
  }

  function Tests(loops: seq<Frame>): set<BlockId> {
    set t | 0 <= t < |loops| :: loops[t].test
  }

  function Unfinished(g: Gen): set<BlockId> {
    Tests(g.loops) + {g.insert}
  }

  ghost predicate LoopReady(f: Function, z: Cert, loop: Frame, checked: bool)
    requires |z.avail| == |f|
  {
    && loop.test + 1 < |f| && !StartsWithPhi(f[loop.test + 1]) && loop.first.blk < loop.test
    && z.avail[loop.test] == Globals(checked) && z.avail[loop.test + 1] == Globals(checked) + {loop.phi}
  }

  ghost predicate Verified(g: Gen, z: Cert, mem: nat, checked: bool) {
    && g.Ok() && HeaderKept(g, mem, checked) && z.next == g.next
    && Sound(g.f, z, Unfinished(g))
    && Globals(checked) + {g.head} <= z.avail[g.insert] + BlockDefs(g.f[g.insert])
    && z.avail[END] == {} && (checked ==> z.avail[ABERROR] == {})
    && forall t :: 0 <= t < |g.loops| ==> LoopReady(g.f, z, g.loops[t], checked)
  }

  /** Appending straight-line code that leaves the head where it is, or puts it into its first register. */
  lemma {:induction false} StraightVerified(g: Gen, z: Cert, mem: nat, checked: bool, code: seq<Instr>, g': Gen)
    returns (z': Cert)
    requires Verified(g, z, mem, checked)
    requires StraightOk(code, Globals(checked) + {g.head}, g.next)
    requires g'.f == Append(g.f, g.insert, code) && g'.insert == g.insert && g'.loops == g.loops
    requires g'.next == NextAfter(code, g.next) && g'.Ok() && HeaderKept(g', mem, checked)
    requires g'.head == g.head || (HasDef(code[0]) && g'.head == g.next)
    ensures Verified(g', z', mem, checked)
  {
    z' := AppendAll(g.f, z, Unfinished(g), g.insert, code, Globals(checked) + {g.head});
    forall t | 0 <= t < |g.loops| ensures LoopReady(g'.f, z', g.loops[t], checked) {
      assert LoopReady(g.f, z, g.loops[t], checked);
      assert LineStraight(code[0], Globals(checked) + {g.head}, g.next, 0);
    }
  }

  lemma {:induction false} PlainStraight(p: Pos, n: int, checked: bool)
    ensures StraightOk(ReadCode(p), Globals(checked) + {p.head}, p.next)
    ensures StraightOk(WriteCode(p), Globals(checked) + {p.head}, p.next)
    ensures StraightOk(ChangeCode(p, n), Globals(checked) + {p.head}, p.next)
    ensures StraightOk(MoveCode(p, n), Globals(checked) + {p.head}, p.next)
  {
  }

  lemma {:induction false} PlainVerified(g: Gen, z: Cert, mem: nat, checked: bool, t: Token, i: nat) returns (z': Cert)
    requires Verified(g, z, mem, checked)
    requires !t.Open? && !t.Close? && !(checked && t.Move?)
    ensures Verified(GenSymbol(g, t, i, checked), z', mem, checked)
  {
    var p, g' := g.Here(), GenSymbol(g, t, i, checked);
    PlainStraight(p, if t.Change? || t.Move? then t.amount else 0, checked);
    GenSymbolOk(g, t, i, checked);
    HeaderKeptStep(g, t, i, mem, checked);
    var code := match t case Read => ReadCode(p) case Write => WriteCode(p)
                        case Change(n) => ChangeCode(p, n) case Move(n) => MoveCode(p, n);
    z' := StraightVerified(g, z, mem, checked, code, g');
  }

  function MoveTest(p: Pos, n: int): seq<Instr> {
    [Gep(p.next, p.head, n), CmpUge(p.next + 1, p.next, ARRMAX), CmpUlt(p.next + 2, p.next, ARR),
     OrI1(p.next + 3, p.next + 1, p.next + 2)]
  }

  lemma {:induction false} MoveTestStraight(p: Pos, n: int, below: BlockId)
    ensures StraightOk(MoveTest(p, n), Globals(true) + {p.head}, p.next)
    ensures MoveCode(p, n) + CheckCode(p, below) == MoveTest(p, n) + [CondBr(p.next + 3, ABERROR, below)]
  {
  }

  /** All defined registers of straight-line code end up in the block. */
  lemma {:induction false} DefinedInBlock(b: Block, code: seq<Instr>, k: nat)
    requires k < |code| && HasDef(code[k])
    ensures code[k].dst in BlockDefs(b + code)
  {
    assert (b + code)[|b| + k] == code[k];
  }

  /** Ends the current block with `x` after opening a new one in which `live` is available. */
  lemma {:induction false} BranchSound(f: Function, z: Cert, open: set<BlockId>, b: BlockId, x: Instr, live: set<Reg>)
    returns (z': Cert)
    requires Sound(f, z, open) && b < |f| && b in open && IsTerminator(x)
    requires Uses(x) <= z.avail[b] + BlockDefs(f[b]) && live <= z.avail[b] + BlockDefs(f[b])
    requires forall c :: c in Targets(x) && c != |f| ==> EdgeOk(f, z, b, c) && !StartsWithPhi(f[c]) && c != b
    ensures z' == z.(avail := z.avail + [live])
    ensures Sound(Append(f, b, [x]) + [[]], z', open + {|f|} - {b})
    ensures Preds(Append(f, b, [x]) + [[]], |f|) == if |f| in Targets(x) then {b} else {}
  {
    z' := z.(avail := z.avail + [live]);
    NewBlock(f, z, open, live);
    var f1: Function := f + [[]];
    forall c | c in Targets(x) ensures EdgeOk(f1, z', b, c) && !StartsWithPhi(f1[c]) && c != b {
      if c != |f| {
        assert EdgeOk(f, z, b, c);
      }
    }
    AppendTerminator(f1, z', open + {|f|}, b, x);
    SuccsOfAppend(f1, b, x, |f|);
    assert Append(f1, b, [x]) == Append(f, b, [x]) + [[]];
  }

  lemma {:induction false} AppendTwice(f: Function, b: BlockId, code: seq<Instr>, more: seq<Instr>)
    requires b < |f|
    ensures Append(Append(f, b, code), b, more) == Append(f, b, code + more)
  {
    assert f[b] + code + more == f[b] + (code + more);
  }

  lemma {:induction false} CheckedSound(f: Function, z: Cert, open: set<BlockId>, p: Pos, n: int) returns (z': Cert)
    requires Sound(f, z, open) && p.blk < |f| && p.blk in open && z.next == p.next && p.blk != ABERROR
    requires ABERROR < |f| && !StartsWithPhi(f[ABERROR]) && z.avail[ABERROR] == {}
    requires Globals(true) + {p.head} <= z.avail[p.blk] + BlockDefs(f[p.blk])
    ensures Sound(Append(f, p.blk, MoveCode(p, n) + CheckCode(p, |f|)) + [[]], z', open + {|f|} - {p.blk})
    ensures z'.avail == z.avail + [Globals(true) + {p.next}] && z'.next == p.next + 4
  {
    var x := CondBr(p.next + 3, ABERROR, |f|);
    MoveTestStraight(p, n, |f|);
    var z1 := AppendAll(f, z, open, p.blk, MoveTest(p, n), Globals(true) + {p.head});
    var f1 := Append(f, p.blk, MoveTest(p, n));
    DefinedInBlock(f[p.blk], MoveTest(p, n), 3);
    assert EdgeOk(f1, z1, p.blk, ABERROR);
    z' := BranchSound(f1, z1, open, p.blk, x, Globals(true) + {p.next});
    AppendTwice(f, p.blk, MoveTest(p, n), [x]);
  }

  lemma {:induction false} CheckedVerified(g: Gen, z: Cert, mem: nat, n: int, i: nat) returns (z': Cert)
    requires Verified(g, z, mem, true)
    ensures Verified(GenSymbol(g, Move(n), i, true), z', mem, true)
  {
    var g' := GenMove(g, n, true);
    GenSymbolOk(g, Move(n), i, true);
    HeaderKeptStep(g, Move(n), i, mem, true);
    z' := CheckedSound(g.f, z, Unfinished(g), g.Here(), n);
    UnfinishedMoves(g, g');
    forall t | 0 <= t < |g.loops| ensures LoopReady(g'.f, z', g.loops[t], true) {
      assert LoopReady(g.f, z, g.loops[t], true);
    }
  }

  /** The insertion point moves to a new block while the open loops stay. */
  lemma {:induction false} UnfinishedMoves(g: Gen, g': Gen)
    requires g.Ok() && g'.Ok() && g'.loops == g.loops && g'.insert == |g.f|
    ensures Unfinished(g') == Unfinished(g) + {|g.f|} - {g.insert}
  {
    assert forall t :: 0 <= t < |g.loops| ==> g.HalfTest(g.loops[t]) && g'.HalfTest(g.loops[t]);
  }

  // ---- loops ----

  lemma {:induction false} AppendOnNew(f: Function, x: Instr)
    ensures var f1: Function := f + [[]]; Append(f1, |f|, [x]) == f + [[x]]
  {
    assert [] + [x] == [x];
  }

  /** What makes a loop ready for its end does not go away. */
  lemma {:induction false} ReadyKept(f: Function, z: Cert, f': Function, z': Cert, loop: Frame, checked: bool)
    requires |z.avail| == |f| <= |f'| == |z'.avail| && LoopReady(f, z, loop, checked)
    requires forall b :: 0 <= b < |f| ==> z'.avail[b] == z.avail[b]
    requires StartsWithPhi(f'[loop.test + 1]) ==> StartsWithPhi(f[loop.test + 1])
    ensures LoopReady(f', z', loop, checked)
  {
  }

  /** `[`: the jump to a new test block, its half phi, and the body's first block. */
  lemma {:induction false} OpenSound(f: Function, z: Cert, open: set<BlockId>, p: Pos, checked: bool) returns (z': Cert)
    requires Sound(f, z, open) && p.blk < |f| && p.blk in open && z.next == p.next
    requires Globals(checked) + {p.head} <= z.avail[p.blk] + BlockDefs(f[p.blk])
    ensures var f' := Append(f, p.blk, [Br(|f|)]) + [[Phi(p.next, [Edge(p.head, p.blk)])], []];
            Sound(f', z', open + {|f|, |f| + 1} - {p.blk})
    ensures z'.avail == z.avail + [Globals(checked), Globals(checked) + {p.next}] && z'.next == p.next + 1
  {
    var test, e := |f|, Edge(p.head, p.blk);
    var x := Phi(p.next, [e]);
    var z1 := BranchSound(f, z, open, p.blk, Br(test), Globals(checked));
    var f1: Function := Append(f, p.blk, [Br(test)]) + [[]];
    DefsOfAppend(f[p.blk], Br(test));
    assert EntryOk(f1, z1, e);
    assert [e][0] == e;
    AppendPhi(f1, z1, open + {test} - {p.blk}, test, x);
    var f2 := Append(f1, test, [x]);
    AppendOnNew(Append(f, p.blk, [Br(test)]), x);
    var z2 := Defining(z1, test, 0, x);
    NewBlock(f2, z2, open + {test} - {p.blk}, Globals(checked) + {p.next});
    z' := z2.(avail := z2.avail + [Globals(checked) + {p.next}]);
    assert f2 + [[]] == Append(f, p.blk, [Br(test)]) + [[x], []];
    assert open + {test} - {p.blk} + {test + 1} == open + {test, test + 1} - {p.blk};
  }

  lemma {:induction false} OpenVerified(g: Gen, z: Cert, mem: nat, checked: bool, i: nat) returns (z': Cert)
    requires Verified(g, z, mem, checked)
    ensures Verified(GenOpen(g, i), z', mem, checked)
  {
    var g' := GenOpen(g, i);
    GenOpenOk(g, i);
    HeaderKeptStep(g, Open, i, mem, checked);
    z' := OpenSound(g.f, z, Unfinished(g), g.Here(), checked);
    UnfinishedOpens(g, g', i);
    OpenReady(g, z, g', z', mem, checked, i);
  }

  lemma {:induction false} OpenReady(g: Gen, z: Cert, g': Gen, z': Cert, mem: nat, checked: bool, i: nat)
    requires Verified(g, z, mem, checked) && g' == GenOpen(g, i)
    requires z'.avail == z.avail + [Globals(checked), Globals(checked) + {g.next}]
    ensures forall t :: 0 <= t < |g'.loops| ==> LoopReady(g'.f, z', g'.loops[t], checked)
  {
    forall t | 0 <= t < |g'.loops| ensures LoopReady(g'.f, z', g'.loops[t], checked) {
      if t < |g.loops| {
        ReadyKept(g.f, z, g'.f, z', g.loops[t], checked);
      }
    }
  }

  lemma {:induction false} UnfinishedOpens(g: Gen, g': Gen, i: nat)
    requires g.Ok() && g' == GenOpen(g, i)
    ensures Unfinished(g') == Unfinished(g) + {|g.f|, |g.f| + 1} - {g.insert}
  {
    assert forall t :: 0 <= t < |g.loops| ==> g.HalfTest(g.loops[t]) && g'.loops[t] == g.loops[t];
    assert g'.loops[|g.loops|].test == |g.f|;
  }

  /** The end of a loop: its test block after the jump back, behind the phi. */
  lemma {:induction false} TestSound(f: Function, z: Cert, open: set<BlockId>, t: BlockId, r: Reg, edges: seq<Edge>,
          checked: bool)
    returns (z': Cert)
    requires Sound(f, z, open) && t < |f| && t in open && t > 0 && f[t] == [Phi(r, edges)]
    requires z.avail[t] == Globals(checked) && t + 1 < |f| && !StartsWithPhi(f[t + 1])
    requires z.avail[t + 1] == Globals(checked) + {r}
    ensures Sound(TestDone(f, t, r, z.next), z', open + {|f|} - {t})
    ensures z'.avail == z.avail + [Globals(checked) + {r}] && z'.next == z.next + 2
    ensures Preds(TestDone(f, t, r, z.next), |f|) == {t}
    ensures r in BlockDefs(TestDone(f, t, r, z.next)[t])
  {
    var load, x := TestLoad(r, z.next), CondBr(z.next + 1, |f|, t + 1);
    var f1, z1 := TestLoaded(f, z, open, t, r, edges, checked);
    z' := BranchSound(f1, z1, open, t, x, Globals(checked) + {r});
    DefsOfAppend(f1[t], x);
    assert f1[t] + [x] == TestDone(f, t, r, z.next)[t];
  }

  /** The load and the comparison of a loop's test. */
  lemma {:induction false} TestLoaded(f: Function, z: Cert, open: set<BlockId>, t: BlockId, r: Reg, edges: seq<Edge>,
          checked: bool)
    returns (f1: Function, z1: Cert)
    requires Sound(f, z, open) && t < |f| && t in open && t > 0 && f[t] == [Phi(r, edges)]
    requires z.avail[t] == Globals(checked) && t + 1 < |f| && !StartsWithPhi(f[t + 1])
    requires z.avail[t + 1] == Globals(checked) + {r}
    ensures f1 == Append(f, t, TestLoad(r, z.next)) && Sound(f1, z1, open)
    ensures z1.avail == z.avail && z1.next == z.next + 2
    ensures z.next + 1 in BlockDefs(f1[t]) && r in BlockDefs(f1[t]) && EdgeOk(f1, z1, t, t + 1)
  {
    var load := TestLoad(r, z.next);
    PhiDefs(r, edges);
    LoadStraight(r, z.next, checked);
    z1 := AppendAll(f, z, open, t, load, Globals(checked) + {r});
    f1 := Append(f, t, load);
    DefinedInBlock(f[t], load, 1);
  }

  function TestLoad(r: Reg, next: Reg): seq<Instr> {
    [Load(next, r), CmpEqZero(next + 1, next)]
  }

  function TestDone(f: Function, t: BlockId, r: Reg, next: Reg): Function
    requires t < |f|
  {
    Append(Append(f, t, TestLoad(r, next)), t, [CondBr(next + 1, |f|, t + 1)]) + [[]]
  }

  /** `]`: the jump back with its phi entry, the loop test, and the first block behind the loop. */
  lemma {:induction false} CloseSound(f: Function, z: Cert, open: set<BlockId>, p: Pos, loop: Frame, checked: bool)
    returns (z': Cert)
    requires Sound(f, z, open) && p.blk < |f| && p.blk in open && z.next == p.next
    requires Globals(checked) + {p.head} <= z.avail[p.blk] + BlockDefs(f[p.blk])
    requires LoopReady(f, z, loop, checked) && 0 < loop.test < p.blk && loop.test in open
    requires f[loop.test] == [Phi(loop.phi, [Edge(loop.first.head, loop.first.blk)])]
    ensures Sound(Closed(f, p, loop), z', open + {|f|} - {p.blk, loop.test})
    ensures z'.avail == z.avail + [Globals(checked) + {loop.phi}] && z'.next == p.next + 3
  {
    var t, e, e' := loop.test, Edge(loop.first.head, loop.first.blk), Edge(p.head, p.blk);
    assert StartsWithPhi(f[t]) && PhiMatches([e], Preds(f, t));
    AppendBack(f, z, open, p.blk, t, e, e', loop.phi);
    var f1: Function := Append(f, p.blk, [Br(t)])[t := [Phi(loop.phi, [e, e'])]];
    var z1 := TestSound(f1, z, open - {p.blk}, t, loop.phi, [e, e'], checked);
    var f2 := TestDone(f1, t, loop.phi, p.next);
    var edge := Edge(loop.phi, t);
    assert EntryOk(f2, z1, edge) && [edge][0] == edge;
    AppendPhi(f2, z1, open - {p.blk} + {|f|} - {t}, |f|, Phi(p.next + 2, [edge]));
    z' := Defining(z1, |f|, 0, Phi(p.next + 2, [edge]));
    CloseAssembled(f, p, loop, e, e');
    assert open - {p.blk} + {|f|} - {t} == open + {|f|} - {p.blk, t};
  }

  /** The function that `GenClose` leaves. */
  function Closed(f: Function, p: Pos, loop: Frame): Function
    requires p.blk < |f| && loop.test < |f| && f[loop.test] != [] && f[loop.test][0].Phi? && loop.test != p.blk
  {
    var test := AddIncoming(f[loop.test], Edge(p.head, p.blk))
              + [Load(p.next, loop.phi), CmpEqZero(p.next + 1, p.next), CondBr(p.next + 1, |f|, loop.test + 1)];
    Append(f, p.blk, [Br(loop.test)])[loop.test := test] + [[Phi(p.next + 2, [Edge(loop.phi, loop.test)])]]
  }

  lemma {:induction false} LoadStraight(r: Reg, next: Reg, checked: bool)
    ensures StraightOk(TestLoad(r, next), Globals(checked) + {r}, next)
  {
  }

  /** The single pushes of a loop's end add up to what `GenClose` writes at once. */
  lemma {:induction false} CloseAssembled(f: Function, p: Pos, loop: Frame, e: Edge, e': Edge)
    requires p.blk < |f| && loop.test < p.blk && f[loop.test] == [Phi(loop.phi, [e])] && e' == Edge(p.head, p.blk)
    ensures var f1: Function := Append(f, p.blk, [Br(loop.test)])[loop.test := [Phi(loop.phi, [e, e'])]];
            Append(TestDone(f1, loop.test, loop.phi, p.next), |f|, [Phi(p.next + 2, [Edge(loop.phi, loop.test)])])
            == Closed(f, p, loop)
  {
    var t, phis := loop.test, [Phi(loop.phi, [e, e'])];
    var load, x := TestLoad(loop.phi, p.next), CondBr(p.next + 1, |f|, loop.test + 1);
    var f1: Function := Append(f, p.blk, [Br(t)])[t := phis];
    assert [e] + [e'] == [e, e'];
    assert AddIncoming(f[t], e') == phis;
    AppendTwice(f1, t, load, [x]);
    assert load + [x] == [load[0], load[1], x];
    assert Append(f1, t, load + [x]) == Append(f, p.blk, [Br(t)])[t := phis + (load + [x])];
    AppendOnNew(Append(f1, t, load + [x]), Phi(p.next + 2, [Edge(loop.phi, t)]));
  }

  lemma {:induction false} CloseVerified(g: Gen, z: Cert, mem: nat, checked: bool, i: nat) returns (z': Cert)
    requires Verified(g, z, mem, checked) && g.loops != []
    ensures Verified(GenClose(g), z', mem, checked)
  {
    var g', loop := GenClose(g), g.loops[|g.loops| - 1];
    assert LoopReady(g.f, z, loop, checked) && g.HalfTest(loop);
    z' := CloseSound(g.f, z, Unfinished(g), g.Here(), loop, checked);
    CloseFacts(g, g', loop, mem, checked, i);
    CloseReady(g, z, g', z', mem, checked);
  }

  lemma {:induction false} CloseFacts(g: Gen, g': Gen, loop: Frame, mem: nat, checked: bool, i: nat)
    requires g.Ok() && HeaderKept(g, mem, checked) && g.loops != [] && loop == g.loops[|g.loops| - 1] &&
               g' == GenClose(g)
    ensures g'.Ok() && HeaderKept(g', mem, checked) && g.HalfTest(loop) && loop.test != g.insert
    ensures g'.f == Closed(g.f, g.Here(), loop) && g'.next == g.next + 3
    ensures Unfinished(g') == Unfinished(g) + {|g.f|} - {g.insert, loop.test}
  {
    assert g.HalfTest(loop);
    GenCloseOk(g);
    HeaderKeptStep(g, Close, i, mem, checked);
    UnfinishedCloses(g, g');
  }

  lemma {:induction false} CloseReady(g: Gen, z: Cert, g': Gen, z': Cert, mem: nat, checked: bool)
    requires Verified(g, z, mem, checked) && g.loops != [] && g' == GenClose(g)
    requires z'.avail == z.avail + [Globals(checked) + {g.loops[|g.loops| - 1].phi}]
    ensures forall t :: 0 <= t < |g'.loops| ==> LoopReady(g'.f, z', g'.loops[t], checked)
    ensures g.loops[|g.loops| - 1].test > END
    ensures Globals(checked) + {g'.head} <= z'.avail[g'.insert] + BlockDefs(g'.f[g'.insert])
  {
    var last := |g.loops| - 1;
    forall t | 0 <= t < |g'.loops| ensures LoopReady(g'.f, z', g'.loops[t], checked) {
      assert g'.loops[t] == g.loops[t] && LoopReady(g.f, z, g.loops[t], checked);
      OuterReady(g, z, g', z', g.loops[t], checked);
    }
    CloseHead(g, g', g.loops[last]);
  }

  lemma {:induction false} OuterReady(g: Gen, z: Cert, g': Gen, z': Cert, loop: Frame, checked: bool)
    requires g.Ok() && g.loops != [] && g' == GenClose(g) && |z.avail| == |g.f| && |z'.avail| == |g.f| + 1
    requires LoopReady(g.f, z, loop, checked) && forall b :: 0 <= b < |g.f| ==> z'.avail[b] == z.avail[b]
    requires StartsWithPhi(g'.f[loop.test + 1]) ==> StartsWithPhi(g.f[loop.test + 1])
    ensures LoopReady(g'.f, z', loop, checked)
  {
    ReadyKept(g.f, z, g'.f, z', loop, checked);
  }

  /** The head after a loop is defined by the phi that begins the new block. */
  lemma {:induction false} CloseHead(g: Gen, g': Gen, loop: Frame)
    requires g.Ok() && g.loops != [] && loop == g.loops[|g.loops| - 1] && g' == GenClose(g)
    ensures g'.insert == |g.f| < |g'.f| && g'.head in BlockDefs(g'.f[g'.insert])
  {
    PhiDefs(g'.head, [Edge(loop.phi, loop.test)]);
  }

  lemma {:induction false} UnfinishedCloses(g: Gen, g': Gen)
    requires g.Ok() && g.loops != [] && g' == GenClose(g)
    ensures Unfinished(g') == Unfinished(g) + {|g.f|} - {g.insert, g.loops[|g.loops| - 1].test}
  {
    assert forall t :: 0 <= t < |g.loops| ==> g.HalfTest(g.loops[t]);
    assert forall t :: 0 <= t < |g'.loops| ==> g'.loops[t] == g.loops[t];
  }

  // ---- whole programs ----

  lemma {:induction false} EmptySound() returns (z: Cert)
    ensures z == Cert([{}], map[], 0) && Sound([[]], z, {0})
  {
    z := Cert([{}], map[], 0);
  }

  /** The end block and the error block, before the entry has any code. */
  lemma {:induction false} FooterSound(checked: bool) returns (z: Cert)
    ensures Sound([[], [Ret]] + (if checked then [[PutsError, Br(END)]] else []), z, {ENTRY})
    ensures z == Cert(if checked then [{}, {}, {}] else [{}, {}], map[], 0)
  {
    var z0 := EmptySound();
    var f0: Function, f1: Function := [[]], [[], [Ret]];
    z := AddBlock(f0, z0, {0}, Ret);
    assert f0 + [[Ret]] == f1;
    if checked {
      z := AddErrorBlock(f1, z);
    } else {
      assert f1 + [] == f1;
    }
  }

  lemma {:induction false} AddBlock(f: Function, z: Cert, open: set<BlockId>, x: Instr) returns (z': Cert)
    requires Sound(f, z, open) && x.Ret? && open <= {ENTRY}
    ensures Sound(f + [[x]], z', open) && z' == z.(avail := z.avail + [{}])
  {
    NewBlock(f, z, open, {});
    z' := z.(avail := z.avail + [{}]);
    AppendTerminator(f + [[]], z', open + {|f|}, |f|, x);
    AppendOnNew(f, x);
    assert open + {|f|} - {|f|} == open;
  }

  lemma {:induction false} AddErrorBlock(f: Function, z: Cert) returns (z': Cert)
    requires f == [[], [Ret]] && Sound(f, z, {ENTRY}) && z.avail[END] == {}
    ensures Sound(f + [[PutsError, Br(END)]], z', {ENTRY}) && z' == z.(avail := z.avail + [{}])
  {
    NewBlock(f, z, {ENTRY}, {});
    z' := z.(avail := z.avail + [{}]);
    assert {ENTRY} + {|f|} == {ENTRY, ABERROR};
    var f1: Function := f + [[]];
    AppendPlain(f1, z', {ENTRY, ABERROR}, ABERROR, PutsError);
    AppendOnNew(f, PutsError);
    EndErrorBlock(f, f + [[PutsError]], z');
  }

  lemma {:induction false} EndErrorBlock(f: Function, f': Function, z: Cert)
    requires f == [[], [Ret]] && f' == f + [[PutsError]] && Sound(f', z, {ENTRY, ABERROR}) && z.avail[END] == {}
    ensures Sound(f + [[PutsError, Br(END)]], z, {ENTRY})
  {
    assert EdgeOk(f', z, ABERROR, END);
    AppendTerminator(f', z, {ENTRY, ABERROR}, ABERROR, Br(END));
    assert [PutsError] + [Br(END)] == [PutsError, Br(END)];
    assert Append(f', ABERROR, [Br(END)]) == f + [[PutsError, Br(END)]];
    assert {ENTRY, ABERROR} - {ABERROR} == {ENTRY};
  }

  lemma {:induction false} HeaderVerified(mem: nat, checked: bool) returns (z: Cert)
    ensures Verified(Header(mem, checked), z, mem, checked)
  {
    var z0 := FooterSound(checked);
    var f0: Function := [[], [Ret]] + (if checked then [[PutsError, Br(END)]] else []);
    AppendPlain(f0, z0, {ENTRY}, ENTRY, Malloc(ARR));
    DefsOfAppend(f0[ENTRY], Malloc(ARR));
    var f1, z1 := Append(f0, ENTRY, [Malloc(ARR)]), Defining(z0, ENTRY, 0, Malloc(ARR));
    if checked {
      AppendPlain(f1, z1, {ENTRY}, ENTRY, Gep(ARRMAX, ARR, mem));
      DefsOfAppend(f1[ENTRY], Gep(ARRMAX, ARR, mem));
      f1, z1 := Append(f1, ENTRY, [Gep(ARRMAX, ARR, mem)]), Defining(z1, ENTRY, 1, Gep(ARRMAX, ARR, mem));
    }
    var head := Gep(HEAD, ARR, mem / 2);
    AppendPlain(f1, z1, {ENTRY}, ENTRY, head);
    DefsOfAppend(f1[ENTRY], head);
    z := Defining(z1, ENTRY, |f1[ENTRY]|, head);
    var g := Header(mem, checked);
    assert f1[ENTRY] + [head] == EntryCode(mem, checked);
    assert Append(f1, ENTRY, [head]) == g.f;
    assert Unfinished(g) == {ENTRY};
  }

  lemma {:induction false} SymbolVerified(g: Gen, z: Cert, mem: nat, checked: bool, t: Token, i: nat) returns (z': Cert)
    requires Verified(g, z, mem, checked)
    ensures Verified(GenSymbol(g, t, i, checked), z', mem, checked)
  {
    if t.Open? {
      z' := OpenVerified(g, z, mem, checked, i);
    } else if t.Close? {
      if g.loops == [] {
        z' := z;
      } else {
        z' := CloseVerified(g, z, mem, checked, i);
      }
    } else if checked && t.Move? {
      z' := CheckedVerified(g, z, mem, t.amount, i);
    } else {
      z' := PlainVerified(g, z, mem, checked, t, i);
    }
  }

  lemma {:induction false} NextVerified(g: Gen, z: Cert, mem: nat, checked: bool, t: Token, i: nat, g': Gen)
    returns (z': Cert)
    requires Verified(g, z, mem, checked) && g' == GenSymbol(g, t, i, checked)
    ensures Verified(g', z', mem, checked)
  {
    z' := SymbolVerified(g, z, mem, checked, t, i);
  }

  /** All states the generator goes through. */
  ghost predicate IsTrace(st: seq<Gen>, toks: seq<Token>, mem: nat, checked: bool) {
    && |st| == |toks| + 1 && st[0] == Header(mem, checked)
    && forall i :: 0 <= i < |toks| ==> IsNext(st[i], toks[i], i, checked, st[i + 1])
  }

  ghost predicate IsNext(g: Gen, t: Token, i: nat, checked: bool, g': Gen) {
    g.Ok() && g' == GenSymbol(g, t, i, checked)
  }

  lemma {:induction false} GenTrace(toks: seq<Token>, mem: nat, checked: bool, k: nat) returns (st: seq<Gen>)
    requires k <= |toks|
    ensures IsTrace(st, toks[..k], mem, checked) && st[k] == GenRun(toks, mem, checked, k)
    decreases k
  {
    if k == 0 {
      st := [Header(mem, checked)];
      assert toks[..0] == [];
    } else {
      var before := GenTrace(toks, mem, checked, k - 1);
      var g, g' := GenNext(toks, mem, checked, k);
      assert before[k - 1] == g && IsNext(g, toks[k - 1], k - 1, checked, g');
      TraceExtended(before, toks, mem, checked, k, g');
      st := before + [g'];
    }
  }

  lemma {:induction false} TraceExtended(st: seq<Gen>, toks: seq<Token>, mem: nat, checked: bool, k: nat, g: Gen)
    requires 0 < k <= |toks| && IsTrace(st, toks[..k - 1], mem, checked)
    requires IsNext(st[k - 1], toks[k - 1], k - 1, checked, g)
    ensures IsTrace(st + [g], toks[..k], mem, checked)
  {
    var st' := st + [g];
    forall i | 0 <= i < k ensures IsNext(st'[i], toks[..k][i], i, checked, st'[i + 1]) {
      if i < k - 1 {
        assert IsNext(st[i], toks[..k - 1][i], i, checked, st[i + 1]);
      }
    }
  }

  lemma {:induction false} TraceVerified(st: seq<Gen>, toks: seq<Token>, mem: nat, checked: bool, k: nat)
    returns (z: Cert)
    requires IsTrace(st, toks, mem, checked) && k <= |toks|
    ensures Verified(st[k], z, mem, checked)
    decreases k
  {
    if k == 0 {
      z := HeaderVerified(mem, checked);
    } else {
      z := TraceVerified(st, toks, mem, checked, k - 1);
      assert IsNext(st[k - 1], toks[k - 1], k - 1, checked, st[k]);
      z := NextVerified(st[k - 1], z, mem, checked, toks[k - 1], k - 1, st[k]);
    }
  }

  lemma {:induction false} FinishWellFormed(g: Gen, z: Cert, mem: nat, checked: bool)
    requires Verified(g, z, mem, checked) && g.loops == []
    ensures WellFormed(Finish(g))
  {
    assert EdgeOk(g.f, z, g.insert, END);
    AppendTerminator(g.f, z, Unfinished(g), g.insert, Br(END));
    assert Unfinished(g) - {g.insert} == {};
    SoundIsWellFormed(Finish(g), z);
  }

  /** The function generated for a balanced program is well-formed SSA. */
  lemma {:induction false} GenIsWellFormed(toks: seq<Token>, mem: nat, checked: bool)
    requires Judge(TokenBrackets(toks), 0) == Balanced
    ensures WellFormed(Finish(GenRun(toks, mem, checked, |toks|)))
  {
    NothingOpen(toks, mem, checked);
    var st := GenTrace(toks, mem, checked, |toks|);
    var z := TraceVerified(st, toks[..|toks|], mem, checked, |toks|);
    FinishWellFormed(st[|toks|], z, mem, checked);
  }
}
