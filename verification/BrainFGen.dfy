/** The code that belongs to a sequence of symbols, built symbol by symbol with an
    explicit stack of the loops that are still open. `readloop` keeps that stack
    in its recursion; here it makes every prefix of a program a state of its own. */
module BrainFGen {
  import opened BrainFTokens
  import opened BrainFCfg
  import opened BrainFCode

  /** An open loop: where its `[` was, its phi, and its test block. The body follows the test block. */
  datatype Frame = Frame(open: nat, first: Pos, phi: Reg, test: BlockId)

  datatype Gen = Gen(f: Function, insert: BlockId, head: Reg, next: Reg, loops: seq<Frame>)
  {
    /** The test blocks of the open loops hold half a phi and lie before the insertion point. */
    predicate Ok() {
      && insert < |f|
      && (forall t :: 0 <= t < |loops| ==> HalfTest(loops[t]))
      && (forall t, u :: 0 <= t < u < |loops| ==> loops[t].test < loops[u].test)
    }

    predicate HalfTest(loop: Frame) {
      && loop.test < insert && loop.test < |f|
      && f[loop.test] == [Phi(loop.phi, [Edge(loop.first.head, loop.first.blk)])]
    }

    function Here(): Pos
      requires insert < |f|
    {
      Pos(insert, |f[insert]|, head, next)
    }
  }

  /** The block with one more entry in the phi it starts with. */
  function AddIncoming(b: Block, e: Edge): Block
    requires b != [] && b[0].Phi?
  {
    b[0 := Phi(b[0].dst, b[0].incoming + [e])]
  }

  function Header(mem: nat, checked: bool): Gen {
    Gen([EntryCode(mem, checked), [Ret]] + (if checked then [[PutsError, Br(END)]] else []),
        ENTRY, HEAD, HEAD + 1, [])
  }

  function GenMove(g: Gen, n: int, checked: bool): Gen
    requires g.Ok()
  {
    var p, below := g.Here(), |g.f|;
    if checked then
      g.(f := Append(g.f, g.insert, MoveCode(p, n) + CheckCode(p, below)) + [[]],
         insert := below, head := p.next, next := p.next + 4)
    else
      g.(f := Append(g.f, g.insert, MoveCode(p, n)), head := p.next, next := p.next + 1)
  }

  /** `[`: a test block with half a phi, and the body's first block. */
  function GenOpen(g: Gen, i: nat): Gen
    requires g.Ok()
  {
    var p, test := g.Here(), |g.f|;
    Gen(Append(g.f, g.insert, [Br(test)]) + [[Phi(p.next, [Edge(p.head, p.blk)])], []],
        test + 1, p.next, p.next + 1, g.loops + [Frame(i, p, p.next, test)])
  }

  /** `]`: the rest of the phi, the loop test, and the first block behind the loop. */
  function GenClose(g: Gen): Gen
    requires g.Ok() && g.loops != []
  {
    var p, loop, after := g.Here(), g.loops[|g.loops| - 1], |g.f|;
    var f := Append(g.f, g.insert, [Br(loop.test)]);
    var test := AddIncoming(f[loop.test], Edge(p.head, p.blk))
              + [Load(p.next, loop.phi), CmpEqZero(p.next + 1, p.next), CondBr(p.next + 1, after, loop.test + 1)];
    Gen(f[loop.test := test] + [[Phi(p.next + 2, [Edge(loop.phi, loop.test)])]],
        after, p.next + 2, p.next + 3, g.loops[..|g.loops| - 1])
  }

  function GenSymbol(g: Gen, t: Token, i: nat, checked: bool): Gen
    requires g.Ok()
  {
    var p := g.Here();
    match t
    case Read => g.(f := Append(g.f, g.insert, ReadCode(p)), next := p.next + 2)
    case Write => g.(f := Append(g.f, g.insert, WriteCode(p)), next := p.next + 2)
    case Change(n) => g.(f := Append(g.f, g.insert, ChangeCode(p, n)), next := p.next + 2)
    case Move(n) => GenMove(g, n, checked)
    case Open => GenOpen(g, i)
    case Close => if g.loops != [] then GenClose(g) else g
  }

  lemma {:induction false} GenMoveOk(g: Gen, n: int, checked: bool)
    requires g.Ok()
    ensures GenMove(g, n, checked).Ok()
  {
  }

  lemma {:induction false} GenOpenOk(g: Gen, i: nat)
    requires g.Ok()
    ensures GenOpen(g, i).Ok()
  {
  }

  lemma {:induction false} GenCloseOk(g: Gen)
    requires g.Ok() && g.loops != []
    ensures GenClose(g).Ok()
  {
  }

  lemma {:induction false} GenSymbolOk(g: Gen, t: Token, i: nat, checked: bool)
    requires g.Ok()
    ensures GenSymbol(g, t, i, checked).Ok()
  {
    match t
    case Move(n) => GenMoveOk(g, n, checked);
    case Open => GenOpenOk(g, i);
    case Close => if g.loops != [] { GenCloseOk(g); }
    case _ =>
  }

  /** The code of the first `k` symbols. */
  function GenRun(toks: seq<Token>, mem: nat, checked: bool, k: nat): (g: Gen)
    requires k <= |toks|
    ensures g.Ok()
    decreases k
  {
    if k == 0 then Header(mem, checked)
    else
      var g := GenRun(toks, mem, checked, k - 1);
      GenSymbolOk(g, toks[k - 1], k - 1, checked);
      GenSymbol(g, toks[k - 1], k - 1, checked)
  }

  lemma {:induction false} GenNext(toks: seq<Token>, mem: nat, checked: bool, k: nat) returns (g: Gen, g': Gen)
    requires 0 < k <= |toks|
    ensures g == GenRun(toks, mem, checked, k - 1) && g' == GenRun(toks, mem, checked, k)
    ensures g.Ok() && g' == GenSymbol(g, toks[k - 1], k - 1, checked)
  {
    g, g' := GenRun(toks, mem, checked, k - 1), GenRun(toks, mem, checked, k);
  }
}
