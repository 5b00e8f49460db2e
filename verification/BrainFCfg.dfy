/** The control-flow graph that the compiler builds: the part of LLVM's IR it uses. */
module BrainFCfg {
  import opened BrainFSource

  type Reg = nat

  type BlockId = nat

  /** One incoming entry of a phi: the value it takes when control comes from that block. */
  datatype Edge = Edge(value: Reg, from: BlockId)

  /** `AddI8` adds a constant modulo 256. Pointers are offsets from the start of the tape. */
  datatype Instr =
    | Malloc(dst: Reg)
    | Gep(dst: Reg, base: Reg, offset: int)
    | GetChar(dst: Reg)
    | PutChar(src: Reg)
    | Trunc(dst: Reg, src: Reg)
    | SExt(dst: Reg, src: Reg)
    | Load(dst: Reg, ptr: Reg)
    | Store8(src: Reg, ptr: Reg)
    | AddI8(dst: Reg, src: Reg, amount: int)
    | CmpUge(dst: Reg, a: Reg, b: Reg)
    | CmpUlt(dst: Reg, a: Reg, b: Reg)
    | OrI1(dst: Reg, a: Reg, b: Reg)
    | CmpEqZero(dst: Reg, src: Reg)
    | Phi(dst: Reg, incoming: seq<Edge>)
    | PutsError
    | Br(to: BlockId)
    | CondBr(cond: Reg, yes: BlockId, no: BlockId)
    | Ret

  type Block = seq<Instr>

  type Function = seq<Block>

  function Append(f: Function, b: BlockId, code: seq<Instr>): Function
    requires b < |f|
  {
    f[b := f[b] + code]
  }

  datatype Value = Ptr(offset: int) | I8(b: byte) | I32(n: int) | I1(t: bool)

  /** `Trapped` is a load or store outside the tape, `Wrong` code that is not well formed. */
  datatype Outcome = Going | Returned | Trapped | Wrong

  datatype State = State(blk: BlockId, idx: nat, prev: BlockId, regs: map<Reg, Value>,
                         store: Store, errors: nat, outcome: Outcome)
  {
    /** Goes on behind an instruction that defines a register. */
    function Def(dst: Reg, v: Value): State {
      this.(idx := idx + 1, regs := regs[dst := v])
    }

    function Jump(to: BlockId): State {
      this.(blk := to, idx := 0, prev := blk)
    }

    predicate HasPtr(r: Reg) { r in regs && regs[r].Ptr? }

    predicate HasI8(r: Reg) { r in regs && regs[r].I8? }

    predicate HasI32(r: Reg) { r in regs && regs[r].I32? }

    predicate HasI1(r: Reg) { r in regs && regs[r].I1? }
  }

  /** The entry of a phi for the predecessor `from`. */
  function Incoming(edges: seq<Edge>, from: BlockId): seq<Reg> {
    if edges == [] then []
    else if edges[0].from == from then [edges[0].value]
    else Incoming(edges[1..], from)
  }

  function SignExtend(b: byte): int {
    if b < 128 then b else b - 256
  }

  function Exec(i: Instr, x: State): State {
    var wrong := x.(outcome := Wrong);
    match i
    case Malloc(d) => x.Def(d, Ptr(0))
    case Gep(d, p, k) => if x.HasPtr(p) then x.Def(d, Ptr(x.regs[p].offset + k)) else wrong
    case GetChar(d) =>
      x.Def(d, I32(if x.store.input == [] then -1 else x.store.input[0])).(store := x.store.Consume())
    case PutChar(r) =>
      if x.HasI32(r) then x.(idx := x.idx + 1, store := x.store.Print(Wrap(x.regs[r].n))) else wrong
    case Trunc(d, r) => if x.HasI32(r) then x.Def(d, I8(Wrap(x.regs[r].n))) else wrong
    case SExt(d, r) => if x.HasI8(r) then x.Def(d, I32(SignExtend(x.regs[r].b))) else wrong
    case Load(d, p) =>
      if !x.HasPtr(p) then wrong
      else if x.store.OnTape(x.regs[p].offset) then x.Def(d, I8(x.store.tape[x.regs[p].offset]))
      else x.(outcome := Trapped)
    case Store8(r, p) =>
      if !x.HasPtr(p) || !x.HasI8(r) then wrong
      else if x.store.OnTape(x.regs[p].offset) then
        x.(idx := x.idx + 1, store := x.store.Put(x.regs[p].offset, x.regs[r].b))
      else x.(outcome := Trapped)
    case AddI8(d, r, k) =>
      if x.HasI8(r) then x.Def(d, I8(Wrap(x.regs[r].b as int + k))) else wrong
    case CmpUge(d, a, b) =>
      if x.HasPtr(a) && x.HasPtr(b) then x.Def(d, I1(x.regs[a].offset >= x.regs[b].offset)) else wrong
    case CmpUlt(d, a, b) =>
      if x.HasPtr(a) && x.HasPtr(b) then x.Def(d, I1(x.regs[a].offset < x.regs[b].offset)) else wrong
    case OrI1(d, a, b) =>
      if x.HasI1(a) && x.HasI1(b) then x.Def(d, I1(x.regs[a].t || x.regs[b].t)) else wrong
    case CmpEqZero(d, r) => if x.HasI8(r) then x.Def(d, I1(x.regs[r].b == 0)) else wrong
    case Phi(d, edges) =>
      var v := Incoming(edges, x.prev);
      if v != [] && v[0] in x.regs then x.Def(d, x.regs[v[0]]) else wrong
    case PutsError => x.(idx := x.idx + 1, errors := x.errors + 1)
    case Br(b) => x.Jump(b)
    case CondBr(c, b, b') => if x.HasI1(c) then x.Jump(if x.regs[c].t then b else b') else wrong
    case Ret => x.(outcome := Returned)
  }

  function CfgStep(f: Function, x: State): State {
    if x.outcome != Going then x
    else if x.blk < |f| && x.idx < |f[x.blk]| then Exec(f[x.blk][x.idx], x)
    else x.(outcome := Wrong)
  }

  function CfgMachine(f: Function): State -> State {
    x => CfgStep(f, x)
  }

  function CfgStart(mem: nat, input: seq<byte>): State {
    State(0, 0, 0, map[], Store(Blank(mem), input, []), 0, Going)
  }
}
