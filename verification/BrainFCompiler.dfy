/** The compiler itself: one pass over the program text, with a one-symbol
    lookahead, that appends to the blocks of a function as it reads. */
module BrainFCompiler {
  import opened BrainFSource
  import opened BrainFTokens
  import opened Options
  import opened BrainFFusion
  import opened BrainFCfg
  import opened BrainFCode
  import opened BrainFGen
  import opened BrainFLayout
  import opened BrainFSsa
  import opened BrainFGenSsa
  import opened BrainFTheorems

  datatype Symbol = SymNone | SymRead | SymWrite | SymMove | SymChange | SymLoop | SymEndLoop | SymEof

  predicate IsRunSymbol(s: Symbol) {
    s.SymMove? || s.SymChange?
  }

  function ToTokens(s: Symbol, value: int): seq<Token> {
    match s
    case SymRead => [Read]
    case SymWrite => [Write]
    case SymMove => [Move(value)]
    case SymChange => [Change(value)]
    case SymLoop => [Open]
    case SymEndLoop => [Close]
    case SymNone => []
    case SymEof => []
  }

  /** The symbols still to come when `s` has been read and `rest` has not. */
  function Coming(s: Symbol, value: int, rest: string): seq<Token> {
    if IsRunSymbol(s) then Lex(Some(ToTokens(s, value)[0]), rest) else ToTokens(s, value) + Lex(None, rest)
  }

  /** What the lookahead guarantees when a symbol is about to be executed. */
  predicate Lexed(cursym: Symbol, nextsym: Symbol, rest: string) {
    && cursym != SymNone
    && (IsRunSymbol(cursym) <==> nextsym != SymNone)
    && (cursym == SymEof || nextsym == SymEof ==> rest == [])
  }

  /** `cursym`, then `nextsym`, then the rest of the text. */
  function Ahead(cursym: Symbol, curvalue: int, nextsym: Symbol, nextvalue: int, rest: string): seq<Token> {
    ToTokens(cursym, curvalue) + Coming(nextsym, nextvalue, rest)
  }

  /** The lookahead's registers. */
  datatype Lookahead = Lookahead(cursym: Symbol, curvalue: int, nextsym: Symbol, nextvalue: int)
  {
    function Tokens(rest: string): seq<Token> {
      Ahead(cursym, curvalue, nextsym, nextvalue, rest)
    }
  }

  function SymbolOf(t: Token): Symbol {
    match t
    case Read => SymRead
    case Write => SymWrite
    case Move(_) => SymMove
    case Change(_) => SymChange
    case Open => SymLoop
    case Close => SymEndLoop
  }

  /** Whether the symbol `t` goes on with the run that `s` is. */
  predicate GoesOn(s: Symbol, t: Token) {
    IsRun(t) && s == SymbolOf(t)
  }

  lemma {:induction false} FusedComing(s: Symbol, value: int, t: Token, c: char, tail: string)
    requires CharToken(c) == Some(t) && GoesOn(s, t)
    ensures Coming(s, value, [c] + tail) == Coming(s, value + t.amount, tail)
  {
    assert ([c] + tail)[1..] == tail;
  }

  lemma {:induction false} FreshComing(value: int, t: Token, c: char, tail: string)
    requires CharToken(c) == Some(t)
    ensures Coming(SymNone, value, [c] + tail) == LexFrom(t, tail)
    ensures LexFrom(t, tail) == Coming(SymbolOf(t), if IsRun(t) then t.amount else value, tail)
  {
    assert ([c] + tail)[1..] == tail;
    assert Lex(None, [c] + tail) == [] + LexFrom(t, tail);
  }

  lemma {:induction false} NextComing(s: Symbol, value: int, t: Token, c: char, tail: string)
    requires CharToken(c) == Some(t) && IsRunSymbol(s) && !GoesOn(s, t)
    ensures Coming(s, value, [c] + tail) == ToTokens(s, value) + LexFrom(t, tail)
  {
    assert ([c] + tail)[1..] == tail;
  }

  lemma {:induction false} IgnoredComing(s: Symbol, value: int, c: char, tail: string)
    requires CharToken(c) == None
    ensures Coming(s, value, [c] + tail) == Coming(s, value, tail)
  {
    assert ([c] + tail)[1..] == tail;
  }

  /** The `switch (c)` of the lookahead loop; `loop` tells whether to read on. */
  method Accept(c: char, cursym: Symbol, curvalue: int, ghost tail: string) returns (l: Lookahead, loop: bool)
    requires cursym == SymNone || IsRunSymbol(cursym)
    ensures loop ==> l.nextsym == SymNone && (l.cursym == SymNone || IsRunSymbol(l.cursym))
    ensures loop ==> Coming(l.cursym, l.curvalue, tail) == Coming(cursym, curvalue, [c] + tail)
    ensures !loop ==> l.cursym != SymNone && l.cursym != SymEof && l.nextsym != SymEof
    ensures !loop ==> (IsRunSymbol(l.cursym) <==> l.nextsym != SymNone)
    ensures !loop ==> l.Tokens(tail) == Coming(cursym, curvalue, [c] + tail)
    ensures cursym != SymNone ==> l.cursym == cursym
  {
    l, loop := Lookahead(cursym, curvalue, SymNone, 0), true;
    var direction := if c == '-' || c == '<' then -1 else 1;
    match c
    case '-' | '+' | '<' | '>' =>
      var s := if c == '-' || c == '+' then SymChange else SymMove;
      ghost var t := CharToken(c).value;
      if cursym == s {
        FusedComing(s, curvalue, t, c, tail);
        l := l.(curvalue := curvalue + direction);
      } else if cursym == SymNone {
        FreshComing(curvalue, t, c, tail);
        l := l.(cursym := s, curvalue := direction);
      } else {
        NextComing(cursym, curvalue, t, c, tail);
        FreshComing(0, t, c, tail);
        l, loop := l.(nextsym := s, nextvalue := direction), false;
      }
    case ',' | '.' | '[' | ']' =>
      ghost var t := CharToken(c).value;
      var s := if c == ',' then SymRead else if c == '.' then SymWrite else if c == '[' then SymLoop else SymEndLoop;
      if cursym == SymNone {
        FreshComing(curvalue, t, c, tail);
        assert Coming(SymNone, 0, tail) == [] + Lex(None, tail);
        l := l.(cursym := s);
      } else {
        NextComing(cursym, curvalue, t, c, tail);
        FreshComing(0, t, c, tail);
        l := l.(nextsym := s);
      }
      loop := false;
    case _ =>
      IgnoredComing(cursym, curvalue, c, tail);
  }

  /** The lookahead loop of `readloop`: reads characters until `cursym` is
      complete, which for a run takes one more symbol. */
  method ReadSymbol(program: string, start: nat, sym: Symbol, value: int) returns (at: nat, l: Lookahead)
    requires start <= |program| && (sym == SymEof ==> start == |program|)
    ensures start <= at <= |program|
    ensures Lexed(l.cursym, l.nextsym, program[at..])
    ensures l.Tokens(program[at..]) == Coming(sym, value, program[start..])
    ensures sym == SymNone ==> at > start || l.cursym == SymEof
    ensures IsRunSymbol(sym) ==> at > start || l.nextsym == SymEof
    ensures sym != SymNone ==> l.cursym == sym
  {
    at, l := start, Lookahead(sym, value, SymNone, 0);
    var loop := sym == SymNone || sym == SymMove || sym == SymChange;
    ghost var rest := program[start..];
    ghost var all := Coming(sym, value, rest);
    if !loop {
      NothingNext(sym, value, rest);
    }
    while loop
      invariant start <= at <= |program| && rest == program[at..]
      invariant loop ==> l.nextsym == SymNone && (l.cursym == SymNone || IsRunSymbol(l.cursym))
      invariant loop ==> Coming(l.cursym, l.curvalue, rest) == all
      invariant !loop ==> Lexed(l.cursym, l.nextsym, rest) && l.Tokens(rest) == all
      invariant sym != SymNone ==> l.cursym == sym
      invariant at == start && loop ==> l == Lookahead(sym, value, SymNone, 0)
      invariant !loop && sym == SymNone ==> at > start || l.cursym == SymEof
      invariant !loop && IsRunSymbol(sym) ==> at > start || l.nextsym == SymEof
      decreases loop, |program| - at
    {
      if at == |program| {
        l := AtEnd(l, rest);
        loop := false;
      } else {
        var c := program[at];
        ghost var tail := rest[1..];
        assert rest == [c] + tail;
        l, loop := Accept(c, l.cursym, l.curvalue, tail);
        at, rest := at + 1, tail;
      }
    }
  }

  lemma {:induction false} NothingNext(s: Symbol, value: int, rest: string)
    requires s != SymNone && !IsRunSymbol(s)
    ensures Lookahead(s, value, SymNone, 0).Tokens(rest) == Coming(s, value, rest)
  {
    assert Coming(SymNone, 0, rest) == [] + Lex(None, rest);
  }

  /** At the end of the file. */
  method AtEnd(l: Lookahead, ghost rest: string) returns (l': Lookahead)
    requires rest == [] && l.nextsym == SymNone && (l.cursym == SymNone || IsRunSymbol(l.cursym))
    ensures l' == if l.cursym == SymNone then l.(cursym := SymEof) else l.(nextsym := SymEof)
    ensures l'.Tokens(rest) == Coming(l.cursym, l.curvalue, rest)
  {
    if l.cursym == SymNone {
      l' := l.(cursym := SymEof);
    } else {
      l' := l.(nextsym := SymEof);
    }
  }

  lemma {:induction false} AppendThrice(f: Function, b: BlockId, x: Instr, y: Instr, z: Instr)
    requires b < |f|
    ensures Append(Append(Append(f, b, [x]), b, [y]), b, [z]) == Append(f, b, [x, y, z])
  {
    AppendTwice(f, b, [x], [y]);
    AppendTwice(f, b, [x] + [y], [z]);
    assert [x] + [y] + [z] == [x, y, z];
  }

  /** The fields of the compiler while it parses. The registers are numbered in
      the order in which they are created. */
  class BrainF {
    const program: string
    const memtotal: nat
    const checked: bool

    var at: nat
    var blocks: Function
    var insert: BlockId
    var curhead: Reg
    var next: Reg

    /** The symbols of the program and the states the generator goes through for them. */
    ghost const toks: seq<Token>
    ghost const st: seq<Gen>

    ghost function State(loops: seq<Frame>): Gen
      reads this
    {
      Gen(blocks, insert, curhead, next, loops)
    }

    ghost predicate Consistent()
      reads this
    {
      && at <= |program| && toks == Tokens(program) && IsTrace(st, toks, memtotal, checked)
    }

    /** The symbols from `k` on are those of the unread text, and the code is that of the ones before. */
    ghost predicate Reading(k: nat, loops: seq<Frame>)
      reads this
    {
      && Consistent() && Aligned(program, toks, at, k)
      && State(loops) == st[k] && State(loops).Ok()
      && NoExtraSoFar(k)
    }

    ghost predicate NoExtraSoFar(k: nat)
      reads this
    {
      k < |st| == |toks| + 1 && forall j :: 0 <= j < k && toks[j] == Close ==> st[j].loops != []
    }

    /** `header`: the entry block's code, the end block and the error block. */
    constructor (program: string, memtotal: nat, checked: bool)
      ensures this.program == program && this.memtotal == memtotal && this.checked == checked
      ensures Reading(0, [])
    {
      this.program, this.memtotal, this.checked := program, memtotal, checked;
      at := 0;
      var brainf := [Malloc(ARR)];
      if checked {
        brainf := brainf + [Gep(ARRMAX, ARR, memtotal)];
      }
      brainf := brainf + [Gep(HEAD, ARR, memtotal / 2)];
      var endbb := [Ret];
      var footer: Function := [endbb];
      if checked {
        footer := footer + [[PutsError, Br(END)]];
      }
      assert brainf == EntryCode(memtotal, checked);
      assert [brainf] + footer == Header(memtotal, checked).f;
      blocks, insert, curhead, next := [brainf] + footer, ENTRY, HEAD, HEAD + 1;
      toks := Tokens(program);
      var trace := GenTrace(Tokens(program), memtotal, checked, |Tokens(program)|);
      assert Tokens(program)[..|Tokens(program)|] == Tokens(program);
      st := trace;
      new;
      assert program[0..] == program && toks[0..] == toks;
    }

    method Fresh() returns (r: Reg)
      modifies this`next
      ensures r == old(next) && next == old(next) + 1
    {
      r := next;
      next := next + 1;
    }

    method Create(i: Instr)
      requires insert < |blocks|
      modifies this`blocks
      ensures blocks == Append(old(blocks), insert, [i])
    {
      blocks := blocks[insert := blocks[insert] + [i]];
    }

    method CreateBlock() returns (b: BlockId)
      modifies this`blocks
      ensures b == |old(blocks)| && blocks == old(blocks) + [[]]
    {
      b := |blocks|;
      blocks := blocks + [[]];
    }

    method CreateRead(ghost loops: seq<Frame>, ghost i: nat)
      requires State(loops).Ok()
      modifies this`blocks, this`next
      ensures State(loops) == GenSymbol(old(State(loops)), Read, i, checked)
    {
      ghost var f := blocks;
      var tape_0 := Fresh();
      Create(GetChar(tape_0));
      var tape_1 := Fresh();
      Create(Trunc(tape_1, tape_0));
      Create(Store8(tape_1, curhead));
      AppendThrice(f, insert, GetChar(tape_0), Trunc(tape_1, tape_0), Store8(tape_1, curhead));
    }

    method CreateWrite(ghost loops: seq<Frame>, ghost i: nat)
      requires State(loops).Ok()
      modifies this`blocks, this`next
      ensures State(loops) == GenSymbol(old(State(loops)), Write, i, checked)
    {
      ghost var f := blocks;
      var tape_0 := Fresh();
      Create(Load(tape_0, curhead));
      var tape_1 := Fresh();
      Create(SExt(tape_1, tape_0));
      Create(PutChar(tape_1));
      AppendThrice(f, insert, Load(tape_0, curhead), SExt(tape_1, tape_0), PutChar(tape_1));
    }

    method CreateChange(value: int, ghost loops: seq<Frame>, ghost i: nat)
      requires State(loops).Ok()
      modifies this`blocks, this`next
      ensures State(loops) == GenSymbol(old(State(loops)), Change(value), i, checked)
    {
      ghost var f := blocks;
      var tape_0 := Fresh();
      Create(Load(tape_0, curhead));
      var tape_1 := Fresh();
      Create(AddI8(tape_1, tape_0, value));
      Create(Store8(tape_1, curhead));
      AppendThrice(f, insert, Load(tape_0, curhead), AddI8(tape_1, tape_0, value), Store8(tape_1, curhead));
    }

    method CreateMove(value: int, ghost loops: seq<Frame>, ghost i: nat)
      requires State(loops).Ok()
      modifies this`blocks, this`next, this`curhead, this`insert
      ensures State(loops) == GenSymbol(old(State(loops)), Move(value), i, checked)
    {
      ghost var f, b, gep := blocks, insert, Gep(next, curhead, value);
      var head := Fresh();
      Create(Gep(head, curhead, value));
      curhead := head;
      if checked {
        var test_0 := Fresh();
        Create(CmpUge(test_0, curhead, ARRMAX));
        var test_1 := Fresh();
        Create(CmpUlt(test_1, curhead, ARR));
        AppendThrice(f, b, gep, CmpUge(test_0, head, ARRMAX), CmpUlt(test_1, head, ARR));
        var test_2 := Fresh();
        Create(OrI1(test_2, test_0, test_1));
        ghost var f4 := blocks;
        var nextbb := CreateBlock();
        Create(CondBr(test_2, ABERROR, nextbb));
        insert := nextbb;
        MoveAssembled(f, b, gep, CmpUge(test_0, head, ARRMAX), CmpUlt(test_1, head, ARR), OrI1(test_2, test_0, test_1),
                      CondBr(test_2, ABERROR, nextbb));
      }
    }

    /** The first half of a loop: the jump to the test block and half of its phi. */
    method OpenLoop(ghost loops: seq<Frame>, ghost i: nat) returns (phi: Reg, oldbb: BlockId, testbb: BlockId)
      requires State(loops).Ok()
      modifies this`blocks, this`next, this`curhead, this`insert
      ensures var g := old(State(loops));
              && State(loops + [Frame(i, g.Here(), phi, testbb)]) == GenSymbol(g, Open, i, checked)
      ensures oldbb == testbb + 1
    {
      ghost var f, b := blocks, insert;
      ghost var g := State(loops);
      testbb := CreateBlock();
      Create(Br(testbb));
      var bb_0 := insert;
      oldbb := CreateBlock();
      insert := oldbb;
      phi := Fresh();
      blocks := blocks[testbb := blocks[testbb] + [Phi(phi, [Edge(curhead, bb_0)])]];
      curhead := phi;
      assert [] + [Phi(phi, [Edge(g.head, b)])] == [Phi(phi, [Edge(g.head, b)])];
      assert blocks == Append(f, b, [Br(|f|)]) + [[Phi(phi, [Edge(g.head, b)])], []];
    }

    /** The second half: the jump back, the rest of the phi, the test, and the first block behind the loop. */
    method EndLoop(phi: Reg, oldbb: BlockId, testbb: BlockId, ghost loops: seq<Frame>, ghost i: nat)
      requires loops != [] && State(loops).Ok()
      requires var loop := loops[|loops| - 1]; loop.phi == phi && loop.test == testbb && oldbb == testbb + 1
      modifies this`blocks, this`next, this`curhead, this`insert
      ensures State(loops[..|loops| - 1]) == GenSymbol(old(State(loops)), Close, i, checked)
    {
      ghost var g := State(loops);
      ghost var f := blocks;
      assert g.HalfTest(loops[|loops| - 1]);
      Create(Br(testbb));
      blocks := blocks[testbb := AddIncoming(blocks[testbb], Edge(curhead, insert))];
      ghost var f1, phis := blocks, blocks[testbb];
      var tape_0 := Fresh();
      blocks := blocks[testbb := blocks[testbb] + [Load(tape_0, phi)]];
      var test_0 := Fresh();
      blocks := blocks[testbb := blocks[testbb] + [CmpEqZero(test_0, tape_0)]];
      var bb_0 := CreateBlock();
      blocks := blocks[testbb := blocks[testbb] + [CondBr(test_0, bb_0, oldbb)]];
      insert := bb_0;
      var head := Fresh();
      Create(Phi(head, [Edge(phi, testbb)]));
      curhead := head;
      assert phis + [Load(tape_0, phi)] + [CmpEqZero(test_0, tape_0)] + [CondBr(test_0, bb_0, oldbb)]
          == phis + [Load(tape_0, phi), CmpEqZero(test_0, tape_0), CondBr(test_0, bb_0, oldbb)];
      assert [] + [Phi(head, [Edge(phi, testbb)])] == [Phi(head, [Edge(phi, testbb)])];
      assert blocks == GenClose(g).f;
    }

    /** Symbols read but not yet compiled, and characters not yet read. */
    ghost function Work(l: Lookahead): int
      reads this
    {
      2 * (|program| - at) + (if l.cursym == SymEof || l.cursym == SymEndLoop then 0 else 1)
      + (if l.nextsym == SymNone || l.nextsym == SymEof then 0 else 1)
    }

    /** Between two symbols: `l` has been read, the code of the symbols before it written. */
    ghost predicate Between(l: Lookahead, k: nat, loops: seq<Frame>)
      reads this
    {
      && Consistent() && NoExtraSoFar(k)
      && State(loops) == st[k] && State(loops).Ok()
      && toks[k..] == l.Tokens(program[at..])
    }

    /** The next symbol is the one in `cursym`, and the others are behind it. */
    lemma {:induction false} Current(l: Lookahead, k: nat, loops: seq<Frame>)
      requires Between(l, k, loops)
      ensures l.cursym == SymNone || l.cursym == SymEof ==> toks[k..] == Coming(l.nextsym, l.nextvalue, program[at..])
      ensures l.cursym != SymNone && l.cursym != SymEof ==>
                && k < |toks| && [toks[k]] == ToTokens(l.cursym, l.curvalue)
                && toks[k + 1..] == Coming(l.nextsym, l.nextvalue, program[at..])
                && IsNext(st[k], toks[k], k, checked, st[k + 1])
    {
      var rest := Coming(l.nextsym, l.nextvalue, program[at..]);
      if l.cursym == SymNone || l.cursym == SymEof {
        assert [] + rest == rest;
      } else {
        var t := ToTokens(l.cursym, l.curvalue);
        assert toks[k..] == t + rest && |t| == 1;
        assert toks[k + 1..] == toks[k..][1..] == rest;
        assert toks[k] == toks[k..][0];
      }
    }

    /** The `switch` over the commands that are no loop. */
    method Command(l: Lookahead, ghost loops: seq<Frame>, ghost k: nat) returns (ghost k': nat)
      requires Between(l, k, loops)
      requires l.cursym in {SymNone, SymRead, SymWrite, SymMove, SymChange}
      modifies this`blocks, this`next, this`curhead, this`insert
      ensures k' == (if l.cursym == SymNone then k else k + 1) <= |toks|
      ensures Consistent() && NoExtraSoFar(k') && State(loops) == st[k'] && State(loops).Ok()
      ensures toks[k'..] == Coming(l.nextsym, l.nextvalue, program[at..])
    {
      Current(l, k, loops);
      ghost var g := State(loops);
      k' := k;
      if l.cursym != SymNone {
        GenSymbolOk(g, toks[k], k, checked);
        k' := k + 1;
      }
      match l.cursym
      case SymNone =>
      case SymRead => CreateRead(loops, k);
      case SymWrite => CreateWrite(loops, k);
      case SymMove => CreateMove(l.curvalue, loops, k);
      case SymChange => CreateChange(l.curvalue, loops, k);
    }

    /** The case of `[`, with the recursive call that compiles the loop. It
        consumes exactly the symbols up to the matching `]`. */
    method CompileLoop(l: Lookahead, ghost loops: seq<Frame>, ghost k: nat) returns (result: Nesting, ghost k': nat)
      requires Between(l, k, loops) && l.cursym == SymLoop && l.nextsym == SymNone
      modifies this
      ensures Consistent() && NoExtraSoFar(k') && k' <= |toks| && at >= old(at)
      ensures result == Balanced ==> State(loops) == st[k'] && State(loops).Ok()
      ensures result == Balanced ==> toks[k'..] == Coming(l.nextsym, l.nextvalue, program[at..])
      ensures result == Balanced ==> k' > 0 && PartnerOf(TokenBrackets(toks), k) == k' - 1
      ensures result == ExtraClose ==> k' < |toks| && toks[k'] == Close && st[k'].loops == []
      ensures result == MissingClose ==> k' == |toks| && st[k'].loops != []
      decreases |program| - at, 2
    {
      Current(l, k, loops);
      ghost var g := State(loops);
      GenSymbolOk(g, Open, k, checked);
      assert toks[k] == Open && Coming(SymNone, l.nextvalue, program[at..]) == [] + Lex(None, program[at..]);
      var phi_0, bb_1, testbb := OpenLoop(loops, k);
      ghost var inner := loops + [Frame(k, g.Here(), phi_0, testbb)];
      assert toks[k] != Close;
      result, k' := ReadLoop(Some(phi_0), bb_1, testbb, k + 1, inner);
      assert inner[..|inner| - 1] == loops;
      assert Coming(SymNone, l.nextvalue, program[at..]) == [] + Lex(None, program[at..]);
    }

    /** The symbol before `k` closes the innermost loop. */
    ghost predicate Ends(loops: seq<Frame>, k: nat)
      reads this
    {
      loops != [] && k > 0 && PartnerOf(TokenBrackets(toks), loops[|loops| - 1].open) == k - 1
    }

    /** The case of `]`. */
    method CompileEnd(phi: Option<Reg>, oldbb: BlockId, testbb: BlockId, l: Lookahead, ghost loops: seq<Frame>,
            ghost k: nat)
      returns (result: Nesting, ghost k': nat)
      requires Between(l, k, loops) && l.cursym == SymEndLoop && l.nextsym == SymNone && (phi.None? <==> loops == [])
      requires phi.Some? ==> var loop := loops[|loops| - 1];
                             loop.phi == phi.value && loop.test == testbb && oldbb == testbb + 1
      modifies this`blocks, this`next, this`curhead, this`insert
      ensures Consistent() && NoExtraSoFar(k')
      ensures result == if phi.None? then ExtraClose else Balanced
      ensures phi.None? ==> k' < |toks| && toks[k'] == Close && st[k'].loops == []
      ensures phi.Some? ==> Reading(k', loops[..|loops| - 1]) && Ends(loops, k')
    {
      Current(l, k, loops);
      ghost var g := State(loops);
      k' := k;
      if phi.None? {
        result := ExtraClose;
      } else {
        GenSymbolOk(g, Close, k, checked);
        LoopEnds(toks, memtotal, checked, st, k);
        EndLoop(phi.value, oldbb, testbb, loops, k);
        assert Coming(SymNone, l.nextvalue, program[at..]) == [] + Lex(None, program[at..]);
        k' := k + 1;
        result := Balanced;
      }
    }

    /** `cursym = nextsym`, and on with the lookahead. */
    method Advance(l: Lookahead, ghost loops: seq<Frame>, ghost k: nat) returns (l': Lookahead)
      requires Consistent() && NoExtraSoFar(k) && k <= |toks| && State(loops) == st[k] && State(loops).Ok()
      requires toks[k..] == Coming(l.nextsym, l.nextvalue, program[at..])
      requires l.nextsym == SymEof ==> at == |program|
      modifies this`at
      ensures Between(l', k, loops) && Lexed(l'.cursym, l'.nextsym, program[at..]) && at >= old(at)
      ensures l.nextsym == SymNone ==> at > old(at) || l'.cursym == SymEof
      ensures IsRunSymbol(l.nextsym) ==> at > old(at) || l'.nextsym == SymEof
      ensures l.nextsym != SymNone ==> l'.cursym == l.nextsym
    {
      at, l' := ReadSymbol(program, at, l.nextsym, l.nextvalue);
    }

    /** The end of the program: only outside of any loop is it where it should be. */
    method CompileEof(phi: Option<Reg>, l: Lookahead, ghost loops: seq<Frame>, ghost k: nat) returns (result: Nesting)
      requires Between(l, k, loops) && l.cursym == SymEof && l.nextsym == SymNone && at == |program|
      requires phi.None? <==> loops == []
      modifies this`blocks
      ensures Consistent() && NoExtraSoFar(k) && k == |toks|
      ensures result == if phi.Some? then MissingClose else Balanced
      ensures phi.None? ==> st[k].Ok() && st[k].loops == [] && blocks == Finish(st[k])
      ensures phi.Some? ==> st[k].loops != []
    {
      Current(l, k, loops);
      assert Coming(SymNone, l.nextvalue, program[at..]) == [] + Lex(None, program[at..]);
      assert toks[k..] == [];
      Create(Br(END));
      result := if phi.Some? then MissingClose else Balanced;
    }

    /** One turn of the loop over the symbols. */
    method CompileSymbol(l: Lookahead, ghost loops: seq<Frame>, ghost k: nat)
      returns (result: Nesting, l': Lookahead, ghost k': nat)
      requires Between(l, k, loops) && l.cursym != SymEof && l.cursym != SymEndLoop
      requires l.nextsym == SymEof ==> at == |program|
      requires l.cursym == SymLoop ==> l.nextsym == SymNone
      modifies this
      ensures Consistent() && NoExtraSoFar(k') && k' <= |toks| && at >= old(at)
      ensures result == Balanced ==> Between(l', k', loops) && Lexed(l'.cursym, l'.nextsym, program[at..])
      ensures result == Balanced ==> Work(l') < old(Work(l))
      ensures result == Balanced && (l'.cursym == SymLoop || l'.nextsym != SymNone) ==>
                at > old(at) || l.nextsym != SymNone
      ensures result == ExtraClose ==> k' < |toks| && toks[k'] == Close && st[k'].loops == []
      ensures result == MissingClose ==> k' == |toks| && st[k'].loops != []
      decreases |program| - at, if l.cursym == SymLoop then 3 else 0
    {
      l' := l;
      result := Balanced;
      if l.cursym == SymLoop {
        result, k' := CompileLoop(l, loops, k);
      } else {
        k' := Command(l, loops, k);
      }
      if result == Balanced {
        l' := Advance(l, loops, k');
      }
    }

    /** Compiles up to the end of the current loop, or of the program outside of any loop. */
    method ReadLoop(phi: Option<Reg>, oldbb: BlockId, testbb: BlockId, ghost k0: nat, ghost loops: seq<Frame>)
      returns (result: Nesting, ghost k: nat)
      requires Reading(k0, loops) && (phi.None? <==> loops == [])
      requires phi.Some? ==> var loop := loops[|loops| - 1];
                             loop.phi == phi.value && loop.test == testbb && oldbb == testbb + 1
      modifies this
      ensures Consistent() && NoExtraSoFar(k) && k <= |toks| && at >= old(at)
      ensures result == Balanced && phi.Some? ==> Reading(k, loops[..|loops| - 1]) && Ends(loops, k)
      ensures result == Balanced && phi.None? ==>
                k == |toks| && st[k].Ok() && st[k].loops == [] && blocks == Finish(st[k])
      ensures result == ExtraClose ==> k < |toks| && toks[k] == Close && st[k].loops == []
      ensures result == MissingClose ==> k == |toks| && st[k].loops != []
      decreases |program| - at, 1
    {
      k := k0;
      result := Balanced;
      var l := Lookahead(SymNone, 0, SymNone, 0);
      assert Coming(SymNone, 0, program[at..]) == [] + Lex(None, program[at..]);
      while l.cursym != SymEof && l.cursym != SymEndLoop
        invariant Between(l, k, loops)
        invariant Lexed(l.cursym, l.nextsym, program[at..]) || (l == Lookahead(SymNone, 0, SymNone, 0) && at == old(at))
        invariant at >= old(at) && (l.cursym == SymLoop || l.nextsym != SymNone ==> at > old(at))
        decreases Work(l)
      {
        result, l, k := CompileSymbol(l, loops, k);
        if result != Balanced {
          return;
        }
      }
      if l.cursym == SymEndLoop {
        result, k := CompileEnd(phi, oldbb, testbb, l, loops, k);
      } else {
        result := CompileEof(phi, l, loops, k);
      }
    }
  }

  /** Compiles a program. The result tells whether its brackets are balanced; if they
      are, the function is the one that the symbols generate. */
  method Parse(program: string, mem: nat, checked: bool) returns (result: Nesting, f: Function)
    ensures result == Judge(CharBrackets(program), 0)
    ensures result == Balanced ==> f == Finish(GenRun(Tokens(program), mem, checked, |Tokens(program)|))
    ensures result == Balanced ==> Preserves(program, f, mem, checked)
    ensures result == Balanced ==> WellFormed(f)
  {
    var bf := new BrainF(program, mem, checked);
    ghost var k;
    result, k := bf.ReadLoop(None, 0, 0, 0, []);
    f := bf.blocks;
    ResultIsJudgement(program, mem, checked, bf.st, result, k);
    if result == Balanced {
      GeneratedIsCorrect(program, mem, checked, f);
    }
  }

  lemma {:induction false} GeneratedIsCorrect(program: string, mem: nat, checked: bool, f: Function)
    requires Judge(CharBrackets(program), 0) == Balanced
    requires f == Finish(GenRun(Tokens(program), mem, checked, |Tokens(program)|))
    ensures Preserves(program, f, mem, checked) && WellFormed(f)
  {
    GeneratedPreserves(program, mem, checked);
    FusingKeepsNesting(None, program, 0);
    GenIsWellFormed(Tokens(program), mem, checked);
  }

  lemma {:induction false} TraceIsRun(st: seq<Gen>, toks: seq<Token>, mem: nat, checked: bool, k: nat)
    requires IsTrace(st, toks, mem, checked) && k <= |toks|
    ensures st[k] == GenRun(toks, mem, checked, k)
    decreases k
  {
    if k > 0 {
      TraceIsRun(st, toks, mem, checked, k - 1);
      assert IsNext(st[k - 1], toks[k - 1], k - 1, checked, st[k]);
    }
  }

  lemma {:induction false} TraceHasNoExtra(toks: seq<Token>, mem: nat, checked: bool, st: seq<Gen>, k: nat)
    requires IsTrace(st, toks, mem, checked) && k <= |toks|
    requires forall j :: 0 <= j < k && toks[j] == Close ==> st[j].loops != []
    ensures NoExtra(toks, mem, checked, k)
  {
    forall j | 0 <= j < k ensures HasLoop(toks, mem, checked, j) {
      TraceIsRun(st, toks, mem, checked, j);
    }
  }

  /** A `]` that ends a loop is the partner of the innermost open `[`. */
  lemma {:induction false} LoopEnds(toks: seq<Token>, mem: nat, checked: bool, st: seq<Gen>, k: nat)
    requires IsTrace(st, toks, mem, checked) && k < |toks| && toks[k] == Close && st[k].loops != []
    requires forall j :: 0 <= j < k && toks[j] == Close ==> st[j].loops != []
    ensures PartnerOf(TokenBrackets(toks), st[k].loops[|st[k].loops| - 1].open) == k
  {
    TraceIsRun(st, toks, mem, checked, k);
    TraceHasNoExtra(toks, mem, checked, st, k);
    GenNested(toks, mem, checked, k);
    TokenBracketAt(toks, k);
    NestedClosing(TokenBrackets(toks), st[k].loops, k);
  }

  /** Where the parser stops tells how the brackets nest. */
  lemma {:induction false} ResultIsJudgement(program: string, mem: nat, checked: bool, st: seq<Gen>, result: Nesting,
          k: nat)
    requires IsTrace(st, Tokens(program), mem, checked) && k <= |Tokens(program)|
    requires forall j :: 0 <= j < k && Tokens(program)[j] == Close ==> st[j].loops != []
    requires result == Balanced ==> k == |Tokens(program)| && st[k].loops == []
    requires result == ExtraClose ==> k < |Tokens(program)| && Tokens(program)[k] == Close && st[k].loops == []
    requires result == MissingClose ==> k == |Tokens(program)| && st[k].loops != []
    ensures result == Judge(CharBrackets(program), 0)
    ensures st[k] == GenRun(Tokens(program), mem, checked, k)
  {
    var toks := Tokens(program);
    TraceIsRun(st, toks, mem, checked, k);
    TraceHasNoExtra(toks, mem, checked, st, k);
    GenNested(toks, mem, checked, k);
    JudgeNow(TokenBrackets(toks), st[k].loops, k);
    if k < |toks| {
      TokenBracketAt(toks, k);
    }
    FusingKeepsNesting(None, program, 0);
  }

  lemma {:induction false} MoveAssembled(f: Function, b: BlockId, gep: Instr, x: Instr, y: Instr, z: Instr, br: Instr)
    requires b < |f|
    ensures var f4 := Append(Append(f, b, [gep, x, y]), b, [z]);
            Append(f4 + [[]], b, [br]) == Append(f, b, [gep] + [x, y, z, br]) + [[]]
  {
    AppendTwice(f, b, [gep, x, y], [z]);
    AppendTwice(f, b, [gep, x, y] + [z], [br]);
    assert [gep, x, y] + [z] + [br] == [gep] + [x, y, z, br];
  }
}
