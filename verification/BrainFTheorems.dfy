/** What the compiled function does, compared with the command table. */
module BrainFTheorems {
  import opened BrainFSource
  import opened BrainFTokens
  import opened Options
  import opened BrainFFusion
  import opened BrainFCfg
  import opened BrainFCode
  import opened BrainFGen
  import opened BrainFLayout
  import opened Machines

  /** The program after `a` commands and the function after `b` instructions, from their starts. */
  function SourceAt(text: string, mem: nat, input: seq<byte>, jumps: seq<nat>, a: nat): CharState {
    Run(CharMachine(text, jumps), CharStart(mem, input), a)
  }

  ghost function Source(text: string, mem: nat, input: seq<byte>, a: nat): CharState {
    SourceAt(text, mem, input, Jumps(CharBrackets(text)), a)
  }

  function Target(f: Function, mem: nat, input: seq<byte>, b: nat): State {
    Run(CfgMachine(f), CfgStart(mem, input), b)
  }

  /** The register that the code at `p` takes for the head holds that offset. */
  ghost predicate HoldsHead(x: State, p: Pos, head: int) {
    p.head in x.regs && x.regs[p.head] == Ptr(head)
  }

  /** The function is about to execute the code of the symbol that the program is about to execute. */
  ghost predicate AtSymbol(text: string, pos: seq<Pos>, c: CharState, x: State, i: nat) {
    && i < |pos| && Aligned(text, Tokens(text), c.pc, i)
    && x.blk == pos[i].blk && x.idx == pos[i].idx && HoldsHead(x, pos[i], c.head)
  }

  /** Same tape, input, output and head, and the same kind of state. */
  ghost predicate Agree(text: string, pos: seq<Pos>, c: CharState, x: State) {
    && x.errors == 0 && pos != []
    && match c.status
       case Running => x.outcome == Going && x.store == c.store && exists i: nat :: AtSymbol(text, pos, c, x, i)
       case Halted => x.outcome == Returned && x.store == c.store && HoldsHead(x, pos[|pos| - 1], c.head)
       case OffTape => x.outcome == Trapped && x.store.output == c.store.output
       case Aborted => false
  }

  /** The bounds check has stopped the function, and the program's head is indeed off the tape. */
  ghost predicate StoppedByCheck(c: CharState, x: State) {
    && c.status == Running && !c.store.OnTape(c.head)
    && x.outcome == Returned && x.errors == 1 && x.store == c.store
  }

  ghost predicate MatchedAfter(text: string, f: Function, pos: seq<Pos>, mem: nat, checked: bool, input: seq<byte>,
          n: nat)
  {
    exists a: nat, b: nat ::
      b >= n && var c, x := Source(text, mem, input, a), Target(f, mem, input, b);
                (a >= n && Agree(text, pos, c, x)) || (checked && StoppedByCheck(c, x))
  }

  /** `f` has the code of every symbol at its position in `pos`, and however long one waits, both
      sides reach agreeing states after that, unless the bounds check ends the run first. */
  ghost predicate PreservesAt(text: string, f: Function, pos: seq<Pos>, mem: nat, checked: bool) {
    && ProgramCoded(f, Tokens(text), Jumps(TokenBrackets(Tokens(text))), pos, checked)
    && forall input, n: nat :: MatchedAfter(text, f, pos, mem, checked, input, n)
  }

  /** `f` does what the program says. */
  ghost predicate Preserves(text: string, f: Function, mem: nat, checked: bool) {
    exists pos :: PreservesAt(text, f, pos, mem, checked)
  }

  lemma {:induction false} SimulatedAgrees(text: string, toks: seq<Token>, pos: seq<Pos>, mem: nat, checked: bool,
          c: CharState, s: TokenState, x: State)
    requires toks == Tokens(text) && Simulates(x, s, pos, mem, checked)
    ensures InStep(text, toks, c, s) && s.status != Aborted ==> Agree(text, pos, c, x)
    ensures LeftTape(c, s) ==> StoppedByCheck(c, x)
  {
    if s.status == Running && InStep(text, toks, c, s) {
      assert AtSymbol(text, pos, c, x, s.pc);
    }
  }

  /** The function generated for a balanced program preserves its meaning. */
  lemma {:induction false} GeneratedPreserves(text: string, mem: nat, checked: bool)
    requires Judge(CharBrackets(text), 0) == Balanced
    ensures Preserves(text, Finish(GenRun(Tokens(text), mem, checked, |Tokens(text)|)), mem, checked)
  {
    var toks := Tokens(text);
    var jumps := Jumps(TokenBrackets(toks));
    var f := Finish(GenRun(toks, mem, checked, |toks|));
    FusingKeepsNesting(None, text, 0);
    var pos := GenIsProgram(toks, jumps, mem, checked);
    forall input, n: nat ensures MatchedAfter(text, f, pos, mem, checked, input, n) {
      ProgramMatched(text, toks, jumps, pos, f, mem, checked, input, n);
    }
    assert PreservesAt(text, f, pos, mem, checked);
  }

  lemma {:induction false} ProgramMatched(text: string, toks: seq<Token>, jumps: seq<nat>, pos: seq<Pos>, f: Function,
          mem: nat, checked: bool, input: seq<byte>, n: nat)
    requires Judge(CharBrackets(text), 0) == Balanced
    requires toks == Tokens(text) && jumps == Jumps(TokenBrackets(toks))
    requires ProgramCoded(f, toks, jumps, pos, checked) && At(f, ENTRY, 0, EntryCode(mem, checked))
    requires pos[0] == Pos(ENTRY, |EntryCode(mem, checked)|, HEAD, HEAD + 1)
    ensures MatchedAfter(text, f, pos, mem, checked, input, n)
  {
    var a := FusionIsFaithful(text, checked, mem, input, n);
    var b := CodeIsFaithful(f, toks, jumps, pos, checked, mem, input, n);
    var c, x := Source(text, mem, input, a), Target(f, mem, input, b);
    var s := Run(TokenMachine(toks, jumps, checked), TokenStart(mem, input), n);
    SimulatedAgrees(text, toks, pos, mem, checked, c, s, x);
    CommandsNeverAbort(text, Jumps(CharBrackets(text)), CharStart(mem, input), a);
    if !checked {
      UncheckedNeverAborts(toks, jumps, TokenStart(mem, input), n);
    }
    assert b >= n && ((a >= n && Agree(text, pos, c, x)) || (checked && StoppedByCheck(c, x)));
  }

  lemma {:induction false} UncheckedNeverAborts(toks: seq<Token>, jumps: seq<nat>, s: TokenState, n: nat)
    requires s.status != Aborted
    ensures Run(TokenMachine(toks, jumps, false), s, n).status != Aborted
    decreases n
  {
    if n > 0 {
      UncheckedNeverAborts(toks, jumps, TokenStep(toks, jumps, false, s), n - 1);
    }
  }

  lemma {:induction false} CommandsNeverAbort(text: string, jumps: seq<nat>, c: CharState, a: nat)
    requires c.status != Aborted
    ensures Run(CharMachine(text, jumps), c, a).status != Aborted
    decreases a
  {
    if a > 0 {
      CommandsNeverAbort(text, jumps, CharStep(text, jumps, c), a - 1);
    }
  }

  // ---- what a program reads and writes ----

  /** How often the first `n` steps execute command `c`. */
  function Executed(text: string, jumps: seq<nat>, s: CharState, n: nat, c: char): nat
    decreases n
  {
    if n == 0 then 0
    else
      var now := s.status == Running && s.pc < |text| && text[s.pc] == c && 0 <= s.head < |s.store.tape|;
      (if now then 1 else 0) + Executed(text, jumps, CharStep(text, jumps, s), n - 1, c)
  }

  /** Every `,` takes one character of the input, as long as there is one, every `.` writes one, nothing that has
      been written is taken back, and the tape keeps its size. */
  lemma {:induction false} InputAndOutput(text: string, jumps: seq<nat>, s: CharState, n: nat)
    requires |jumps| == |text|
    ensures var s', taken := Run(CharMachine(text, jumps), s, n), Executed(text, jumps, s, n, ',');
            && s'.store.input == s.store.input[if taken < |s.store.input| then taken else |s.store.input|..]
            && s.store.output <= s'.store.output && |s'.store.tape| == |s.store.tape|
            && |s'.store.output| == |s.store.output| + Executed(text, jumps, s, n, '.')
    decreases n
  {
    if n > 0 {
      var s1 := CharStep(text, jumps, s);
      if s.status == Running && s.pc < |text| {
        CommandTable(text, jumps, s);
      }
      InputAndOutput(text, jumps, s1, n - 1);
    }
  }

  // ---- consequences ----

  /** What has stopped stays as it is. */
  lemma {:induction false} Settled<S>(step: S -> S, s: S, a: nat, b: nat)
    requires a <= b && step(Run(step, s, a)) == Run(step, s, a)
    ensures Run(step, s, b) == Run(step, s, a)
  {
    RunAdd(step, s, a, b - a);
    RunStopped(step, Run(step, s, a), b - a);
  }

  /** Unchecked code terminates exactly when the program does, and then with the same result. */
  lemma {:induction false} SameTermination(text: string, f: Function, mem: nat, input: seq<byte>)
    requires Preserves(text, f, mem, false)
    ensures (exists a: nat :: Source(text, mem, input, a).status == Halted)
            <==> (exists b: nat :: Target(f, mem, input, b).outcome == Returned)
    ensures forall a: nat, b: nat ::
              Source(text, mem, input, a).status == Halted && Target(f, mem, input, b).outcome == Returned
              ==> Target(f, mem, input, b).store == Source(text, mem, input, a).store
  {
    forall a: nat | Source(text, mem, input, a).status == Halted
      ensures exists b: nat :: Target(f, mem, input, b).outcome == Returned
                               && Target(f, mem, input, b).store == Source(text, mem, input, a).store
    {
      var _, b := HaltedIsReturned(text, f, mem, input, a);
    }
    forall b: nat | Target(f, mem, input, b).outcome == Returned
      ensures exists a: nat :: Source(text, mem, input, a).status == Halted
    {
      var a := ReturnedIsHalted(text, f, mem, input, b);
    }
    forall a: nat, b: nat | Source(text, mem, input, a).status == Halted && Target(f, mem, input, b).outcome == Returned
      ensures Target(f, mem, input, b).store == Source(text, mem, input, a).store
    {
      var a', b' := HaltedIsReturned(text, f, mem, input, a);
      Settled(CfgMachine(f), CfgStart(mem, input), if b < b' then b else b', if b < b' then b' else b);
    }
  }

  lemma {:induction false} HaltedIsReturned(text: string, f: Function, mem: nat, input: seq<byte>, a: nat)
    returns (a': nat, b: nat)
    requires Preserves(text, f, mem, false) && Source(text, mem, input, a).status == Halted
    ensures Target(f, mem, input, b).outcome == Returned
    ensures Target(f, mem, input, b).store == Source(text, mem, input, a).store
  {
    var pos :| PreservesAt(text, f, pos, mem, false);
    assert MatchedAfter(text, f, pos, mem, false, input, a);
    a', b :| b >= a && a' >= a && Agree(text, pos, Source(text, mem, input, a'), Target(f, mem, input, b));
    Settled(CharMachine(text, Jumps(CharBrackets(text))), CharStart(mem, input), a, a');
  }

  lemma {:induction false} ReturnedIsHalted(text: string, f: Function, mem: nat, input: seq<byte>, b: nat)
    returns (a: nat)
    requires Preserves(text, f, mem, false) && Target(f, mem, input, b).outcome == Returned
    ensures Source(text, mem, input, a).status == Halted
  {
    var pos :| PreservesAt(text, f, pos, mem, false);
    assert MatchedAfter(text, f, pos, mem, false, input, b);
    var b': nat;
    a, b' :| b' >= b && a >= b && Agree(text, pos, Source(text, mem, input, a), Target(f, mem, input, b'));
    Settled(CfgMachine(f), CfgStart(mem, input), b, b');
  }

  /** The generated code never reads a missing register, a value of the wrong kind, or past the end of a block. */
  lemma {:induction false} NeverWrong(text: string, f: Function, mem: nat, checked: bool, input: seq<byte>, b: nat)
    requires Preserves(text, f, mem, checked)
    ensures Target(f, mem, input, b).outcome != Wrong
  {
    var pos :| PreservesAt(text, f, pos, mem, checked);
    assert MatchedAfter(text, f, pos, mem, checked, input, b);
    var a: nat, b': nat :| b' >= b && var c, x := Source(text, mem, input, a), Target(f, mem, input, b');
                                      (a >= b && Agree(text, pos, c, x)) || (checked && StoppedByCheck(c, x));
    if Target(f, mem, input, b).outcome == Wrong {
      Settled(CfgMachine(f), CfgStart(mem, input), b, b');
    }
  }

  // ---- bounds checks ----

  /** Between two runs of checked symbols the head is on the tape. */
  lemma {:induction false} CheckedStaysOnTape(toks: seq<Token>, jumps: seq<nat>, s: TokenState, n: nat)
    requires s.status == Running && s.store.OnTape(s.head)
    ensures var s' := Run(TokenMachine(toks, jumps, true), s, n);
            && s'.status != OffTape && |s'.store.tape| == |s.store.tape|
            && (s'.status == Running ==> s'.store.OnTape(s'.head))
            && (s'.status == Aborted ==> !s'.store.OnTape(s'.head))
    decreases n
  {
    if n > 0 {
      var s1 := TokenStep(toks, jumps, true, s);
      if s1.status == Running {
        CheckedStaysOnTape(toks, jumps, s1, n - 1);
      } else {
        RunStopped(TokenMachine(toks, jumps, true), s1, n - 1);
      }
    }
  }

  lemma {:induction false} CheckedReaches(text: string, toks: seq<Token>, jumps: seq<nat>, f: Function, mem: nat,
          input: seq<byte>, n: nat)
    returns (b: nat)
    requires Judge(CharBrackets(text), 0) == Balanced && mem >= 1
    requires toks == Tokens(text) && jumps == Jumps(TokenBrackets(toks)) && f == Finish(GenRun(toks, mem, true, |toks|))
    ensures b >= n
    ensures var x := Target(f, mem, input, b);
            var s := Run(TokenMachine(toks, jumps, true), TokenStart(mem, input), n);
            && x.outcome != Trapped && x.errors <= 1
            && (x.errors == 1 <==> s.status == Aborted)
  {
    FusingKeepsNesting(None, text, 0);
    var pos := GenIsProgram(toks, jumps, mem, true);
    b := CodeIsFaithful(f, toks, jumps, pos, true, mem, input, n);
    CheckedStaysOnTape(toks, jumps, TokenStart(mem, input), n);
  }

  /** Checked code on a tape of at least one cell never loads or stores off the tape. */
  lemma {:induction false} CheckedNeverTraps(text: string, f: Function, mem: nat, input: seq<byte>, b: nat)
    requires Judge(CharBrackets(text), 0) == Balanced && mem >= 1
    requires f == Finish(GenRun(Tokens(text), mem, true, |Tokens(text)|))
    ensures Target(f, mem, input, b).outcome != Trapped
  {
    var b' := CheckedReaches(text, Tokens(text), Jumps(TokenBrackets(Tokens(text))), f, mem, input, b);
    if Target(f, mem, input, b).outcome == Trapped {
      Settled(CfgMachine(f), CfgStart(mem, input), b, b');
    }
  }

  /** After `n` symbols a run of `<>` comes that takes the head off the tape. */
  ghost predicate RunEndsOffTape(toks: seq<Token>, jumps: seq<nat>, mem: nat, input: seq<byte>, n: nat) {
    var s := Run(TokenMachine(toks, jumps, true), TokenStart(mem, input), n);
    && s.status == Running && s.pc < |toks| && toks[s.pc].Move?
    && !(0 <= s.head + toks[s.pc].amount < mem)
  }

  lemma {:induction false} AbortCause(toks: seq<Token>, jumps: seq<nat>, s: TokenState)
    requires s.status == Running
    ensures TokenStep(toks, jumps, true, s).status == Aborted
            <==> s.pc < |toks| && toks[s.pc].Move? && !s.store.OnTape(s.head + toks[s.pc].amount)
  {
  }

  lemma {:induction false} AbortedBecause(toks: seq<Token>, jumps: seq<nat>, mem: nat, input: seq<byte>, n: nat)
    returns (k: nat)
    requires mem >= 1
    requires Run(TokenMachine(toks, jumps, true), TokenStart(mem, input), n).status == Aborted
    ensures RunEndsOffTape(toks, jumps, mem, input, k)
    decreases n
  {
    var m := TokenMachine(toks, jumps, true);
    RunLast(m, TokenStart(mem, input), n - 1);
    var s := Run(m, TokenStart(mem, input), n - 1);
    if s.status == Aborted {
      k := AbortedBecause(toks, jumps, mem, input, n - 1);
    } else {
      CheckedStaysOnTape(toks, jumps, TokenStart(mem, input), n - 1);
      AbortCause(toks, jumps, s);
      k := n - 1;
    }
  }

  lemma {:induction false} EndsOffTapeAborts(toks: seq<Token>, jumps: seq<nat>, mem: nat, input: seq<byte>, n: nat)
    requires mem >= 1 && RunEndsOffTape(toks, jumps, mem, input, n)
    ensures Run(TokenMachine(toks, jumps, true), TokenStart(mem, input), n + 1).status == Aborted
  {
    RunLast(TokenMachine(toks, jumps, true), TokenStart(mem, input), n);
    CheckedStaysOnTape(toks, jumps, TokenStart(mem, input), n);
    AbortCause(toks, jumps, Run(TokenMachine(toks, jumps, true), TokenStart(mem, input), n));
  }

  lemma {:induction false} ErrorsStay(f: Function, x: State, n: nat)
    ensures Run(CfgMachine(f), x, n).errors >= x.errors
    decreases n
  {
    if n > 0 {
      ErrorsStay(f, CfgStep(f, x), n - 1);
    }
  }

  lemma {:induction false} LaterErrors(f: Function, mem: nat, input: seq<byte>, b: nat, b': nat)
    requires b <= b'
    ensures Target(f, mem, input, b').errors >= Target(f, mem, input, b).errors
  {
    ErrorsStay(f, Target(f, mem, input, b), b' - b);
    RunAdd(CfgMachine(f), CfgStart(mem, input), b, b' - b);
  }

  /** The error block is reached exactly when some run of `<>` ends off the tape. */
  lemma {:induction false} ErrorIffOffTape(text: string, toks: seq<Token>, jumps: seq<nat>, f: Function, mem: nat,
          input: seq<byte>)
    requires Judge(CharBrackets(text), 0) == Balanced && mem >= 1
    requires toks == Tokens(text) && jumps == Jumps(TokenBrackets(toks)) && f == Finish(GenRun(toks, mem, true, |toks|))
    ensures (exists b: nat :: Target(f, mem, input, b).errors > 0)
            <==> (exists n: nat :: RunEndsOffTape(toks, jumps, mem, input, n))
  {
    forall b: nat | Target(f, mem, input, b).errors > 0
      ensures exists n: nat :: RunEndsOffTape(toks, jumps, mem, input, n)
    {
      var n := ErrorBecause(text, toks, jumps, f, mem, input, b);
    }
    forall n: nat | RunEndsOffTape(toks, jumps, mem, input, n)
      ensures exists b: nat :: Target(f, mem, input, b).errors > 0
    {
      EndsOffTapeAborts(toks, jumps, mem, input, n);
      var b := CheckedReaches(text, toks, jumps, f, mem, input, n + 1);
    }
  }

  lemma {:induction false} ErrorBecause(text: string, toks: seq<Token>, jumps: seq<nat>, f: Function, mem: nat,
          input: seq<byte>, b: nat)
    returns (n: nat)
    requires Judge(CharBrackets(text), 0) == Balanced && mem >= 1
    requires toks == Tokens(text) && jumps == Jumps(TokenBrackets(toks)) && f == Finish(GenRun(toks, mem, true, |toks|))
    requires Target(f, mem, input, b).errors > 0
    ensures RunEndsOffTape(toks, jumps, mem, input, n)
  {
    var b' := CheckedReaches(text, toks, jumps, f, mem, input, b);
    LaterErrors(f, mem, input, b, b');
    n := AbortedBecause(toks, jumps, mem, input, b);
  }
  /** No fused run of `<>` ends off the tape. */
  ghost predicate StaysOnTape(text: string, mem: nat, input: seq<byte>) {
    forall n: nat :: !RunEndsOffTape(Tokens(text), Jumps(TokenBrackets(Tokens(text))), mem, input, n)
  }

  /** Checked code returns without an error exactly when the program ends and no run of `<>` ends off the tape,
      and then with the same result. */
  lemma {:induction false} CheckedTermination(text: string, f: Function, mem: nat, input: seq<byte>)
    requires Judge(CharBrackets(text), 0) == Balanced && mem >= 1
    requires f == Finish(GenRun(Tokens(text), mem, true, |Tokens(text)|))
    ensures (exists b: nat :: ReturnsWell(f, mem, input, b))
            <==> (exists a: nat :: Source(text, mem, input, a).status == Halted) && StaysOnTape(text, mem, input)
    ensures forall a: nat, b: nat :: Source(text, mem, input, a).status == Halted && ReturnsWell(f, mem, input, b) ==>
              Target(f, mem, input, b).store == Source(text, mem, input, a).store
  {
    GeneratedPreserves(text, mem, true);
    forall b: nat | ReturnsWell(f, mem, input, b)
      ensures StaysOnTape(text, mem, input) && exists a: nat :: EndsAlike(text, f, mem, input, a, b)
    {
      NeverOffTape(text, f, mem, input, b);
      var a := ReturnsWellBecause(text, f, mem, input, b);
    }
    forall a: nat | Source(text, mem, input, a).status == Halted && StaysOnTape(text, mem, input)
      ensures exists b: nat :: ReturnsWell(f, mem, input, b)
    {
      var b := HaltedReturnsWell(text, f, mem, input, a);
    }
    forall a: nat, b: nat | Source(text, mem, input, a).status == Halted && ReturnsWell(f, mem, input, b)
      ensures Target(f, mem, input, b).store == Source(text, mem, input, a).store
    {
      var a' := ReturnsWellBecause(text, f, mem, input, b);
      Settled(CharMachine(text, Jumps(CharBrackets(text))), CharStart(mem, input),
              if a < a' then a else a', if a < a' then a' else a);
    }
  }

  ghost predicate ReturnsWell(f: Function, mem: nat, input: seq<byte>, b: nat) {
    Target(f, mem, input, b).outcome == Returned && Target(f, mem, input, b).errors == 0
  }

  ghost predicate EndsAlike(text: string, f: Function, mem: nat, input: seq<byte>, a: nat, b: nat) {
    Source(text, mem, input, a).status == Halted && Source(text, mem, input, a).store == Target(f, mem, input, b).store
  }

  lemma {:induction false} NeverOffTape(text: string, f: Function, mem: nat, input: seq<byte>, b: nat)
    requires Judge(CharBrackets(text), 0) == Balanced && mem >= 1
    requires f == Finish(GenRun(Tokens(text), mem, true, |Tokens(text)|)) && ReturnsWell(f, mem, input, b)
    ensures StaysOnTape(text, mem, input)
  {
    var toks := Tokens(text);
    var jumps := Jumps(TokenBrackets(toks));
    ErrorIffOffTape(text, toks, jumps, f, mem, input);
    if n: nat :| RunEndsOffTape(toks, jumps, mem, input, n) {
      var e: nat :| Target(f, mem, input, e).errors > 0;
      if e <= b {
        LaterErrors(f, mem, input, e, b);
      } else {
        Settled(CfgMachine(f), CfgStart(mem, input), b, e);
      }
    }
  }

  lemma {:induction false} ReturnsWellBecause(text: string, f: Function, mem: nat, input: seq<byte>, b: nat)
    returns (a: nat)
    requires Preserves(text, f, mem, true) && ReturnsWell(f, mem, input, b)
    ensures EndsAlike(text, f, mem, input, a, b)
  {
    var pos :| PreservesAt(text, f, pos, mem, true);
    assert MatchedAfter(text, f, pos, mem, true, input, b);
    var b': nat;
    a, b' :| b' >= b && var c, x := Source(text, mem, input, a), Target(f, mem, input, b');
                        (a >= b && Agree(text, pos, c, x)) || StoppedByCheck(c, x);
    Settled(CfgMachine(f), CfgStart(mem, input), b, b');
  }

  lemma {:induction false} HaltedReturnsWell(text: string, f: Function, mem: nat, input: seq<byte>, a: nat)
    returns (b: nat)
    requires Judge(CharBrackets(text), 0) == Balanced && mem >= 1
    requires f == Finish(GenRun(Tokens(text), mem, true, |Tokens(text)|)) && Preserves(text, f, mem, true)
    requires Source(text, mem, input, a).status == Halted && StaysOnTape(text, mem, input)
    ensures ReturnsWell(f, mem, input, b)
  {
    ErrorIffOffTape(text, Tokens(text), Jumps(TokenBrackets(Tokens(text))), f, mem, input);
    var pos :| PreservesAt(text, f, pos, mem, true);
    assert MatchedAfter(text, f, pos, mem, true, input, a);
    var a': nat;
    a', b :| b >= a && var c, x := Source(text, mem, input, a'), Target(f, mem, input, b);
                       (a' >= a && Agree(text, pos, c, x)) || StoppedByCheck(c, x);
    assert Target(f, mem, input, b).errors == 0;
    Settled(CharMachine(text, Jumps(CharBrackets(text))), CharStart(mem, input), a, a');
  }
}
