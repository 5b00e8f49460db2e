/** Executing the fused symbols equals executing the commands one character at a time. */
module BrainFFusion {
  import opened BrainFSource
  import opened BrainFTokens
  import opened Options
  import opened Machines

  /** The characters from `i` on are fused into the symbols from `p` on. */
  ghost predicate Aligned(text: string, toks: seq<Token>, i: nat, p: nat) {
    i <= |text| && p <= |toks| && Lex(None, text[i..]) == toks[p..]
  }

  /** Both machines are at the start of the same symbol, or have stopped alike. */
  ghost predicate InStep(text: string, toks: seq<Token>, c: CharState, s: TokenState) {
    && c.head == s.head && c.store == s.store && c.status == s.status
    && (s.status == Running ==> Aligned(text, toks, c.pc, s.pc))
  }

  /** Checked code gave up at the end of a run that took the head off the tape. */
  ghost predicate LeftTape(c: CharState, s: TokenState) {
    && s.status == Aborted && c.status == Running
    && c.head == s.head && c.store == s.store && !s.store.OnTape(s.head)
  }

  /** Characters that are no command are skipped. */
  lemma {:induction false} SkipIgnored(text: string, cj: seq<nat>, c: CharState) returns (k: nat)
    requires c.status == Running && c.pc <= |text|
    ensures var c' := Run(CharMachine(text, cj), c, k);
            && c' == c.(pc := c'.pc) && c'.pc <= |text|
            && Lex(None, text[c'.pc..]) == Lex(None, text[c.pc..])
            && (c'.pc < |text| ==> CharToken(text[c'.pc]).Some?)
    decreases |text| - c.pc
  {
    k := 0;
    if c.pc < |text| && CharToken(text[c.pc]).None? {
      assert text[c.pc..][1..] == text[c.pc + 1..];
      var j := SkipIgnored(text, cj, c.Next());
      k := j + 1;
    }
  }

  lemma {:induction false} WrapTwice(b: int, x: int, y: int)
    ensures Wrap(Wrap(b + x) as int + y) == Wrap(b + x + y)
  {
  }

  /** Running two runs of one kind in turn is running the fused one. */
  lemma {:induction false} RunTwice(t: Token, u: Token, s: TokenState)
    requires IsRun(t) && Fuses(Some(t), u) && (t.Change? ==> s.store.OnTape(s.head))
    ensures AfterRun(Fuse(Some(t), u), s) == AfterRun(u, AfterRun(t, s))
  {
    if t.Change? {
      WrapTwice(s.store.tape[s.head], t.amount, u.amount);
      var b := Wrap(s.store.tape[s.head] as int + t.amount);
      assert s.store.tape[s.head := b][s.head := Wrap(b as int + u.amount)]
          == s.store.tape[s.head := Wrap(b as int + u.amount)];
    }
  }

  /** A single `<`, `>`, `+` or `-` has the effect of a run of one. */
  lemma {:induction false} RunCharacter(text: string, cj: seq<nat>, c: CharState, t: Token, s: TokenState)
    requires c.status == Running && c.pc < |text| && CharToken(text[c.pc]) == Some(t) && IsRun(t)
    requires t.Change? ==> s.store.OnTape(s.head)
    requires c.head == s.head && c.store == s.store
    ensures CharStep(text, cj, c) == c.Next().(head := AfterRun(t, s).head, store := AfterRun(t, s).store)
  {
  }

  /** The characters of the symbol at `s.pc`, a run, have been executed. */
  ghost predicate RunFinished(text: string, toks: seq<Token>, c: CharState, s: TokenState) {
    && s.pc < |toks| && IsRun(toks[s.pc]) && c.status == Running && c.pc <= |text| &&
         (toks[s.pc].Change? ==> s.store.OnTape(s.head))
    && c.head == AfterRun(toks[s.pc], s).head && c.store == AfterRun(toks[s.pc], s).store
    && Lex(None, text[c.pc..]) == toks[s.pc + 1..]
  }

  /** Whatever part `t` of a run has been executed, executing its remaining
      characters completes the symbol that the whole run is fused into. */
  lemma {:induction false} FinishRun(text: string, cj: seq<nat>, toks: seq<Token>, c: CharState, s: TokenState,
          t: Token)
    returns (k: nat)
    requires c.status == Running && c.pc <= |text| && s.pc <= |toks|
    requires IsRun(t) && (t.Change? ==> s.store.OnTape(s.head))
    requires Lex(Some(t), text[c.pc..]) == toks[s.pc..]
    requires c.head == AfterRun(t, s).head && c.store == AfterRun(t, s).store
    ensures s.pc < |toks| && toks[s.pc].Change? == t.Change? && toks[s.pc].Move? == t.Move?
    ensures RunFinished(text, toks, Run(CharMachine(text, cj), c, k), s)
    decreases |text| - c.pc
  {
    var rest := text[c.pc..];
    k := 0;
    if rest == [] {
      assert toks[s.pc..] == [t];
    } else {
      assert rest[1..] == text[c.pc + 1..];
      match CharToken(rest[0])
      case None =>
        var j := FinishRun(text, cj, toks, c.Next(), s, t);
        k := j + 1;
      case Some(u) =>
        if Fuses(Some(t), u) {
          RunTwice(t, u, s);
          RunCharacter(text, cj, c, u, AfterRun(t, s));
          var j := FinishRun(text, cj, toks, CharStep(text, cj, c), s, Fuse(Some(t), u));
          k := j + 1;
        } else {
          assert toks[s.pc..] == [t] + LexFrom(u, rest[1..]);
          assert Lex(None, rest) == [] + LexFrom(u, rest[1..]);
        }
    }
  }

  lemma {:induction false} BehindBracket(text: string, toks: seq<Token>, i: nat, p: nat)
    requires i < |text| && CharBracket(text[i]) != Neither
    requires Aligned(text, toks, i, p)
    ensures p < |toks| && TokenBracket(toks[p]) == CharBracket(text[i])
    ensures Aligned(text, toks, i + 1, p + 1)
  {
    CharTokenBracket(text[i]);
    var t := CharToken(text[i]).value;
    assert text[i..][1..] == text[i + 1..];
    assert Lex(None, text[i..]) == [] + LexFrom(t, text[i + 1..]);
    assert toks[p..][1..] == toks[p + 1..];
  }

  /** Every bracket of the text is a symbol of its own. */
  lemma {:induction false} BracketAligned(text: string, toks: seq<Token>, i: nat) returns (p: nat)
    requires toks == Tokens(text) && i < |text| && CharBracket(text[i]) != Neither
    ensures Aligned(text, toks, i, p)
    ensures p == |toks| - |Lex(None, text[i..])|
  {
    BracketsSplit(None, text, i);
    p := |toks| - |Lex(None, text[i..])|;
  }

  /** A balanced program, its fused symbols and the jump tables of both. */
  ghost predicate ForText(text: string, cj: seq<nat>, toks: seq<Token>, tj: seq<nat>) {
    && Judge(CharBrackets(text), 0) == Balanced && cj == Jumps(CharBrackets(text))
    && toks == Tokens(text) && tj == Jumps(TokenBrackets(toks))
  }

  /** Where the text has a bracket and its partner, so do the symbols. */
  lemma {:induction false} PartnersMatch(text: string, toks: seq<Token>, i: nat, j: nat, p: nat, q: nat)
    requires Encloses(CharBrackets(text), i, j) && text[i] == '['
    requires Aligned(text, toks, i, p) && Aligned(text, toks, j, q)
    ensures Encloses(TokenBrackets(toks), p, q)
  {
    BehindBracket(text, toks, i, p);
    CharBracketAt(text, i + 1);
    assert text[i + 1..][|text[i + 1..]| - (|text| - j)..] == text[j..];
    FusingKeepsCloses(None, text[i + 1..], 0);
    TokenBracketAt(toks, p);
    TokenBracketAt(toks, p + 1);
  }

  /** Where the symbols close a loop, the text does, and its opener is the symbol's opener. */
  lemma {:induction false} OpenersMatch(text: string, toks: seq<Token>, j: nat, q: nat) returns (i: nat, p: nat)
    requires toks == Tokens(text) && Judge(CharBrackets(text), 0) == Balanced
    requires j < |text| && text[j] == ']' && Aligned(text, toks, j, q)
    ensures i < j && text[i] == '[' && i == PartnerOf(CharBrackets(text), j) && j == PartnerOf(CharBrackets(text), i)
    ensures Aligned(text, toks, i, p) && p == PartnerOf(TokenBrackets(toks), q)
  {
    CharBracketAt(text, j);
    BalancedPairs(CharBrackets(text), j);
    i := OpenOf(CharBrackets(text), j);
    CharBracketAt(text, i);
    p := BracketAligned(text, toks, i);
    PartnersMatch(text, toks, i, j, p, q);
    BehindBracket(text, toks, j, q);
    TokenBracketAt(toks, q);
    OpenOfInverts(TokenBrackets(toks), p, q);
  }

  /** Leaving a loop at its opening bracket ends up behind the same closing bracket. */
  lemma {:induction false} ClosersMatch(text: string, toks: seq<Token>, i: nat, p: nat) returns (j: nat, q: nat)
    requires toks == Tokens(text) && Judge(CharBrackets(text), 0) == Balanced
    requires i < |text| && text[i] == '[' && p < |toks| && Aligned(text, toks, i, p)
    ensures j == PartnerOf(CharBrackets(text), i) && q == PartnerOf(TokenBrackets(toks), p)
    ensures Aligned(text, toks, j + 1, q + 1)
  {
    CharBracketAt(text, i);
    BalancedPairs(CharBrackets(text), i);
    j := CloseOf(CharBrackets(text), i);
    CharBracketAt(text, j);
    q := BracketAligned(text, toks, j);
    PartnersMatch(text, toks, i, j, p, q);
    BehindBracket(text, toks, j, q);
    BehindBracket(text, toks, i, p);
    TokenBracketAt(toks, p);
  }

  lemma {:induction false} SymbolAt(text: string, toks: seq<Token>, c: CharState, s: TokenState) returns (t: Token)
    requires InStep(text, toks, c, s) && s.status == Running
    requires c.pc < |text| && CharToken(text[c.pc]).Some?
    ensures CharToken(text[c.pc]) == Some(t)
    ensures IsRun(t) ==> Lex(Some(t), text[c.pc + 1..]) == toks[s.pc..]
    ensures !IsRun(t) ==> s.pc < |toks| && toks[s.pc] == t
                          && Lex(None, text[c.pc + 1..]) == toks[s.pc + 1..]
  {
    t := CharToken(text[c.pc]).value;
    assert text[c.pc..][1..] == text[c.pc + 1..];
    assert Lex(None, text[c.pc..]) == [] + LexFrom(t, text[c.pc + 1..]);
    if !IsRun(t) {
      assert toks[s.pc..][1..] == toks[s.pc + 1..];
    }
  }

  /** Both machines treat an opening bracket alike if they leave the loop at the same place. */
  lemma {:induction false} SameTest(text: string, toks: seq<Token>, checked: bool, c: CharState, s: TokenState,
          j: nat, q: nat)
    requires InStep(text, toks, c, s) && s.status == Running
    requires c.pc < |text| && text[c.pc] == '[' && s.pc < |toks| && toks[s.pc] == Open
    requires Aligned(text, toks, c.pc + 1, s.pc + 1) && Aligned(text, toks, j + 1, q + 1)
    ensures InStep(text, toks, CharCommand(text, c, j), Symbol(toks, checked, s, q))
  {
  }

  /** Going back to `i` and testing there is what the symbol does that tests at the end of the loop. */
  lemma {:induction false} SameRetest(text: string, toks: seq<Token>, checked: bool, c: CharState, s: TokenState,
          i: nat, p: nat)
    requires InStep(text, toks, c, s) && s.status == Running
    requires c.pc < |text| && text[c.pc] == ']' && s.pc < |toks| && toks[s.pc] == Close
    requires i < |text| && text[i] == '['
    requires Aligned(text, toks, i + 1, p + 1) && Aligned(text, toks, c.pc + 1, s.pc + 1)
    ensures InStep(text, toks, CharCommand(text, CharCommand(text, c, i), c.pc), Symbol(toks, checked, s, p))
  {
  }

  /** Opening bracket: one character against one symbol. */
  lemma {:induction false} OpenMatched(text: string, cj: seq<nat>, toks: seq<Token>, tj: seq<nat>, checked: bool,
          c: CharState, s: TokenState)
    requires ForText(text, cj, toks, tj)
    requires InStep(text, toks, c, s) && s.status == Running && c.pc < |text| && text[c.pc] == '['
    ensures InStep(text, toks, CharStep(text, cj, c), TokenStep(toks, tj, checked, s))
  {
    BehindBracket(text, toks, c.pc, s.pc);
    var j, q := ClosersMatch(text, toks, c.pc, s.pc);
    SameTest(text, toks, checked, c, s, j, q);
  }

  /** Closing bracket: going back and testing the loop condition against one symbol. */
  lemma {:induction false} CloseMatched(text: string, cj: seq<nat>, toks: seq<Token>, tj: seq<nat>, checked: bool,
          c: CharState, s: TokenState)
    requires ForText(text, cj, toks, tj)
    requires InStep(text, toks, c, s) && s.status == Running && c.pc < |text| && text[c.pc] == ']'
    ensures InStep(text, toks, CharStep(text, cj, CharStep(text, cj, c)), TokenStep(toks, tj, checked, s))
  {
    BehindBracket(text, toks, c.pc, s.pc);
    var i, p := OpenersMatch(text, toks, c.pc, s.pc);
    BehindBracket(text, toks, i, p);
    assert CharStep(text, cj, c) == c.(pc := i);
    SameRetest(text, toks, checked, c, s, i, p);
  }

  /** A run of `<>` or `+-`. */
  lemma {:induction false} RunOfMatched(text: string, cj: seq<nat>, toks: seq<Token>, tj: seq<nat>, checked: bool,
          c: CharState, s: TokenState)
    returns (k: nat)
    requires InStep(text, toks, c, s) && s.status == Running && c.pc < |text|
    requires CharToken(text[c.pc]).Some? && IsRun(CharToken(text[c.pc]).value)
    ensures var c', s' := Run(CharMachine(text, cj), c, k), TokenStep(toks, tj, checked, s);
            k > 0 && (InStep(text, toks, c', s') || LeftTape(c', s'))
  {
    var t := SymbolAt(text, toks, c, s);
    if t.Change? && !s.store.OnTape(s.head) {
      RunOnce(CharMachine(text, cj), c);
      RunKeepsKind(t, text[c.pc + 1..]);
      k := 1;
    } else {
      RunCharacter(text, cj, c, t, s);
      var j := FinishRun(text, cj, toks, CharStep(text, cj, c), s, t);
      k := j + 1;
    }
  }

  lemma {:induction false} RunKeepsKind(t: Token, rest: string)
    requires IsRun(t)
    ensures Lex(Some(t), rest) != [] && Lex(Some(t), rest)[0].Change? == t.Change?
    decreases |rest|
  {
    if rest != [] {
      match CharToken(rest[0])
      case None => RunKeepsKind(t, rest[1..]);
      case Some(u) => if Fuses(Some(t), u) { RunKeepsKind(Fuse(Some(t), u), rest[1..]); }
    }
  }

  /** `,` and `.`, and the end of the program. */
  lemma {:induction false} PlainMatched(text: string, cj: seq<nat>, toks: seq<Token>, tj: seq<nat>, checked: bool,
          c: CharState, s: TokenState)
    requires InStep(text, toks, c, s) && s.status == Running
    requires c.pc < |text| ==> text[c.pc] == ',' || text[c.pc] == '.'
    ensures InStep(text, toks, CharStep(text, cj, c), TokenStep(toks, tj, checked, s))
  {
    if c.pc < |text| {
      var t := SymbolAt(text, toks, c, s);
    } else {
      assert toks[s.pc..] == [];
    }
  }

  /** A symbol whose first character comes next. */
  lemma {:induction false} CommandMatched(text: string, cj: seq<nat>, toks: seq<Token>, tj: seq<nat>, checked: bool,
          c: CharState, s: TokenState)
    returns (k: nat)
    requires ForText(text, cj, toks, tj)
    requires InStep(text, toks, c, s) && s.status == Running
    requires c.pc < |text| ==> CharToken(text[c.pc]).Some?
    ensures var c', s' := Run(CharMachine(text, cj), c, k), TokenStep(toks, tj, checked, s);
            k > 0 && (InStep(text, toks, c', s') || LeftTape(c', s'))
  {
    var m := CharMachine(text, cj);
    if c.pc < |text| && IsRun(CharToken(text[c.pc]).value) {
      k := RunOfMatched(text, cj, toks, tj, checked, c, s);
    } else if c.pc < |text| && text[c.pc] == ']' {
      CloseMatched(text, cj, toks, tj, checked, c, s);
      RunOnce(m, c);
      RunOnce(m, m(c));
      RunAdd(m, c, 1, 1);
      k := 2;
    } else {
      if c.pc < |text| && text[c.pc] == '[' {
        OpenMatched(text, cj, toks, tj, checked, c, s);
      } else {
        PlainMatched(text, cj, toks, tj, checked, c, s);
      }
      RunOnce(m, c);
      k := 1;
    }
  }

  /** One fused symbol is one or more characters. */
  lemma {:induction false} SymbolMatched(text: string, cj: seq<nat>, toks: seq<Token>, tj: seq<nat>, checked: bool,
          c: CharState, s: TokenState)
    requires ForText(text, cj, toks, tj)
    requires InStep(text, toks, c, s)
    ensures StepMatched(CharMachine(text, cj), TokenMachine(toks, tj, checked),
                        (c, s) => InStep(text, toks, c, s), (c, s) => LeftTape(c, s), c, s)
  {
    var m := CharMachine(text, cj);
    if s.status == Running {
      var skipped := SkipIgnored(text, cj, c);
      var c0 := Run(m, c, skipped);
      var j := CommandMatched(text, cj, toks, tj, checked, c0, s);
      RunAdd(m, c, skipped, j);
      assert Run(m, c, skipped + j) == Run(m, c0, j);
    } else {
      RunOnce(m, c);
      assert Run(m, c, 1) == c;
    }
  }

  /** Any number of fused symbols is at least as many characters, up to the point
      where checked code gives up; there the head is off the tape. */
  lemma {:induction false} FusionIsFaithful(text: string, checked: bool, mem: nat, input: seq<byte>, n: nat)
    returns (k: nat)
    requires Judge(CharBrackets(text), 0) == Balanced
    ensures var c' := Run(CharMachine(text, Jumps(CharBrackets(text))), CharStart(mem, input), k);
            var s' := Run(TokenMachine(Tokens(text), Jumps(TokenBrackets(Tokens(text))), checked),
                TokenStart(mem, input), n);
            (k >= n && InStep(text, Tokens(text), c', s')) || LeftTape(c', s')
  {
    var cj, toks := Jumps(CharBrackets(text)), Tokens(text);
    var tj := Jumps(TokenBrackets(toks));
    var related := (c, s) => InStep(text, toks, c, s);
    var final := (c, s) => LeftTape(c, s);
    forall c, s | related(c, s)
      ensures StepMatched(CharMachine(text, cj), TokenMachine(toks, tj, checked), related, final, c, s)
    {
      SymbolMatched(text, cj, toks, tj, checked, c, s);
    }
    assert text[0..] == text && toks[0..] == toks;
    k := RunMatched(CharMachine(text, cj), TokenMachine(toks, tj, checked), related, final,
                    CharStart(mem, input), TokenStart(mem, input), n);
  }
}
