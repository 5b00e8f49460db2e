/** The fused symbols the compiler works on, and why fusing runs of `+-` and `<>`
    keeps the meaning of a program. */
module BrainFTokens {
  import opened BrainFSource
  import opened Options

  /** A fused symbol. `Move` and `Change` stand for a whole run of `<>` or `+-`. */
  datatype Token = Read | Write | Move(amount: int) | Change(amount: int) | Open | Close

  function CharToken(c: char): Option<Token> {
    match c
    case ',' => Some(Read)
    case '.' => Some(Write)
    case '-' => Some(Change(-1))
    case '+' => Some(Change(1))
    case '<' => Some(Move(-1))
    case '>' => Some(Move(1))
    case '[' => Some(Open)
    case ']' => Some(Close)
    case _ => None
  }

  predicate IsRun(t: Token) {
    t.Move? || t.Change?
  }

  predicate Fuses(pending: Option<Token>, t: Token) {
    pending.Some? && ((pending.value.Move? && t.Move?) || (pending.value.Change? && t.Change?))
  }

  function Fuse(pending: Option<Token>, t: Token): Token
    requires Fuses(pending, t)
  {
    if t.Move? then Move(pending.value.amount + t.amount) else Change(pending.value.amount + t.amount)
  }

  function Flush(pending: Option<Token>): seq<Token> {
    if pending.Some? then [pending.value] else []
  }

  /** The symbols of `rest` when the run `pending` precedes it. */
  function Lex(pending: Option<Token>, rest: string): seq<Token>
    decreases |rest|, 0
  {
    if rest == [] then Flush(pending)
    else match CharToken(rest[0])
      case None => Lex(pending, rest[1..])
      case Some(t) =>
        if Fuses(pending, t) then Lex(Some(Fuse(pending, t)), rest[1..])
        else Flush(pending) + LexFrom(t, rest[1..])
  }

  /** The symbols of `rest` and of the command before it, when that command fuses with nothing before it. */
  function LexFrom(t: Token, rest: string): seq<Token>
    decreases |rest|, 1
  {
    if IsRun(t) then Lex(Some(t), rest) else [t] + Lex(None, rest)
  }

  function Tokens(text: string): seq<Token> {
    Lex(None, text)
  }

  function TokenBracket(t: Token): Bracket {
    match t case Open => Opening case Close => Closing case _ => Neither
  }

  function TokenBrackets(toks: seq<Token>): (r: seq<Bracket>)
    ensures |r| == |toks|
  {
    if toks == [] then [] else [TokenBracket(toks[0])] + TokenBrackets(toks[1..])
  }

  lemma {:induction false} TokenBracketAt(toks: seq<Token>, i: nat)
    requires i <= |toks|
    ensures TokenBrackets(toks)[i..] == TokenBrackets(toks[i..])
    ensures i < |toks| ==> TokenBrackets(toks)[i] == TokenBracket(toks[i])
    decreases i
  {
    if i == 0 {
      assert toks[i..] == toks;
      assert TokenBrackets(toks)[i..] == TokenBrackets(toks);
    } else {
      TokenBracketAt(toks[1..], i - 1);
      assert toks[1..][i - 1..] == toks[i..];
      assert TokenBrackets(toks)[1..][i - 1..] == TokenBrackets(toks)[i..];
    }
  }

  // ---- executing symbols ----

  datatype TokenState = TokenState(pc: nat, head: int, store: Store, status: Status)
  {
    function Next(): TokenState {
      this.(pc := pc + 1)
    }
  }

  /** The effect of a run on the head and the tape. */
  function AfterRun(t: Token, s: TokenState): TokenState
    requires IsRun(t) && (t.Change? ==> s.store.OnTape(s.head))
  {
    if t.Move? then s.(head := s.head + t.amount)
    else
      var b: int := s.store.tape[s.head];
      s.(store := s.store.Put(s.head, Wrap(b + t.amount)))
  }

  /** Executes one fused symbol. Checked code gives up when a run leaves the head off the tape. */
  function Symbol(toks: seq<Token>, checked: bool, s: TokenState, partner: nat): TokenState {
    if s.status != Running then s
    else if s.pc >= |toks| then s.(status := Halted)
    else
      var t := toks[s.pc];
      if t.Move? then
        var s' := AfterRun(t, s).Next();
        if checked && !s.store.OnTape(s'.head) then s'.(status := Aborted) else s'
      else if !s.store.OnTape(s.head) then s.(status := OffTape)
      else
        var b := s.store.tape[s.head];
        match t
        case Read => s.Next().(store := s.store.Consume().Put(s.head, s.store.NextByte()))
        case Write => s.Next().(store := s.store.Print(b))
        case Change(_) => AfterRun(t, s).Next()
        case Open => if b != 0 then s.Next() else s.(pc := partner + 1)
        case Close => if b == 0 then s.Next() else s.(pc := partner + 1)
  }

  function TokenStep(toks: seq<Token>, jumps: seq<nat>, checked: bool, s: TokenState): TokenState {
    Symbol(toks, checked, s, if s.pc < |jumps| then jumps[s.pc] else 0)
  }

  function TokenMachine(toks: seq<Token>, jumps: seq<nat>, checked: bool): TokenState -> TokenState {
    s => TokenStep(toks, jumps, checked, s)
  }

  function TokenStart(mem: nat, input: seq<byte>): TokenState {
    TokenState(0, mem / 2, Store(Blank(mem), input, []), Running)
  }

  // ---- fusing keeps the brackets ----

  lemma {:induction false} TokenTails(t: Token, toks: seq<Token>)
    ensures TokenBrackets([t] + toks) == [TokenBracket(t)] + TokenBrackets(toks)
    ensures TokenBrackets([t] + toks)[1..] == TokenBrackets(toks)
  {
    assert ([t] + toks)[1..] == toks;
  }

  /** A pending run stands for no bracket. */
  lemma {:induction false} PendingIsNeutral(pending: Option<Token>, toks: seq<Token>, d: nat)
    requires pending.Some? ==> IsRun(pending.value)
    ensures Judge(TokenBrackets(Flush(pending) + toks), d) == Judge(TokenBrackets(toks), d)
    ensures RestAtClose(TokenBrackets(Flush(pending) + toks), d) == RestAtClose(TokenBrackets(toks), d)
  {
    if pending.Some? {
      TokenTails(pending.value, toks);
    } else {
      assert Flush(pending) + toks == toks;
    }
  }

  lemma {:induction false} CharTokenBracket(c: char)
    ensures CharBracket(c) == match CharToken(c) case None => Neither case Some(t) => TokenBracket(t)
  {
  }

  lemma {:induction false} FusingKeepsNesting(pending: Option<Token>, text: string, d: nat)
    requires pending.Some? ==> IsRun(pending.value)
    ensures Judge(TokenBrackets(Lex(pending, text)), d) == Judge(CharBrackets(text), d)
    decreases |text|, 0
  {
    if text == [] {
      PendingIsNeutral(pending, [], d);
      assert Flush(pending) + [] == Flush(pending);
    } else {
      CharTokenBracket(text[0]);
      match CharToken(text[0])
      case None => FusingKeepsNesting(pending, text[1..], d);
      case Some(t) =>
        if Fuses(pending, t) {
          FusingKeepsNesting(Some(Fuse(pending, t)), text[1..], d);
        } else {
          PendingIsNeutral(pending, LexFrom(t, text[1..]), d);
          CommandKeepsNesting(t, text, d);
        }
    }
  }

  lemma {:induction false} CommandKeepsNesting(t: Token, text: string, d: nat)
    requires text != [] && CharBrackets(text)[0] == TokenBracket(t)
    ensures Judge(TokenBrackets(LexFrom(t, text[1..])), d) == Judge(CharBrackets(text), d)
    decreases |text| - 1, 1
  {
    var rest := text[1..];
    if IsRun(t) {
      FusingKeepsNesting(Some(t), rest, d);
    } else {
      TokenTails(t, Lex(None, rest));
      if t.Open? {
        FusingKeepsNesting(None, rest, d + 1);
      } else if !t.Close? {
        FusingKeepsNesting(None, rest, d);
      } else if d > 0 {
        FusingKeepsNesting(None, rest, d - 1);
      }
    }
  }

  /** The symbol of the closing bracket that a scan of the text finds is the one a scan of the symbols finds. */
  lemma {:induction false} FusingKeepsCloses(pending: Option<Token>, text: string, d: nat)
    requires pending.Some? ==> IsRun(pending.value)
    requires RestAtClose(CharBrackets(text), d) > 0
    ensures var r := RestAtClose(CharBrackets(text), d);
            RestAtClose(TokenBrackets(Lex(pending, text)), d) == |Lex(None, text[|text| - r..])|
    decreases |text|, 0
  {
    CharTokenBracket(text[0]);
    match CharToken(text[0])
    case None =>
      SuffixOfTail(text, d);
      FusingKeepsCloses(pending, text[1..], d);
    case Some(t) =>
      if Fuses(pending, t) {
        SuffixOfTail(text, d);
        FusingKeepsCloses(Some(Fuse(pending, t)), text[1..], d);
      } else {
        PendingIsNeutral(pending, LexFrom(t, text[1..]), d);
        CommandKeepsCloses(t, text, d);
      }
  }

  lemma {:induction false} SuffixOfTail(text: string, d: nat)
    requires RestAtClose(CharBrackets(text), d) > 0
    ensures var r := RestAtClose(CharBrackets(text), d);
            r < |text| ==> text[1..][|text[1..]| - r..] == text[|text| - r..]
  {
  }

  lemma {:induction false} CommandKeepsCloses(t: Token, text: string, d: nat)
    requires text != [] && CharToken(text[0]) == Some(t) && CharBrackets(text)[0] == TokenBracket(t)
    requires RestAtClose(CharBrackets(text), d) > 0
    ensures var r := RestAtClose(CharBrackets(text), d);
            RestAtClose(TokenBrackets(LexFrom(t, text[1..])), d) == |Lex(None, text[|text| - r..])|
    decreases |text| - 1, 1
  {
    var rest := text[1..];
    SuffixOfTail(text, d);
    if IsRun(t) {
      FusingKeepsCloses(Some(t), rest, d);
    } else {
      TokenTails(t, Lex(None, rest));
      if t.Open? {
        FusingKeepsCloses(None, rest, d + 1);
      } else if !t.Close? {
        FusingKeepsCloses(None, rest, d);
      } else if d > 0 {
        FusingKeepsCloses(None, rest, d - 1);
      } else {
        assert text[0..] == text;
        assert Lex(None, text) == [t] + Lex(None, rest);
      }
    }
  }

  ghost predicate IsSuffix(small: seq<Token>, big: seq<Token>) {
    |small| <= |big| && big[|big| - |small|..] == small
  }

  lemma {:induction false} SuffixOfAppend(small: seq<Token>, head: seq<Token>, big: seq<Token>)
    requires IsSuffix(small, big)
    ensures IsSuffix(small, head + big)
  {
  }

  /** A bracket starts a new symbol, so the symbols from there on do not depend on what precedes. */
  lemma {:induction false} BracketsSplit(pending: Option<Token>, text: string, i: nat)
    requires i < |text| && CharBracket(text[i]) != Neither
    ensures IsSuffix(Lex(None, text[i..]), Lex(pending, text))
    decreases i
  {
    if i == 0 {
      assert text[i..] == text;
      CharTokenBracket(text[0]);
      var t := CharToken(text[0]).value;
      assert Lex(None, text) == [] + LexFrom(t, text[1..]);
      SuffixOfAppend(LexFrom(t, text[1..]), Flush(pending), LexFrom(t, text[1..]));
    } else {
      assert text[1..][i - 1..] == text[i..];
      match CharToken(text[0])
      case None => BracketsSplit(pending, text[1..], i - 1);
      case Some(t) =>
        if Fuses(pending, t) {
          BracketsSplit(Some(Fuse(pending, t)), text[1..], i - 1);
        } else {
          var next := if IsRun(t) then Some(t) else None;
          BracketsSplit(next, text[1..], i - 1);
          SuffixOfAppend(Lex(None, text[i..]), if IsRun(t) then [] else [t], Lex(next, text[1..]));
          assert LexFrom(t, text[1..]) == (if IsRun(t) then [] else [t]) + Lex(next, text[1..]);
          SuffixOfAppend(Lex(None, text[i..]), Flush(pending), LexFrom(t, text[1..]));
        }
    }
  }
}
