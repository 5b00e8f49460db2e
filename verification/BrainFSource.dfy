/** The BrainF language as its command table defines it: one command per character. */
module BrainFSource {

  type byte = b: int | 0 <= b < 256

  function Wrap(n: int): byte {
    n % 256
  }

  /** What a run can observe or change besides the head: the tape, the rest of
      the standard input and the standard output. */
  datatype Store = Store(tape: seq<byte>, input: seq<byte>, output: seq<byte>)
  {
    /** getchar() truncated to a byte: -1 at end of file becomes 255. */
    function NextByte(): byte {
      if input == [] then 255 else input[0]
    }

    function Consume(): Store {
      if input == [] then this else this.(input := input[1..])
    }

    predicate OnTape(head: int) {
      0 <= head < |tape|
    }

    function Put(head: int, b: byte): Store
      requires OnTape(head)
    {
      this.(tape := tape[head := b])
    }

    function Print(b: byte): Store {
      this.(output := output + [b])
    }
  }

  /** `OffTape` is a dereference outside the tape, which C leaves undefined.
      `Aborted` is the bounds check's error exit, which only checked code takes. */
  datatype Status = Running | Halted | OffTape | Aborted

  // ---- bracket matching, for characters and for fused symbols alike ----

  datatype Bracket = Opening | Closing | Neither

  /** Scans `s` for the closing bracket of the `depth + 1` brackets open at its start.
      The result is the length of the suffix beginning there, or -1 if there is none. */
  function RestAtClose(s: seq<Bracket>, depth: nat): (r: int)
    ensures -1 <= r <= |s| && r != 0
  {
    if s == [] then -1
    else match s[0]
      case Opening => RestAtClose(s[1..], depth + 1)
      case Closing => if depth == 0 then |s| else RestAtClose(s[1..], depth - 1)
      case Neither => RestAtClose(s[1..], depth)
  }

  /** The position of the bracket that closes the one at `i`, or `|s| + 1`. */
  function CloseOf(s: seq<Bracket>, i: nat): nat
    requires i < |s|
  {
    |s| - RestAtClose(s[i + 1..], 0)
  }

  ghost predicate Encloses(s: seq<Bracket>, i: nat, j: nat) {
    i < j < |s| && s[i] == Opening && CloseOf(s, i) == j
  }

  /** The position of the bracket that the one at `j` closes, or `|s|`. */
  ghost function OpenOf(s: seq<Bracket>, j: nat): nat {
    if exists i: nat :: Encloses(s, i, j) then
      var i: nat :| Encloses(s, i, j); i
    else |s|
  }

  /** The other bracket of the pair that `k` belongs to. */
  ghost function PartnerOf(s: seq<Bracket>, k: nat): nat {
    if k < |s| && s[k] == Opening then CloseOf(s, k) else OpenOf(s, k)
  }

  /** The jump table of a program: every bracket's partner. */
  ghost function Jumps(s: seq<Bracket>): (r: seq<nat>)
    ensures |r| == |s|
    ensures forall k :: 0 <= k < |s| ==> r[k] == PartnerOf(s, k)
  {
    seq(|s|, k requires 0 <= k < |s| => PartnerOf(s, k))
  }

  datatype Nesting = Balanced | ExtraClose | MissingClose

  /** How the brackets of `s` nest when `depth` are open before it. */
  function Judge(s: seq<Bracket>, depth: nat): Nesting {
    if s == [] then if depth == 0 then Balanced else MissingClose
    else match s[0]
      case Opening => Judge(s[1..], depth + 1)
      case Closing => if depth == 0 then ExtraClose else Judge(s[1..], depth - 1)
      case Neither => Judge(s[1..], depth)
  }

  /** Once the bracket at depth 0 is found, a scan one level deeper goes on behind it. */
  lemma {:induction false} ScanPastClose(s: seq<Bracket>, d: nat, e: nat)
    requires RestAtClose(s, d) > 0
    ensures var rest := s[|s| - RestAtClose(s, d) + 1..];
            && RestAtClose(s, d + 1 + e) == RestAtClose(rest, e)
  {
    match s[0]
    case Opening => ScanPastClose(s[1..], d + 1, e);
      assert s[1..][|s[1..]| - RestAtClose(s, d) + 1..] == s[|s| - RestAtClose(s, d) + 1..];
    case Closing =>
      if d == 0 {
        assert s[1..] == s[|s| - RestAtClose(s, d) + 1..];
      } else {
        ScanPastClose(s[1..], d - 1, e);
        assert s[1..][|s[1..]| - RestAtClose(s, d) + 1..] == s[|s| - RestAtClose(s, d) + 1..];
      }
    case Neither => ScanPastClose(s[1..], d, e);
      assert s[1..][|s[1..]| - RestAtClose(s, d) + 1..] == s[|s| - RestAtClose(s, d) + 1..];
  }

  /** A scan that ends at or after `k` reaches `k` at some depth. */
  lemma {:induction false} ScanReaches(s: seq<Bracket>, d: nat, k: nat) returns (e: nat)
    requires RestAtClose(s, d) > 0 && k <= |s| - RestAtClose(s, d)
    ensures RestAtClose(s[k..], e) == RestAtClose(s, d)
  {
    if k == 0 {
      assert s[k..] == s;
      e := d;
    } else {
      var d' := match s[0] case Opening => d + 1 case Closing => d - 1 case Neither => d;
      e := ScanReaches(s[1..], d', k - 1);
      assert s[1..][k - 1..] == s[k..];
    }
  }

  /** A scan that steps over an opening bracket does not stop at the bracket that closes it. */
  lemma {:induction false} ScanOverClose(t: seq<Bracket>, k: nat)
    requires k < |t| && t[k] == Opening
    requires RestAtClose(t[k + 1..], 0) > 0
    ensures RestAtClose(t, 0) != RestAtClose(t[k + 1..], 0)
  {
    if RestAtClose(t, 0) == RestAtClose(t[k + 1..], 0) {
      var e := ScanReaches(t, 0, k);
      assert RestAtClose(t[k..], e) == RestAtClose(t[k + 1..], e + 1) by {
        assert t[k..][1..] == t[k + 1..];
      }
      ScanPastClose(t[k + 1..], 0, e);
    }
  }

  lemma {:induction false} NoLaterOpener(s: seq<Bracket>, i: nat, i': nat, j: nat)
    requires i < i' && Encloses(s, i, j)
    ensures !Encloses(s, i', j)
  {
    if Encloses(s, i', j) {
      var t := s[i + 1..];
      var k := i' - i - 1;
      assert t[k + 1..] == s[i' + 1..];
      assert RestAtClose(t, 0) == |s| - j;
      ScanOverClose(t, k);
    }
  }

  /** No bracket closes two others, so `OpenOf` inverts `CloseOf`. */
  lemma {:induction false} OpenOfInverts(s: seq<Bracket>, i: nat, j: nat)
    requires Encloses(s, i, j)
    ensures OpenOf(s, j) == i
  {
    forall i': nat | Encloses(s, i', j) ensures i' == i {
      if i' < i {
        NoLaterOpener(s, i', i, j);
      } else if i < i' {
        NoLaterOpener(s, i, i', j);
      }
    }
  }

  /** In a text without an extra closing bracket every closing bracket has its opener;
      here for a text that starts inside `d` loops. */
  lemma {:induction false} CloseHasOpener(s: seq<Bracket>, d: nat, j: nat) returns (i: nat, e: nat)
    requires j < |s| && s[j] == Closing && Judge(s, d) != ExtraClose
    ensures Encloses(s, i, j) || (e < d && RestAtClose(s, e) == |s| - j)
    decreases j
  {
    i, e := 0, 0;
    if j > 0 {
      var d' := match s[0] case Opening => d + 1 case Closing => d - 1 case Neither => d;
      i, e := CloseHasOpener(s[1..], d', j - 1);
      if Encloses(s[1..], i, j - 1) {
        assert s[1..][i + 1..] == s[i + 2..];
        i := i + 1;
      } else if s[0] == Opening {
        if e == 0 { i := 0; } else { e := e - 1; }
      } else if s[0] == Closing {
        e := e + 1;
      }
    }
  }

  /** In a text that ends with no loop open every opening bracket has its closer. */
  lemma {:induction false} OpenHasCloser(s: seq<Bracket>, d: nat, e: nat)
    requires Judge(s, d) == Balanced && e < d
    ensures RestAtClose(s, e) > 0 && s[|s| - RestAtClose(s, e)] == Closing
  {
    match s[0]
    case Opening => OpenHasCloser(s[1..], d + 1, e + 1);
    case Closing => if e > 0 { OpenHasCloser(s[1..], d - 1, e - 1); }
    case Neither => OpenHasCloser(s[1..], d, e);
  }

  lemma {:induction false} JudgeFrom(s: seq<Bracket>, d: nat, k: nat) returns (e: nat)
    requires Judge(s, d) == Balanced && k <= |s|
    ensures Judge(s[k..], e) == Balanced
    decreases k
  {
    if k == 0 {
      assert s[k..] == s;
      e := d;
    } else {
      var d' := match s[0] case Opening => d + 1 case Closing => d - 1 case Neither => d;
      e := JudgeFrom(s[1..], d', k - 1);
      assert s[1..][k - 1..] == s[k..];
    }
  }

  /** Balanced brackets pair up. */
  lemma {:induction false} BalancedPairs(s: seq<Bracket>, k: nat)
    requires Judge(s, 0) == Balanced && k < |s|
    ensures s[k] == Opening ==> Encloses(s, k, CloseOf(s, k)) && s[CloseOf(s, k)] == Closing
    ensures s[k] == Closing ==> Encloses(s, OpenOf(s, k), k)
  {
    if s[k] == Opening {
      var e := JudgeFrom(s, 0, k);
      assert s[k..][1..] == s[k + 1..];
      OpenHasCloser(s[k + 1..], e + 1, 0);
    } else if s[k] == Closing {
      var i, e := CloseHasOpener(s, 0, k);
      OpenOfInverts(s, i, k);
    }
  }

  // ---- the command table ----

  function CharBracket(c: char): Bracket {
    if c == '[' then Opening else if c == ']' then Closing else Neither
  }

  function CharBrackets(text: string): (r: seq<Bracket>)
    ensures |r| == |text|
  {
    if text == [] then [] else [CharBracket(text[0])] + CharBrackets(text[1..])
  }

  lemma {:induction false} CharBracketAt(text: string, i: nat)
    requires i <= |text|
    ensures CharBrackets(text)[i..] == CharBrackets(text[i..])
    ensures i < |text| ==> CharBrackets(text)[i] == CharBracket(text[i])
    decreases i
  {
    if i == 0 {
      assert text[i..] == text;
      assert CharBrackets(text)[i..] == CharBrackets(text);
    } else {
      CharBracketAt(text[1..], i - 1);
      assert text[1..][i - 1..] == text[i..];
      assert CharBrackets(text)[1..][i - 1..] == CharBrackets(text)[i..];
    }
  }

  /** `pc` indexes the program text; `head` may leave the tape as long as it is not dereferenced. */
  datatype CharState = CharState(pc: nat, head: int, store: Store, status: Status)
  {
    function Next(): CharState {
      this.(pc := pc + 1)
    }
  }

  /** Executes one character of the program, whose partner is at `partner` if it is
      a bracket. `[` tests the loop condition and `]` goes back to its `[`, as
      `while (*h) { ... }` does. */
  function CharCommand(text: string, s: CharState, partner: nat): CharState {
    if s.status != Running then s
    else if s.pc >= |text| then s.(status := Halted)
    else
      var c := text[s.pc];
      if c == '<' then s.Next().(head := s.head - 1)
      else if c == '>' then s.Next().(head := s.head + 1)
      else if c == ']' then s.(pc := partner)
      else if c !in ",.+-[" then s.Next()
      else if !s.store.OnTape(s.head) then s.(status := OffTape)
      else
        var b: int := s.store.tape[s.head];
        if c == ',' then s.Next().(store := s.store.Consume().Put(s.head, s.store.NextByte()))
        else if c == '.' then s.Next().(store := s.store.Print(b))
        else if c == '+' then s.Next().(store := s.store.Put(s.head, Wrap(b + 1)))
        else if c == '-' then s.Next().(store := s.store.Put(s.head, Wrap(b - 1)))
        else if b != 0 then s.Next()
        else s.(pc := partner + 1)
  }

  function CharStep(text: string, jumps: seq<nat>, s: CharState): CharState {
    CharCommand(text, s, if s.pc < |jumps| then jumps[s.pc] else 0)
  }

  function CharMachine(text: string, jumps: seq<nat>): CharState -> CharState {
    c => CharStep(text, jumps, c)
  }

  function Blank(mem: nat): seq<byte> {
    seq(mem, i => 0)
  }

  /** The tape is zeroed and the head starts in its middle. */
  function CharStart(mem: nat, input: seq<byte>): CharState {
    CharState(0, mem / 2, Store(Blank(mem), input, []), Running)
  }

  /** The command needs the cell at the head. */
  predicate NeedsCell(c: char) {
    c in ",.+-["
  }

  /** What the cell at the head is after a command that needs it. */
  function CellAfter(c: char, cell: byte, input: seq<byte>): byte {
    if c == ',' then if input == [] then 255 else input[0]
    else if c == '+' then if cell == 255 then 0 else cell + 1
    else if c == '-' then if cell == 0 then 255 else cell - 1
    else cell
  }

  /** The table of the eight commands: what each one reads, writes and moves, and that it leaves the rest alone. */
  lemma {:induction false} CommandTable(text: string, jumps: seq<nat>, s: CharState)
    requires s.status == Running && s.pc < |text| && s.pc < |jumps|
    ensures var c, s' := text[s.pc], CharStep(text, jumps, s);
            && s'.head == s.head + (if c == '>' then 1 else 0) - (if c == '<' then 1 else 0)
            && |s'.store.tape| == |s.store.tape|
            && (s'.status == if NeedsCell(c) && !(0 <= s.head < |s.store.tape|) then OffTape else Running)
    ensures var c, s' := text[s.pc], CharStep(text, jumps, s);
            if NeedsCell(c) && 0 <= s.head < |s.store.tape| then
              && s'.store.tape[s.head] == CellAfter(c, s.store.tape[s.head], s.store.input)
              && (forall i :: 0 <= i < |s.store.tape| && i != s.head ==> s'.store.tape[i] == s.store.tape[i])
              && s'.store.input == (if c == ',' && s.store.input != [] then s.store.input[1..] else s.store.input)
              && s'.store.output == s.store.output + (if c == '.' then [s.store.tape[s.head]] else [])
              && s'.pc == (if c == '[' && s.store.tape[s.head] == 0 then jumps[s.pc] + 1 else s.pc + 1)
            else
              && s'.store == s.store
              && s'.pc == if NeedsCell(c) then s.pc else if c == ']' then jumps[s.pc] else s.pc + 1
  {
  }
}
