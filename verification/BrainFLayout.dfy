/** The generated code of a balanced program contains the code of every symbol. */
module BrainFLayout {
  import opened BrainFSource
  import opened BrainFTokens
  import opened BrainFCfg
  import opened BrainFCode
  import opened BrainFGen

  /** Where the code of each of the first `k + 1` symbols starts. */
  function Positions(toks: seq<Token>, mem: nat, checked: bool, k: nat): (pos: seq<Pos>)
    requires k <= |toks|
    ensures |pos| == k + 1
    decreases k
  {
    (if k == 0 then [] else Positions(toks, mem, checked, k - 1)) + [GenRun(toks, mem, checked, k).Here()]
  }

  /** What a balanced program's jump table is used for. */
  ghost predicate Paired(toks: seq<Token>, jumps: seq<nat>) {
    && |jumps| == |toks|
    && (forall i :: 0 <= i < |toks| && toks[i] == Open ==> Partners(toks, jumps, i, jumps[i]))
    && (forall i :: 0 <= i < |toks| && toks[i] == Close ==> Partners(toks, jumps, jumps[i], i))
  }

  ghost predicate Partners(toks: seq<Token>, jumps: seq<nat>, i: nat, j: nat)
    requires |jumps| == |toks|
  {
    i < j < |toks| && toks[i] == Open && toks[j] == Close && jumps[i] == j && jumps[j] == i
  }

  lemma {:induction false} BalancedIsPaired(toks: seq<Token>)
    requires Judge(TokenBrackets(toks), 0) == Balanced
    ensures Paired(toks, Jumps(TokenBrackets(toks)))
  {
    var b := TokenBrackets(toks);
    forall i | 0 <= i < |toks| && toks[i] == Open
      ensures Partners(toks, Jumps(b), i, Jumps(b)[i])
    {
      TokenBracketAt(toks, i);
      BalancedPairs(b, i);
      var j := CloseOf(b, i);
      TokenBracketAt(toks, j);
      OpenOfInverts(b, i, j);
    }
    forall j | 0 <= j < |toks| && toks[j] == Close
      ensures Partners(toks, Jumps(b), Jumps(b)[j], j)
    {
      TokenBracketAt(toks, j);
      BalancedPairs(b, j);
      TokenBracketAt(toks, OpenOf(b, j));
    }
  }

  // ---- nesting ----

  /** The bracket at `open` is closed where a scan from `k` finds the end of `depth` further loops. */
  ghost predicate ClosedFrom(b: seq<Bracket>, open: nat, k: nat, depth: nat) {
    && open < |b| && k <= |b| && b[open] == Opening
    && RestAtClose(b[open + 1..], 0) == RestAtClose(b[k..], depth)
  }

  lemma {:induction false} ScanOne(b: seq<Bracket>, open: nat, k: nat, depth: nat)
    requires ClosedFrom(b, open, k, depth) && k < |b|
    ensures b[k] == Neither ==> ClosedFrom(b, open, k + 1, depth)
    ensures b[k] == Opening ==> ClosedFrom(b, open, k + 1, depth + 1)
    ensures b[k] == Closing && depth > 0 ==> ClosedFrom(b, open, k + 1, depth - 1)
    ensures b[k] == Closing && depth == 0 && open < k ==> PartnerOf(b, open) == k
  {
    assert b[k..][1..] == b[k + 1..];
  }

  /** The open loops of the generator are the loops that the brackets have open. */
  ghost predicate Nested(b: seq<Bracket>, loops: seq<Frame>, k: nat) {
    && k <= |b|
    && Judge(b[k..], |loops|) == Judge(b, 0)
    && forall t :: 0 <= t < |loops| ==> loops[t].open < k && ClosedFrom(b, loops[t].open, k, |loops| - 1 - t)
  }

  lemma {:induction false} NestedStart(b: seq<Bracket>)
    ensures Nested(b, [], 0)
  {
    assert b[0..] == b;
  }

  lemma {:induction false} NestedNeither(b: seq<Bracket>, loops: seq<Frame>, k: nat)
    requires Nested(b, loops, k) && k < |b| && b[k] == Neither
    ensures Nested(b, loops, k + 1)
  {
    assert b[k..][1..] == b[k + 1..];
    forall t | 0 <= t < |loops| ensures ClosedFrom(b, loops[t].open, k + 1, |loops| - 1 - t) {
      ScanOne(b, loops[t].open, k, |loops| - 1 - t);
    }
  }

  lemma {:induction false} NestedOpening(b: seq<Bracket>, loops: seq<Frame>, k: nat, loop: Frame)
    requires Nested(b, loops, k) && k < |b| && b[k] == Opening && loop.open == k
    ensures Nested(b, loops + [loop], k + 1)
  {
    assert b[k..][1..] == b[k + 1..];
    forall t | 0 <= t < |loops| ensures ClosedFrom(b, loops[t].open, k + 1, |loops| - t) {
      ScanOne(b, loops[t].open, k, |loops| - 1 - t);
    }
  }

  lemma {:induction false} NestedClosing(b: seq<Bracket>, loops: seq<Frame>, k: nat)
    requires Nested(b, loops, k) && k < |b| && b[k] == Closing && loops != []
    ensures Nested(b, loops[..|loops| - 1], k + 1)
    ensures PartnerOf(b, loops[|loops| - 1].open) == k
  {
    assert b[k..][1..] == b[k + 1..];
    ScanOne(b, loops[|loops| - 1].open, k, 0);
    forall t | 0 <= t < |loops| - 1 ensures ClosedFrom(b, loops[t].open, k + 1, |loops| - 2 - t) {
      ScanOne(b, loops[t].open, k, |loops| - 1 - t);
    }
  }

  /** If a closing bracket comes next, there is a loop for it to close. */
  ghost predicate HasLoop(toks: seq<Token>, mem: nat, checked: bool, k: nat)
    requires k < |toks|
  {
    toks[k] == Close ==> GenRun(toks, mem, checked, k).loops != []
  }

  /** No closing bracket before `k` is extra. */
  ghost predicate NoExtra(toks: seq<Token>, mem: nat, checked: bool, k: nat)
    requires k <= |toks|
  {
    forall j :: 0 <= j < k ==> HasLoop(toks, mem, checked, j)
  }

  lemma {:induction false} NestedNext(toks: seq<Token>, g: Gen, checked: bool, k: nat)
    requires k < |toks| && g.Ok() && Nested(TokenBrackets(toks), g.loops, k) && (toks[k] == Close ==> g.loops != [])
    ensures Nested(TokenBrackets(toks), GenSymbol(g, toks[k], k, checked).loops, k + 1)
  {
    var b := TokenBrackets(toks);
    TokenBracketAt(toks, k);
    match toks[k]
    case Open => NestedOpening(b, g.loops, k, Frame(k, g.Here(), g.next, |g.f|));
    case Close => NestedClosing(b, g.loops, k);
    case _ => NestedNeither(b, g.loops, k);
  }

  lemma {:induction false} GenNested(toks: seq<Token>, mem: nat, checked: bool, k: nat)
    requires k <= |toks| && NoExtra(toks, mem, checked, k)
    ensures Nested(TokenBrackets(toks), GenRun(toks, mem, checked, k).loops, k)
    decreases k
  {
    if k == 0 {
      NestedStart(TokenBrackets(toks));
    } else {
      GenNested(toks, mem, checked, k - 1);
      assert HasLoop(toks, mem, checked, k - 1);
      NestedNext(toks, GenRun(toks, mem, checked, k - 1), checked, k - 1);
    }
  }

  /** Where a scan stands tells how the whole program is judged. */
  lemma {:induction false} JudgeNow(b: seq<Bracket>, loops: seq<Frame>, k: nat)
    requires Nested(b, loops, k)
    ensures k < |b| && b[k] == Closing && loops == [] ==> Judge(b, 0) == ExtraClose
    ensures k == |b| ==> Judge(b, 0) == if loops == [] then Balanced else MissingClose
  {
  }

  lemma {:induction false} NoExtraAt(toks: seq<Token>, mem: nat, checked: bool, k: nat)
    requires k < |toks| && Judge(TokenBrackets(toks), 0) == Balanced
    requires NoExtra(toks, mem, checked, k)
    ensures HasLoop(toks, mem, checked, k)
  {
    GenNested(toks, mem, checked, k);
    TokenBracketAt(toks, k);
    JudgeNow(TokenBrackets(toks), GenRun(toks, mem, checked, k).loops, k);
  }

  /** A balanced program has no extra closing bracket at any point. */
  lemma {:induction false} BalancedHasNoExtra(toks: seq<Token>, mem: nat, checked: bool, k: nat)
    requires k <= |toks| && Judge(TokenBrackets(toks), 0) == Balanced
    ensures NoExtra(toks, mem, checked, k)
    decreases k
  {
    if k > 0 {
      BalancedHasNoExtra(toks, mem, checked, k - 1);
      NoExtraAt(toks, mem, checked, k - 1);
    }
  }

  // ---- layout ----

  /** Code only grows: `f'` keeps every block of `f` as a prefix, except block `t`. */
  ghost predicate Grows(f: Function, f': Function, t: BlockId) {
    |f| <= |f'| && forall b :: 0 <= b < |f| && b != t ==> f[b] <= f'[b]
  }

  lemma {:induction false} AtKept(f: Function, f': Function, t: BlockId, b: BlockId, i: nat, code: seq<Instr>)
    requires Grows(f, f', t) && At(f, b, i, code) && b != t
    ensures At(f', b, i, code)
  {
    assert f'[b][i..i + |code|] == f[b][i..i + |code|];
  }

  lemma {:induction false} LoopKept(f: Function, f': Function, t: BlockId, first: Pos, body: Pos, last: Pos, after: Pos)
    requires Grows(f, f', t) && LoopCode(f, first, body, last, after)
    requires t < |f| ==> |f[t]| == 1
    requires first.blk != t && last.blk != t && after.blk != t
    ensures LoopCode(f', first, body, last, after)
  {
    var test := body.blk - 1;
    AtKept(f, f', t, first.blk, first.idx, [Br(test)]);
    AtKept(f, f', t, last.blk, last.idx, [Br(test)]);
    AtKept(f, f', t, test, 0, TestCode(first, body, last, after.blk));
    AtKept(f, f', t, after.blk, 0, [Phi(after.head, [Edge(body.head, test)])]);
  }

  lemma {:induction false} CodedKept(f: Function, f': Function, t: BlockId, toks: seq<Token>, jumps: seq<nat>,
          pos: seq<Pos>, q: Pos, checked: bool, i: nat)
    requires i < |toks| == |jumps| && i + 1 < |pos| && Coded(f, toks, jumps, pos, checked, i)
    requires Grows(f, f', t) && (t < |f| ==> |f[t]| == 1)
    requires forall j :: 0 <= j < |pos| ==> pos[j].blk != t
    ensures Coded(f', toks, jumps, pos + [q], checked, i)
  {
    var p := pos[i];
    match toks[i]
    case Read => AtKept(f, f', t, p.blk, p.idx, ReadCode(p));
    case Write => AtKept(f, f', t, p.blk, p.idx, WriteCode(p));
    case Change(n) => AtKept(f, f', t, p.blk, p.idx, ChangeCode(p, n));
    case Move(n) =>
      AtKept(f, f', t, p.blk, p.idx,
             if checked then MoveCode(p, n) + CheckCode(p, pos[i + 1].blk) else MoveCode(p, n));
    case Open => LoopKept(f, f', t, p, pos[i + 1], pos[jumps[i]], pos[jumps[i] + 1]);
    case Close => LoopKept(f, f', t, pos[jumps[i]], pos[jumps[i] + 1], p, pos[i + 1]);
  }

  /** An open loop's code so far. */
  ghost predicate Started(f: Function, loop: Frame, pos: seq<Pos>) {
    && loop.open + 1 < |pos|
    && loop.first == pos[loop.open]
    && pos[loop.open + 1] == Pos(loop.test + 1, 0, loop.phi, loop.phi + 1)
    && loop.first.blk < loop.test && HEAD <= loop.phi
    && At(f, loop.first.blk, loop.first.idx, [Br(loop.test)])
  }

  /** What holds of the code of the first `k` symbols. */
  ghost predicate Laid(g: Gen, pos: seq<Pos>, toks: seq<Token>, jumps: seq<nat>, checked: bool, k: nat) {
    && g.Ok() && k <= |toks| == |jumps| && |pos| == k + 1 && pos[k] == g.Here()
    && (forall i :: 0 <= i <= k ==>
         pos[i].blk <= g.insert && pos[i].next <= g.next && HEAD <= pos[i].head < pos[i].next)
    && (forall i, t :: 0 <= i <= k && 0 <= t < |g.loops| ==> pos[i].blk != g.loops[t].test)
    && (forall t :: 0 <= t < |g.loops| ==> Started(g.f, g.loops[t], pos))
    && (forall i :: 0 <= i < k && !(toks[i] == Open && jumps[i] >= k) ==> Coded(g.f, toks, jumps, pos, checked, i))
  }

  /** Nothing but the new symbol changes, and the old code stays. */
  lemma {:induction false} KeepCoded(g: Gen, g': Gen, t: BlockId, pos: seq<Pos>, toks: seq<Token>, jumps: seq<nat>,
          checked: bool, k: nat)
    requires Laid(g, pos, toks, jumps, checked, k) && Paired(toks, jumps) && k < |toks| && g'.insert < |g'.f|
    requires Grows(g.f, g'.f, t) && (t < |g.f| ==> |g.f[t]| == 1)
    requires forall j :: 0 <= j <= k ==> pos[j].blk != t
    ensures var pos' := pos + [g'.Here()];
            forall i ::
                0 <= i < k && !(toks[i] == Open && jumps[i] >= k + 1) && !(toks[k] == Close && jumps[k] == i) ==>
              Coded(g'.f, toks, jumps, pos', checked, i)
  {
    var pos' := pos + [g'.Here()];
    forall i | 0 <= i < k && !(toks[i] == Open && jumps[i] >= k + 1) && !(toks[k] == Close && jumps[k] == i)
      ensures Coded(g'.f, toks, jumps, pos', checked, i)
    {
      assert toks[i] == Open ==> Partners(toks, jumps, i, jumps[i]);
      CodedKept(g.f, g'.f, t, toks, jumps, pos, g'.Here(), checked, i);
    }
  }

  lemma {:induction false} KeepStarted(g: Gen, f': Function, t: BlockId, pos: seq<Pos>, q: Pos, u: nat)
    requires u < |g.loops| && Started(g.f, g.loops[u], pos)
    requires Grows(g.f, f', t) && g.loops[u].first.blk != t
    ensures Started(f', g.loops[u], pos + [q])
  {
    var loop := g.loops[u];
    AtKept(g.f, f', t, loop.first.blk, loop.first.idx, [Br(loop.test)]);
  }

  lemma {:induction false} AppendedAt(f: Function, b: BlockId, code: seq<Instr>, more: seq<Block>)
    requires b < |f|
    ensures At(Append(f, b, code) + more, b, |f[b]|, code)
    ensures Grows(f, Append(f, b, code) + more, |f|)
  {
  }

  predicate IsStraight(t: Token, checked: bool) {
    !t.Open? && !t.Close? && !(checked && t.Move?)
  }

  function StraightCode(p: Pos, t: Token): seq<Instr>
    requires !t.Open? && !t.Close?
  {
    match t
    case Read => ReadCode(p)
    case Write => WriteCode(p)
    case Change(n) => ChangeCode(p, n)
    case Move(n) => MoveCode(p, n)
  }

  lemma {:induction false} StraightAppended(g: Gen, t: Token, i: nat, checked: bool)
    requires g.Ok() && IsStraight(t, checked)
    ensures var g' := GenSymbol(g, t, i, checked);
            && g'.Ok() && g'.f == Append(g.f, g.insert, StraightCode(g.Here(), t)) && g'.insert == g.insert
            && g'.loops == g.loops && g'.next > g.next && g'.head == if t.Move? then g.next else g.head
  {
    GenSymbolOk(g, t, i, checked);
  }

  lemma {:induction false} StraightCoded(f: Function, pos: seq<Pos>, toks: seq<Token>, jumps: seq<nat>, checked: bool,
          k: nat)
    requires k < |toks| == |jumps| && k + 1 < |pos| && IsStraight(toks[k], checked)
    requires var p, q := pos[k], pos[k + 1];
             && HEAD <= p.head < p.next && q.blk == p.blk && q.head == (if toks[k].Move? then p.next else p.head)
             && At(f, p.blk, p.idx, StraightCode(p, toks[k])) && q.idx == p.idx + |StraightCode(p, toks[k])|
    ensures Coded(f, toks, jumps, pos, checked, k)
  {
  }

  /** `,`, `.`, a run of `+-`, or a run of `<>` in unchecked code. */
  lemma {:induction false} StraightLaid(g: Gen, pos: seq<Pos>, toks: seq<Token>, jumps: seq<nat>, mem: nat,
          checked: bool, k: nat)
    requires Laid(g, pos, toks, jumps, checked, k) && Paired(toks, jumps) && k < |toks|
    requires IsStraight(toks[k], checked)
    ensures var g' := GenSymbol(g, toks[k], k, checked);
            g'.Ok() && Laid(g', pos + [g'.Here()], toks, jumps, checked, k + 1)
  {
    StraightAppended(g, toks[k], k, checked);
    AppendLaid(g, GenSymbol(g, toks[k], k, checked), StraightCode(g.Here(), toks[k]), pos, toks, jumps, checked, k);
  }

  lemma {:induction false} AppendLaid(g: Gen, g': Gen, code: seq<Instr>, pos: seq<Pos>, toks: seq<Token>,
          jumps: seq<nat>, checked: bool, k: nat)
    requires Laid(g, pos, toks, jumps, checked, k) && Paired(toks, jumps) && k < |toks|
    requires IsStraight(toks[k], checked) && code == StraightCode(g.Here(), toks[k])
    requires && g'.Ok() && g'.f == Append(g.f, g.insert, code) && g'.insert == g.insert && g'.loops == g.loops
             && g'.next > g.next && g'.head == if toks[k].Move? then g.next else g.head
    ensures Laid(g', pos + [g'.Here()], toks, jumps, checked, k + 1)
  {
    AppendedAt(g.f, g.insert, code, []);
    assert g'.f == Append(g.f, g.insert, code) + [];
    KeepCoded(g, g', |g.f|, pos, toks, jumps, checked, k);
    forall u | 0 <= u < |g.loops| ensures Started(g'.f, g.loops[u], pos + [g'.Here()]) {
      KeepStarted(g, g'.f, |g.f|, pos, g'.Here(), u);
    }
    StraightCoded(g'.f, pos + [g'.Here()], toks, jumps, checked, k);
  }

  /** A run of `<>` in checked code. */
  lemma {:induction false} CheckedLaid(g: Gen, pos: seq<Pos>, toks: seq<Token>, jumps: seq<nat>, mem: nat, k: nat)
    requires Laid(g, pos, toks, jumps, true, k) && Paired(toks, jumps) && k < |toks| && toks[k].Move?
    ensures var g' := GenSymbol(g, toks[k], k, true);
            g'.Ok() && Laid(g', pos + [g'.Here()], toks, jumps, true, k + 1)
  {
    GenSymbolOk(g, toks[k], k, true);
    var g' := GenSymbol(g, toks[k], k, true);
    var p := g.Here();
    AppendedAt(g.f, g.insert, MoveCode(p, toks[k].amount) + CheckCode(p, |g.f|), [[]]);
    KeepCoded(g, g', |g.f|, pos, toks, jumps, true, k);
    forall u | 0 <= u < |g.loops| ensures Started(g'.f, g.loops[u], pos + [g'.Here()]) {
      KeepStarted(g, g'.f, |g.f|, pos, g'.Here(), u);
    }
    assert Coded(g'.f, toks, jumps, pos + [g'.Here()], true, k);
  }

  lemma {:induction false} OpenLaid(g: Gen, pos: seq<Pos>, toks: seq<Token>, jumps: seq<nat>, mem: nat, checked: bool,
          k: nat)
    requires Laid(g, pos, toks, jumps, checked, k) && Paired(toks, jumps) && k < |toks| && toks[k] == Open
    ensures var g' := GenSymbol(g, toks[k], k, checked);
            g'.Ok() && Laid(g', pos + [g'.Here()], toks, jumps, checked, k + 1)
  {
    GenSymbolOk(g, toks[k], k, checked);
    var g' := GenOpen(g, k);
    var p := g.Here();
    AppendedAt(g.f, g.insert, [Br(|g.f|)], [[Phi(p.next, [Edge(p.head, p.blk)])], []]);
    KeepCoded(g, g', |g.f|, pos, toks, jumps, checked, k);
    forall u | 0 <= u < |g'.loops| ensures Started(g'.f, g'.loops[u], pos + [g'.Here()]) {
      if u < |g.loops| {
        KeepStarted(g, g'.f, |g.f|, pos, g'.Here(), u);
      }
    }
    assert Partners(toks, jumps, k, jumps[k]);
  }

  /** `]` completes the loop of the innermost open `[`. */
  lemma {:induction false} CloseLaid(g: Gen, pos: seq<Pos>, toks: seq<Token>, jumps: seq<nat>, checked: bool, k: nat)
    requires Laid(g, pos, toks, jumps, checked, k) && Paired(toks, jumps) && k < |toks| && toks[k] == Close
    requires g.loops != [] && jumps[k] == g.loops[|g.loops| - 1].open
    ensures var g' := GenSymbol(g, toks[k], k, checked);
            g'.Ok() && Laid(g', pos + [g'.Here()], toks, jumps, checked, k + 1)
  {
    GenSymbolOk(g, toks[k], k, checked);
    var g', pos' := GenClose(g), pos + [GenClose(g).Here()];
    var loop := g.loops[|g.loops| - 1];
    assert Started(g.f, loop, pos);
    ClosedGrows(g);
    KeepCoded(g, g', loop.test, pos, toks, jumps, checked, k);
    OuterStarted(g, pos, toks, jumps, checked, k);
    CloseCoded(g, pos, toks, jumps, checked, k);
    ClosePlaced(g, g', pos, toks, jumps, checked, k);
  }

  /** Positions lie before the new one, and outside of the test blocks of loops that are still open. */
  lemma {:induction false} ClosePlaced(g: Gen, g': Gen, pos: seq<Pos>, toks: seq<Token>, jumps: seq<nat>,
          checked: bool, k: nat)
    requires Laid(g, pos, toks, jumps, checked, k) && g.loops != [] && g' == GenClose(g) && g'.insert < |g'.f|
    ensures var pos' := pos + [g'.Here()];
            && (forall i :: 0 <= i <= k + 1 ==>
                  pos'[i].blk <= g'.insert && pos'[i].next <= g'.next && HEAD <= pos'[i].head < pos'[i].next)
            && forall i, t :: 0 <= i <= k + 1 && 0 <= t < |g'.loops| ==> pos'[i].blk != g'.loops[t].test
  {
    assert forall t :: 0 <= t < |g'.loops| ==> g'.loops[t] == g.loops[t];
  }

  lemma {:induction false} CloseCoded(g: Gen, pos: seq<Pos>, toks: seq<Token>, jumps: seq<nat>, checked: bool, k: nat)
    requires Laid(g, pos, toks, jumps, checked, k) && Paired(toks, jumps) && k < |toks| && toks[k] == Close
    requires g.loops != [] && jumps[k] == g.loops[|g.loops| - 1].open
    ensures var g', open := GenClose(g), jumps[k];
            && g'.insert < |g'.f| && open < k
            && Coded(g'.f, toks, jumps, pos + [g'.Here()], checked, k) &&
                 Coded(g'.f, toks, jumps, pos + [g'.Here()], checked, open)
  {
    var loop := g.loops[|g.loops| - 1];
    assert Started(g.f, loop, pos);
    ClosedLoopCoded(g, pos);
    assert Partners(toks, jumps, loop.open, k);
  }

  lemma {:induction false} OuterStarted(g: Gen, pos: seq<Pos>, toks: seq<Token>, jumps: seq<nat>, checked: bool, k: nat)
    requires Laid(g, pos, toks, jumps, checked, k) && g.loops != []
    ensures var g' := GenClose(g);
            g'.insert < |g'.f| && forall u :: 0 <= u < |g'.loops| ==> Started(g'.f, g'.loops[u], pos + [g'.Here()])
  {
    var g', loop := GenClose(g), g.loops[|g.loops| - 1];
    ClosedGrows(g);
    forall u | 0 <= u < |g'.loops| ensures Started(g'.f, g'.loops[u], pos + [g'.Here()]) {
      assert g'.loops[u] == g.loops[u];
      assert Started(g.f, g.loops[u], pos);
      KeepStarted(g, g'.f, loop.test, pos, g'.Here(), u);
    }
  }

  lemma {:induction false} ClosedGrows(g: Gen)
    requires g.Ok() && g.loops != []
    ensures Grows(g.f, GenClose(g).f, g.loops[|g.loops| - 1].test)
  {
  }

  lemma {:induction false} ClosedLoopCoded(g: Gen, pos: seq<Pos>)
    requires g.Ok() && g.loops != [] && g.insert < |g.f| && HEAD <= g.head < g.next
    requires Started(g.f, g.loops[|g.loops| - 1], pos)
    requires var loop := g.loops[|g.loops| - 1]; loop.phi < g.next
    ensures var loop := g.loops[|g.loops| - 1];
            var g' := GenClose(g);
            LoopCode(g'.f, loop.first, pos[loop.open + 1], g.Here(), g'.Here())
  {
    var loop := g.loops[|g.loops| - 1];
    var g' := GenClose(g);
    ClosedGrows(g);
    AtKept(g.f, g'.f, loop.test, loop.first.blk, loop.first.idx, [Br(loop.test)]);
    assert g'.f[g.insert] == g.f[g.insert] + [Br(loop.test)];
    var e, e' := Edge(loop.first.head, loop.first.blk), Edge(g.head, g.insert);
    assert [e] + [e'] == [e, e'];
    assert AddIncoming(g.f[loop.test], e') == [Phi(loop.phi, [e, e'])];
    assert g'.f[loop.test] == TestCode(loop.first, pos[loop.open + 1], g.Here(), g'.insert);
  }

  lemma {:induction false} LaidStep(g: Gen, pos: seq<Pos>, toks: seq<Token>, jumps: seq<nat>, mem: nat, checked: bool,
          k: nat)
    requires Laid(g, pos, toks, jumps, checked, k) && Paired(toks, jumps) && k < |toks|
    requires toks[k] == Close ==> g.loops != [] && jumps[k] == g.loops[|g.loops| - 1].open
    ensures var g' := GenSymbol(g, toks[k], k, checked);
            g'.Ok() && Laid(g', pos + [g'.Here()], toks, jumps, checked, k + 1)
  {
    if toks[k] == Open {
      OpenLaid(g, pos, toks, jumps, mem, checked, k);
    } else if toks[k] == Close {
      CloseLaid(g, pos, toks, jumps, checked, k);
    } else if checked && toks[k].Move? {
      CheckedLaid(g, pos, toks, jumps, mem, k);
    } else {
      StraightLaid(g, pos, toks, jumps, mem, checked, k);
    }
  }

  lemma {:induction false} GenLaid(toks: seq<Token>, jumps: seq<nat>, mem: nat, checked: bool, k: nat)
    returns (g: Gen, pos: seq<Pos>)
    requires k <= |toks| && Judge(TokenBrackets(toks), 0) == Balanced && jumps == Jumps(TokenBrackets(toks))
    ensures g == GenRun(toks, mem, checked, k) && pos == Positions(toks, mem, checked, k)
    ensures Laid(g, pos, toks, jumps, checked, k)
    decreases k
  {
    g, pos := GenRun(toks, mem, checked, k), Positions(toks, mem, checked, k);
    if k > 0 {
      var g0, pos0 := GenLaid(toks, jumps, mem, checked, k - 1);
      CloseMatches(toks, mem, checked, k - 1, g0);
      BalancedIsPaired(toks);
      LaidNext(g0, pos0, g, pos, toks, jumps, mem, checked, k);
    }
  }

  lemma {:induction false} LaidNext(g0: Gen, pos0: seq<Pos>, g: Gen, pos: seq<Pos>, toks: seq<Token>, jumps: seq<nat>,
          mem: nat, checked: bool, k: nat)
    requires 0 < k <= |toks| && Laid(g0, pos0, toks, jumps, checked, k - 1) && Paired(toks, jumps)
    requires toks[k - 1] == Close ==> g0.loops != [] && jumps[k - 1] == g0.loops[|g0.loops| - 1].open
    requires g == GenSymbol(g0, toks[k - 1], k - 1, checked) && g.Ok() && pos == pos0 + [g.Here()]
    ensures Laid(g, pos, toks, jumps, checked, k)
  {
    LaidStep(g0, pos0, toks, jumps, mem, checked, k - 1);
  }

  /** A closing bracket ends the innermost of the loops that the generator has open. */
  lemma {:induction false} CloseMatches(toks: seq<Token>, mem: nat, checked: bool, k: nat, g: Gen)
    requires k < |toks| && Judge(TokenBrackets(toks), 0) == Balanced && g == GenRun(toks, mem, checked, k)
    ensures toks[k] == Close ==> g.loops != [] && Jumps(TokenBrackets(toks))[k] == g.loops[|g.loops| - 1].open
  {
    if toks[k] == Close {
      NestedHere(toks, mem, checked, k, g);
      InnermostCloses(toks, g.loops, k);
    }
  }

  lemma {:induction false} NestedHere(toks: seq<Token>, mem: nat, checked: bool, k: nat, g: Gen)
    requires k < |toks| && Judge(TokenBrackets(toks), 0) == Balanced && g == GenRun(toks, mem, checked, k)
    ensures Nested(TokenBrackets(toks), g.loops, k) && (toks[k] == Close ==> g.loops != [])
  {
    BalancedHasNoExtra(toks, mem, checked, k);
    GenNested(toks, mem, checked, k);
    NoExtraAt(toks, mem, checked, k);
  }

  lemma {:induction false} InnermostCloses(toks: seq<Token>, loops: seq<Frame>, k: nat)
    requires k < |toks| && toks[k] == Close && Judge(TokenBrackets(toks), 0) == Balanced
    requires Nested(TokenBrackets(toks), loops, k) && loops != []
    ensures Jumps(TokenBrackets(toks))[k] == loops[|loops| - 1].open
  {
    var b := TokenBrackets(toks);
    TokenBracketAt(toks, k);
    NestedClosing(b, loops, k);
    var i := loops[|loops| - 1].open;
    TokenBracketAt(toks, i);
    BalancedIsPaired(toks);
    assert Partners(toks, Jumps(b), i, Jumps(b)[i]);
  }

  /** The finished function: the code of all symbols and the jump to the end. */
  function Finish(g: Gen): Function
    requires g.Ok()
  {
    Append(g.f, g.insert, [Br(END)])
  }

  /** The blocks of the header stay as they are, but for the entry block, which grows. */
  ghost predicate HeaderKept(g: Gen, mem: nat, checked: bool) {
    && |g.f| > END && g.f[END] == [Ret] && g.insert != END
    && EntryCode(mem, checked) <= g.f[ENTRY]
    && (checked ==> |g.f| > ABERROR && g.f[ABERROR] == [PutsError, Br(END)] && g.insert != ABERROR)
    && forall t :: 0 <= t < |g.loops| ==> g.loops[t].test > if checked then ABERROR else END
  }

  lemma {:induction false} HeaderKeptStep(g: Gen, t: Token, i: nat, mem: nat, checked: bool)
    requires g.Ok() && HeaderKept(g, mem, checked)
    ensures HeaderKept(GenSymbol(g, t, i, checked), mem, checked)
  {
  }

  lemma {:induction false} GenKeepsHeader(toks: seq<Token>, mem: nat, checked: bool, k: nat)
    requires k <= |toks|
    ensures HeaderKept(GenRun(toks, mem, checked, k), mem, checked)
    decreases k
  {
    if k > 0 {
      GenKeepsHeader(toks, mem, checked, k - 1);
      HeaderKeptStep(GenRun(toks, mem, checked, k - 1), toks[k - 1], k - 1, mem, checked);
    }
  }

  /** At the end of a balanced program no loop is open. */
  lemma {:induction false} NothingOpen(toks: seq<Token>, mem: nat, checked: bool)
    requires Judge(TokenBrackets(toks), 0) == Balanced
    ensures GenRun(toks, mem, checked, |toks|).loops == []
  {
    BalancedHasNoExtra(toks, mem, checked, |toks|);
    GenNested(toks, mem, checked, |toks|);
    JudgeNow(TokenBrackets(toks), GenRun(toks, mem, checked, |toks|).loops, |toks|);
  }

  lemma {:induction false} FinishIsProgram(g: Gen, pos: seq<Pos>, toks: seq<Token>, jumps: seq<nat>, mem: nat,
          checked: bool)
    requires Laid(g, pos, toks, jumps, checked, |toks|) && Paired(toks, jumps) && HeaderKept(g, mem, checked)
    ensures ProgramCoded(Finish(g), toks, jumps, pos, checked)
    ensures At(Finish(g), ENTRY, 0, EntryCode(mem, checked))
  {
    var f := Finish(g);
    AppendedAt(g.f, g.insert, [Br(END)], []);
    assert f == f + [];
    forall i | 0 <= i < |toks| ensures Coded(f, toks, jumps, pos, checked, i) {
      assert toks[i] == Open ==> Partners(toks, jumps, i, jumps[i]);
      CodedKept(g.f, f, |f|, toks, jumps, pos, g.Here(), checked, i);
    }
    AtKept(g.f, f, |f|, ENTRY, 0, EntryCode(mem, checked));
  }

  lemma {:induction false} PositionsStart(toks: seq<Token>, mem: nat, checked: bool, k: nat, pos: seq<Pos>)
    requires k <= |toks| && pos == Positions(toks, mem, checked, k)
    ensures pos[0] == Header(mem, checked).Here()
    decreases k
  {
    if k > 0 {
      var before := Positions(toks, mem, checked, k - 1);
      PositionsStart(toks, mem, checked, k - 1, before);
      assert pos == before + [pos[k]];
    }
  }

  /** For a balanced program the generator lays out every symbol's code. */
  lemma {:induction false} GenIsProgram(toks: seq<Token>, jumps: seq<nat>, mem: nat, checked: bool)
    returns (pos: seq<Pos>)
    requires Judge(TokenBrackets(toks), 0) == Balanced && jumps == Jumps(TokenBrackets(toks))
    ensures var f := Finish(GenRun(toks, mem, checked, |toks|));
            ProgramCoded(f, toks, jumps, pos, checked) && At(f, ENTRY, 0, EntryCode(mem, checked))
    ensures pos[0] == Pos(ENTRY, |EntryCode(mem, checked)|, HEAD, HEAD + 1)
  {
    var g;
    g, pos := GenLaid(toks, jumps, mem, checked, |toks|);
    BalancedIsPaired(toks);
    GenKeepsHeader(toks, mem, checked, |toks|);
    FinishIsProgram(g, pos, toks, jumps, mem, checked);
    PositionsStart(toks, mem, checked, |toks|, pos);
  }
}
