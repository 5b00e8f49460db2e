/** Well-formed SSA: what LLVM's verifier asks of the blocks, phis and registers of a function. */
module BrainFSsa {
  import opened BrainFCfg

  predicate IsTerminator(i: Instr) {
    i.Br? || i.CondBr? || i.Ret?
  }

  predicate HasDef(i: Instr) {
    !IsTerminator(i) && !i.PutChar? && !i.Store8? && !i.PutsError?
  }

  /** The registers an instruction reads where it stands; a phi reads its values in its predecessors. */
  function Uses(i: Instr): set<Reg> {
    match i
    case Gep(_, p, _) => {p}
    case PutChar(r) => {r}
    case Trunc(_, r) => {r}
    case SExt(_, r) => {r}
    case Load(_, p) => {p}
    case Store8(r, p) => {r, p}
    case AddI8(_, r, _) => {r}
    case CmpUge(_, a, b) => {a, b}
    case CmpUlt(_, a, b) => {a, b}
    case OrI1(_, a, b) => {a, b}
    case CmpEqZero(_, r) => {r}
    case CondBr(c, _, _) => {c}
    case _ => {}
  }

  function Targets(i: Instr): set<BlockId> {
    match i
    case Br(b) => {b}
    case CondBr(_, b, c) => {b, c}
    case _ => {}
  }

  function BlockDefs(b: Block): set<Reg> {
    set i | 0 <= i < |b| && HasDef(b[i]) :: b[i].dst
  }

  function Succs(b: Block): set<BlockId> {
    if b == [] then {} else Targets(b[|b| - 1])
  }

  function Preds(f: Function, c: BlockId): set<BlockId> {
    set b | 0 <= b < |f| && c in Succs(f[b])
  }

  // ---- the verifier's conditions ----

  /** One terminator, at the end; phis only at the start. */
  ghost predicate BlockShape(b: Block) {
    && b != [] && IsTerminator(b[|b| - 1])
    && (forall i :: 0 <= i < |b| - 1 ==> !IsTerminator(b[i]))
    && (forall i :: 0 < i < |b| && b[i].Phi? ==> b[i - 1].Phi?)
  }

  /** Exactly one entry per predecessor. */
  ghost predicate PhiMatches(edges: seq<Edge>, preds: set<BlockId>) {
    && (forall i :: 0 <= i < |edges| ==> edges[i].from in preds)
    && (forall i, j :: 0 <= i < j < |edges| ==> edges[i].from != edges[j].from)
    && (forall p :: p in preds ==> exists i :: 0 <= i < |edges| && edges[i].from == p)
  }

  /** A way through the function that starts at its entry. */
  ghost predicate IsPath(f: Function, path: seq<BlockId>) {
    && path != [] && path[0] == 0 && (forall k :: 0 <= k < |path| ==> path[k] < |f|)
    && (forall k :: 0 <= k < |path| - 1 ==> path[k + 1] in Succs(f[path[k]]))
  }

  ghost predicate DefinedOn(f: Function, path: seq<BlockId>, r: Reg)
    requires forall k :: 0 <= k < |path| ==> path[k] < |f|
  {
    exists k :: 0 <= k < |path| && r in BlockDefs(f[path[k]])
  }

  /** Every way to the use of `r` at instruction `i` of block `b` defines `r` first. */
  ghost predicate Dominated(f: Function, b: BlockId, i: nat, r: Reg)
    requires b < |f| && i <= |f[b]|
  {
    r in BlockDefs(f[b][..i])
    || forall path :: IsPath(f, path) && path[|path| - 1] == b ==> DefinedOn(f, path[..|path| - 1], r)
  }

  ghost predicate DefineSame(i: Instr, j: Instr) {
    HasDef(i) && HasDef(j) && i.dst == j.dst
  }

  ghost predicate WellFormed(f: Function) {
    && (forall b :: 0 <= b < |f| ==> BlockShape(f[b]))
    && (forall b, c :: 0 <= b < |f| && c in Succs(f[b]) ==> 0 < c < |f|)
    && (forall b, i :: 0 <= b < |f| && 0 <= i < |f[b]| && f[b][i].Phi? ==> PhiMatches(f[b][i].incoming, Preds(f, b)))
    && (forall b, i, c, j ::
          0 <= b < |f| && 0 <= i < |f[b]| && 0 <= c < |f| && 0 <= j < |f[c]| && DefineSame(f[b][i], f[c][j])
          ==> b == c && i == j)
    && (forall b, i, r :: 0 <= b < |f| && 0 <= i < |f[b]| && r in Uses(f[b][i]) ==> Dominated(f, b, i, r))
    && (forall b, i, e :: 0 <= b < |f| && 0 <= i < |f[b]| && f[b][i].Phi? && e in f[b][i].incoming ==>
                            e.from < |f| && Dominated(f, e.from, |f[e.from]|, e.value))
  }

  // ---- a certificate that can be kept while the function is being built ----

  /** `avail[b]` holds on entry to `b`, `site` says where each register is defined. */
  datatype Cert = Cert(avail: seq<set<Reg>>, site: map<Reg, (BlockId, nat)>, next: Reg)

  ghost predicate EdgeOk(f: Function, z: Cert, b: BlockId, c: BlockId)
    requires |z.avail| == |f| && b < |f|
  {
    0 < c < |f| && z.avail[c] <= z.avail[b] + BlockDefs(f[b])
  }

  ghost predicate EntryOk(f: Function, z: Cert, e: Edge)
    requires |z.avail| == |f|
  {
    e.from < |f| && e.value in z.avail[e.from] + BlockDefs(f[e.from])
  }

  ghost predicate LineOk(f: Function, z: Cert, b: BlockId, i: nat)
    requires |z.avail| == |f| && b < |f| && i < |f[b]|
  {
    var x := f[b][i];
    && (HasDef(x) ==> x.dst in z.site && z.site[x.dst] == (b, i))
    && Uses(x) <= z.avail[b] + BlockDefs(f[b][..i])
    && (IsTerminator(x) ==> i == |f[b]| - 1)
    && (x.Phi? ==> i == 0 && forall e :: e in x.incoming ==> EntryOk(f, z, e))
    && forall c :: c in Targets(x) ==> EdgeOk(f, z, b, c)
  }

  ghost predicate StartsWithPhi(b: Block) {
    b != [] && b[0].Phi?
  }

  /** The blocks in `open` have no terminator yet, all others are finished. */
  ghost predicate Sound(f: Function, z: Cert, open: set<BlockId>) {
    && |z.avail| == |f| > 0 && z.avail[0] == {}
    && (forall b, i :: 0 <= b < |f| && 0 <= i < |f[b]| ==> LineOk(f, z, b, i))
    && (forall b :: 0 <= b < |f| ==> (b in open <==> f[b] == [] || !IsTerminator(f[b][|f[b]| - 1])))
    && (forall c :: 0 <= c < |f| && StartsWithPhi(f[c]) ==> PhiMatches(f[c][0].incoming, Preds(f, c)))
    && (forall r :: r in z.site ==> r < z.next)
  }

  // ---- the certificate implies well-formedness ----

  lemma {:induction false} AvailableOnPath(f: Function, z: Cert, open: set<BlockId>, path: seq<BlockId>, r: Reg)
    requires Sound(f, z, open) && IsPath(f, path) && r in z.avail[path[|path| - 1]]
    ensures DefinedOn(f, path[..|path| - 1], r)
    decreases |path|
  {
    var n := |path| - 1;
    if n > 0 {
      var b, before := path[n - 1], path[..n];
      assert path[n] in Succs(f[b]);
      assert LineOk(f, z, b, |f[b]| - 1);
      if r in z.avail[b] {
        AvailableOnPath(f, z, open, before, r);
        var k :| 0 <= k < n - 1 && r in BlockDefs(f[before[..n - 1][k]]);
        assert path[..n][k] == before[..n - 1][k];
      } else {
        assert path[..n][n - 1] == b;
      }
    }
  }

  lemma {:induction false} AvailableIsDominated(f: Function, z: Cert, open: set<BlockId>, b: BlockId, i: nat, r: Reg)
    requires Sound(f, z, open) && b < |f| && i <= |f[b]| && r in z.avail[b] + BlockDefs(f[b][..i])
    ensures Dominated(f, b, i, r)
  {
    if r !in BlockDefs(f[b][..i]) {
      forall path | IsPath(f, path) && path[|path| - 1] == b
        ensures DefinedOn(f, path[..|path| - 1], r)
      {
        AvailableOnPath(f, z, open, path, r);
      }
    }
  }

  lemma {:induction false} UsesDominated(f: Function, z: Cert, open: set<BlockId>, b: BlockId, i: nat)
    requires Sound(f, z, open) && b < |f| && i < |f[b]|
    ensures forall r :: r in Uses(f[b][i]) ==> Dominated(f, b, i, r)
    ensures f[b][i].Phi? ==> forall e :: e in f[b][i].incoming ==>
                               e.from < |f| && Dominated(f, e.from, |f[e.from]|, e.value)
  {
    assert LineOk(f, z, b, i);
    forall r | r in Uses(f[b][i]) ensures Dominated(f, b, i, r) {
      AvailableIsDominated(f, z, open, b, i, r);
    }
    if f[b][i].Phi? {
      forall e | e in f[b][i].incoming ensures e.from < |f| && Dominated(f, e.from, |f[e.from]|, e.value) {
        assert EntryOk(f, z, e);
        assert f[e.from][..|f[e.from]|] == f[e.from];
        AvailableIsDominated(f, z, open, e.from, |f[e.from]|, e.value);
      }
    }
  }

  lemma {:induction false} SoundShape(f: Function, z: Cert, b: BlockId)
    requires Sound(f, z, {}) && b < |f|
    ensures BlockShape(f[b])
    ensures forall c :: c in Succs(f[b]) ==> 0 < c < |f|
    ensures forall i :: 0 <= i < |f[b]| && f[b][i].Phi? ==> PhiMatches(f[b][i].incoming, Preds(f, b))
  {
    forall i | 0 <= i < |f[b]|
      ensures (IsTerminator(f[b][i]) ==> i == |f[b]| - 1) && (f[b][i].Phi? ==> i == 0)
    {
      assert LineOk(f, z, b, i);
    }
    assert LineOk(f, z, b, |f[b]| - 1);
    forall c | c in Succs(f[b]) ensures 0 < c < |f| {
      assert EdgeOk(f, z, b, c);
    }
  }

  /** A finished function with a certificate is well formed. */
  lemma {:induction false} SoundIsWellFormed(f: Function, z: Cert)
    requires Sound(f, z, {})
    ensures WellFormed(f)
  {
    forall b | 0 <= b < |f|
      ensures BlockShape(f[b]) && (forall c :: c in Succs(f[b]) ==> 0 < c < |f|)
      ensures forall i :: 0 <= i < |f[b]| && f[b][i].Phi? ==> PhiMatches(f[b][i].incoming, Preds(f, b))
    {
      SoundShape(f, z, b);
    }
    forall b, i | 0 <= b < |f| && 0 <= i < |f[b]|
      ensures forall r :: r in Uses(f[b][i]) ==> Dominated(f, b, i, r)
      ensures f[b][i].Phi? ==> forall e :: e in f[b][i].incoming ==>
                                 e.from < |f| && Dominated(f, e.from, |f[e.from]|, e.value)
    {
      UsesDominated(f, z, {}, b, i);
    }
    forall b, i, c, j | 0 <= b < |f| && 0 <= i < |f[b]| && 0 <= c < |f| && 0 <= j < |f[c]|
                        && DefineSame(f[b][i], f[c][j])
      ensures b == c && i == j
    {
      assert LineOk(f, z, b, i) && LineOk(f, z, c, j);
    }
  }

  // ---- building a function keeps the certificate ----

  lemma {:induction false} DefsOfAppend(b: Block, x: Instr)
    ensures BlockDefs(b + [x]) == BlockDefs(b) + if HasDef(x) then {x.dst} else {}
  {
    var b' := b + [x];
    forall r | r in BlockDefs(b) ensures r in BlockDefs(b') {
      var i :| 0 <= i < |b| && HasDef(b[i]) && b[i].dst == r;
      assert b'[i] == b[i];
    }
    if HasDef(x) {
      assert b'[|b|] == x;
    }
  }

  /** Nothing that old lines rely on goes away. */
  ghost predicate Extends(f: Function, z: Cert, f': Function, z': Cert) {
    && |f| <= |f'| && |z.avail| == |f| && |z'.avail| == |f'|
    && (forall b :: 0 <= b < |f| ==> z'.avail[b] == z.avail[b] && BlockDefs(f[b]) <= BlockDefs(f'[b]))
    && (forall r :: r in z.site ==> r in z'.site && z'.site[r] == z.site[r])
  }

  lemma {:induction false} LineKept(f: Function, z: Cert, f': Function, z': Cert, b: BlockId, i: nat)
    requires Extends(f, z, f', z') && b < |f| && i < |f[b]| && LineOk(f, z, b, i)
    requires |f[b]| <= |f'[b]| && f'[b][i] == f[b][i] && BlockDefs(f[b][..i]) <= BlockDefs(f'[b][..i])
    requires IsTerminator(f[b][i]) ==> |f'[b]| == |f[b]|
    ensures LineOk(f', z', b, i)
  {
    var x := f[b][i];
    if x.Phi? {
      forall e | e in x.incoming ensures EntryOk(f', z', e) {
        assert EntryOk(f, z, e);
      }
    }
    forall c | c in Targets(x) ensures EdgeOk(f', z', b, c) {
      assert EdgeOk(f, z, b, c);
    }
  }

  function Defining(z: Cert, b: BlockId, i: nat, x: Instr): Cert {
    if HasDef(x) then z.(site := z.site[x.dst := (b, i)], next := x.dst + 1) else z
  }

  /** The lines of `f` are still fine after a push, and so is the new one. */
  lemma {:induction false} AppendLines(f: Function, z: Cert, open: set<BlockId>, b: BlockId, x: Instr)
    requires Sound(f, z, open) && b < |f| && b in open
    requires HasDef(x) ==> x.dst >= z.next
    requires LineOk(Append(f, b, [x]), Defining(z, b, |f[b]|, x), b, |f[b]|)
    ensures var f', z' := Append(f, b, [x]), Defining(z, b, |f[b]|, x);
            && Extends(f, z, f', z')
            && forall c, i :: 0 <= c < |f'| && 0 <= i < |f'[c]| ==> LineOk(f', z', c, i)
  {
    var f', z' := Append(f, b, [x]), Defining(z, b, |f[b]|, x);
    DefsOfAppend(f[b], x);
    assert Extends(f, z, f', z');
    forall c, i | 0 <= c < |f'| && 0 <= i < |f'[c]| ensures LineOk(f', z', c, i) {
      if c != b || i < |f[b]| {
        assert LineOk(f, z, c, i);
        assert f'[c][..i] == f[c][..i];
        LineKept(f, z, f', z', c, i);
      }
    }
  }

  lemma {:induction false} SuccsOfAppend(f: Function, b: BlockId, x: Instr, c: BlockId)
    requires b < |f| && (f[b] == [] || !IsTerminator(f[b][|f[b]| - 1]))
    ensures Preds(Append(f, b, [x]), c) == Preds(f, c) + if c in Targets(x) then {b} else {}
  {
    var f' := Append(f, b, [x]);
    assert Succs(f[b]) == {} && Succs(f'[b]) == Targets(x);
    forall p | 0 <= p < |f| ensures p in Preds(f', c) <==> p in Preds(f, c) || (p == b && c in Targets(x)) {
      if p != b {
        assert f'[p] == f[p];
      }
    }
  }

  lemma {:induction false} AppendPlain(f: Function, z: Cert, open: set<BlockId>, b: BlockId, x: Instr)
    requires Sound(f, z, open) && b < |f| && b in open
    requires !IsTerminator(x) && !x.Phi? && Uses(x) <= z.avail[b] + BlockDefs(f[b])
    requires HasDef(x) ==> x.dst >= z.next
    ensures Sound(Append(f, b, [x]), Defining(z, b, |f[b]|, x), open)
  {
    var f' := Append(f, b, [x]);
    assert f'[b][..|f[b]|] == f[b];
    AppendLines(f, z, open, b, x);
    forall c | 0 <= c < |f'| && StartsWithPhi(f'[c]) ensures PhiMatches(f'[c][0].incoming, Preds(f', c)) {
      SuccsOfAppend(f, b, x, c);
      assert f'[c][0] == f[c][0];
    }
  }

  /** Ends block `b`; none of the targets has a phi yet. */
  lemma {:induction false} AppendTerminator(f: Function, z: Cert, open: set<BlockId>, b: BlockId, x: Instr)
    requires Sound(f, z, open) && b < |f| && b in open
    requires IsTerminator(x) && Uses(x) <= z.avail[b] + BlockDefs(f[b])
    requires forall c :: c in Targets(x) ==> EdgeOk(f, z, b, c) && !StartsWithPhi(f[c]) && c != b
    ensures Sound(Append(f, b, [x]), z, open - {b})
  {
    var f' := Append(f, b, [x]);
    assert f'[b][..|f[b]|] == f[b];
    DefsOfAppend(f[b], x);
    forall c | c in Targets(x) ensures EdgeOk(f', z, b, c) {
      assert EdgeOk(f, z, b, c);
    }
    AppendLines(f, z, open, b, x);
    forall c | 0 <= c < |f'| && StartsWithPhi(f'[c]) ensures PhiMatches(f'[c][0].incoming, Preds(f', c)) {
      SuccsOfAppend(f, b, x, c);
      assert f'[c][0] == f[c][0];
    }
  }

  /** Starts an empty block with a phi for its predecessors. */
  lemma {:induction false} AppendPhi(f: Function, z: Cert, open: set<BlockId>, b: BlockId, x: Instr)
    requires Sound(f, z, open) && b < |f| && f[b] == [] && x.Phi? && x.dst >= z.next
    requires PhiMatches(x.incoming, Preds(f, b))
    requires forall e :: e in x.incoming ==> EntryOk(f, z, e)
    ensures Sound(Append(f, b, [x]), Defining(z, b, 0, x), open)
  {
    var f' := Append(f, b, [x]);
    DefsOfAppend(f[b], x);
    assert forall c :: 0 <= c < |f| ==> BlockDefs(f[c]) <= BlockDefs(f'[c]);
    forall e | e in x.incoming ensures EntryOk(f', Defining(z, b, 0, x), e) {
      assert EntryOk(f, z, e);
    }
    AppendLines(f, z, open, b, x);
    forall c | 0 <= c < |f'| && StartsWithPhi(f'[c]) ensures PhiMatches(f'[c][0].incoming, Preds(f', c)) {
      SuccsOfAppend(f, b, x, c);
      if c != b {
        assert f'[c] == f[c];
      }
    }
  }

  /** A new, empty block on entry to which the registers `live` are available. */
  lemma {:induction false} NewBlock(f: Function, z: Cert, open: set<BlockId>, live: set<Reg>)
    requires Sound(f, z, open)
    ensures Sound(f + [[]], z.(avail := z.avail + [live]), open + {|f|})
    ensures Preds(f + [[]], |f|) == {}
  {
    var f': Function := f + [[]];
    var z' := z.(avail := z.avail + [live]);
    assert Extends(f, z, f', z');
    forall c, i | 0 <= c < |f'| && 0 <= i < |f'[c]| ensures LineOk(f', z', c, i) {
      assert LineOk(f, z, c, i);
      LineKept(f, z, f', z', c, i);
    }
    forall c | 0 <= c <= |f| ensures Preds(f', c) == if c < |f| then Preds(f, c) else {} {
      forall p | 0 <= p < |f'| && c in Succs(f'[p]) ensures p < |f| && c < |f| {
        assert LineOk(f, z, p, |f[p]| - 1);
        assert EdgeOk(f, z, p, c);
      }
      forall p | p in Preds(f, c) ensures p in Preds(f', c) {
        assert f'[p] == f[p];
      }
    }
  }

  lemma {:induction false} PhiDefs(r: Reg, edges: seq<Edge>)
    ensures BlockDefs([Phi(r, edges)]) == {r}
  {
    DefsOfAppend([], Phi(r, edges));
    assert [] + [Phi(r, edges)] == [Phi(r, edges)];
  }

  /** A phi may be given other entries as long as they are fine. */
  lemma {:induction false} RephiLines(f: Function, z: Cert, t: BlockId, r: Reg, edges: seq<Edge>, edges': seq<Edge>)
    requires |z.avail| == |f| && t < |f| && f[t] == [Phi(r, edges)]
    requires forall c, i :: 0 <= c < |f| && 0 <= i < |f[c]| ==> LineOk(f, z, c, i)
    requires forall e :: e in edges' ==> EntryOk(f, z, e)
    ensures var f': Function := f[t := [Phi(r, edges')]];
            forall c, i :: 0 <= c < |f'| && 0 <= i < |f'[c]| ==> LineOk(f', z, c, i)
  {
    var f': Function := f[t := [Phi(r, edges')]];
    PhiDefs(r, edges);
    PhiDefs(r, edges');
    assert Extends(f, z, f', z);
    forall c, i | 0 <= c < |f'| && 0 <= i < |f'[c]| ensures LineOk(f', z, c, i) {
      if c == t {
        assert LineOk(f, z, t, 0);
        forall e | e in edges' ensures EntryOk(f', z, e) {
          assert EntryOk(f, z, e);
        }
      } else {
        assert LineOk(f, z, c, i);
        LineKept(f, z, f', z, c, i);
      }
    }
  }

  lemma {:induction false} AppendBackLines(f: Function, z: Cert, open: set<BlockId>, b: BlockId, t: BlockId, e: Edge,
          e': Edge, r: Reg)
    requires Sound(f, z, open) && b < |f| && b in open && 0 < t < |f| && b != t
    requires f[t] == [Phi(r, [e])] && EdgeOk(f, z, b, t) && EntryOk(f, z, e')
    ensures var f': Function := Append(f, b, [Br(t)])[t := [Phi(r, [e, e'])]];
            forall c, i :: 0 <= c < |f'| && 0 <= i < |f'[c]| ==> LineOk(f', z, c, i)
  {
    var f1 := Append(f, b, [Br(t)]);
    DefsOfAppend(f[b], Br(t));
    AppendLines(f, z, open, b, Br(t));
    assert LineOk(f, z, t, 0) && e in [e];
    forall e'' | e'' in [e, e'] ensures EntryOk(f1, z, e'') {
      assert EntryOk(f, z, e'');
    }
    RephiLines(f1, z, t, r, [e], [e, e']);
  }

  /** Jumps back to a test block and adds the jump to its phi. */
  lemma {:induction false} AppendBack(f: Function, z: Cert, open: set<BlockId>, b: BlockId, t: BlockId, e: Edge,
          e': Edge, r: Reg)
    requires Sound(f, z, open) && b < |f| && b in open && 0 < t < |f| && b != t
    requires f[t] == [Phi(r, [e])] && e'.from == b && b !in Preds(f, t)
    requires EdgeOk(f, z, b, t) && EntryOk(f, z, e')
    ensures Sound(Append(f, b, [Br(t)])[t := [Phi(r, [e, e'])]], z, open - {b})
  {
    var f': Function := Append(f, b, [Br(t)])[t := [Phi(r, [e, e'])]];
    AppendBackLines(f, z, open, b, t, e, e', r);
    forall c | 0 <= c < |f'| && StartsWithPhi(f'[c]) ensures PhiMatches(f'[c][0].incoming, Preds(f', c)) {
      AppendBackPreds(f, b, t, e, e', r, c);
      if c == t {
        assert StartsWithPhi(f[t]);
        TwoEntries(e, e', Preds(f, t));
      } else {
        assert f'[c][0] == f[c][0];
      }
    }
  }

  lemma {:induction false} TwoEntries(e: Edge, e': Edge, preds: set<BlockId>)
    requires PhiMatches([e], preds) && e'.from !in preds
    ensures PhiMatches([e, e'], preds + {e'.from})
  {
    var es := [e, e'];
    assert [e][0] == e && es[0] == e && es[1] == e';
    forall p | p in preds + {e'.from} ensures exists i :: 0 <= i < |es| && es[i].from == p {
      if p in preds {
        assert es[0].from == p;
      } else {
        assert es[1].from == p;
      }
    }
  }

  lemma {:induction false} AppendBackPreds(f: Function, b: BlockId, t: BlockId, e: Edge, e': Edge, r: Reg, c: BlockId)
    requires b < |f| && t < |f| && b != t && f[t] == [Phi(r, [e])]
    requires f[b] == [] || !IsTerminator(f[b][|f[b]| - 1])
    ensures Preds(Append(f, b, [Br(t)])[t := [Phi(r, [e, e'])]], c) == Preds(f, c) + if c == t then {b} else {}
  {
    var f1 := Append(f, b, [Br(t)]);
    var f': Function := f1[t := [Phi(r, [e, e'])]];
    SuccsOfAppend(f, b, Br(t), c);
    assert f1[t] == f[t] && Succs(f1[t]) == {} && Succs(f'[t]) == {};
    forall p | 0 <= p < |f| ensures p in Preds(f', c) <==> p in Preds(f1, c) {
      if p != t {
        assert f'[p] == f1[p];
      }
    }
  }
}
