/** The generator of the case folding function: a sorted map becomes an ordered list of decisions. */
module CaseFold {
  import opened Options

  datatype Mapping = Mapping(from: int, to: int)

  function Shift(m: Mapping): int {
    m.to - m.from
  }

  function Stride2(m: Mapping, n: Mapping): int {
    n.from - m.from
  }

  function Stride(b: seq<Mapping>): int
    requires |b| >= 2
  {
    Stride2(b[0], b[1])
  }

  predicate Increasing(ms: seq<Mapping>) {
    forall i, j :: 0 <= i < j < |ms| ==> ms[i].from < ms[j].from
  }

  /** No negative characters. */
  predicate Characters(ms: seq<Mapping>) {
    forall i :: 0 <= i < |ms| ==> ms[i].from >= 0
  }

  predicate IsKey(ms: seq<Mapping>, c: int) {
    exists i :: 0 <= i < |ms| && ms[i].from == c
  }

  /** The function that the mappings stand for. */
  ghost predicate Folds(ms: seq<Mapping>, c: int, r: int) {
    if IsKey(ms, c) then exists i :: 0 <= i < |ms| && ms[i] == Mapping(c, r) else r == c
  }

  // ---- the generated code ----

  /** `if (C == c) return v`, `if (C < c) return C`, `if (C <= last) return C | 1`, `if (C <= last) return C + d`,
      and `if (C <= last && C % m == r) return C + d`. */
  datatype Rule = Equal(c: int, v: int) | Below(c: int) | OrOne(last: int) | Add(last: int, d: int)
                | AddModulo(last: int, m: int, r: int, d: int)

  /** The remainder of C++, which has the sign of the dividend. */
  function Remainder(c: int, m: int): int
    requires m > 0
  {
    if c >= 0 then c % m else -((-c) % m)
  }

  predicate RuleOk(rule: Rule) {
    rule.AddModulo? ==> rule.m > 0
  }

  function Decide(rule: Rule, c: int): Option<int>
    requires RuleOk(rule)
  {
    match rule
    case Equal(x, v) => if c == x then Some(v) else None
    case Below(x) => if c < x then Some(c) else None
    case OrOne(last) => if c <= last then Some(if c % 2 == 0 then c + 1 else c) else None
    case Add(last, d) => if c <= last then Some(c + d) else None
    case AddModulo(last, m, r, d) => if c <= last && Remainder(c, m) == r then Some(c + d) else None
  }

  predicate RulesOk(rules: seq<Rule>) {
    forall rule :: rule in rules ==> RuleOk(rule)
  }

  /** What the rules return for a character, if they do. */
  function Outcome(rules: seq<Rule>, c: int): Option<int>
    requires RulesOk(rules)
  {
    if rules == [] then None
    else if Decide(rules[0], c).Some? then Decide(rules[0], c)
    else Outcome(rules[1..], c)
  }

  /** The generated function. */
  function Eval(rules: seq<Rule>, c: int): int
    requires RulesOk(rules)
  {
    match Outcome(rules, c)
    case Some(v) => v
    case None => c
  }

  lemma {:induction false} OutcomeConcat(a: seq<Rule>, b: seq<Rule>, c: int)
    requires RulesOk(a) && RulesOk(b)
    ensures RulesOk(a + b)
    ensures Outcome(a + b, c) == if Outcome(a, c).Some? then Outcome(a, c) else Outcome(b, c)
  {
    assert RulesOk(a + b);
    if a == [] {
      assert a + b == b;
    } else {
      assert (a + b)[1..] == a[1..] + b;
      OutcomeConcat(a[1..], b, c);
    }
  }

  // ---- blocks ----

  /** All shifts are the same, and so are all strides. */
  predicate Uniform(b: seq<Mapping>) {
    && b != [] && (forall i :: 0 <= i < |b| ==> Shift(b[i]) == Shift(b[0]))
    && forall i :: 0 < i < |b| ==> Stride2(b[i - 1], b[i]) == Stride2(b[0], b[1])
  }

  function BlockRules(b: seq<Mapping>): seq<Rule>
    requires Uniform(b) && Increasing(b)
  {
    if |b| == 1 then [Equal(b[0].from, b[0].to)] else
      var first := b[0].from;
      var last := first + Stride(b) * (|b| - 1);
      var modulo := first % Stride(b);
      [Below(first),
       if Stride(b) == 2 && Shift(b[0]) == 1 && modulo == 0 then OrOne(last)
       else if Stride(b) == 1 then Add(last, Shift(b[0]))
       else AddModulo(last, Stride(b), modulo, Shift(b[0]))]
  }

  lemma {:induction false} UniformAt(b: seq<Mapping>, i: nat)
    requires Uniform(b) && |b| >= 2 && i < |b|
    ensures b[i].from == b[0].from + Stride(b) * i
  {
    if i > 0 {
      UniformAt(b, i - 1);
      assert Stride2(b[i - 1], b[i]) == Stride(b);
      assert Stride(b) * i == Stride(b) * (i - 1) + Stride(b);
    }
  }

  lemma {:induction false} TimesKeepsOrder(m: int, a: int, b: int)
    requires m > 0
    ensures a < b <==> m * a < m * b
  {
    assert m * b - m * a == m * (b - a);
  }

  lemma {:induction false} ModuloSteps(c: int, first: int, m: int) returns (i: int)
    requires m > 0 && first <= c && c % m == first % m
    ensures i >= 0 && c == first + m * i
  {
    i := c / m - first / m;
    assert c == m * (c / m) + c % m && first == m * (first / m) + first % m;
    assert m * i == m * (c / m) - m * (first / m);
    assert m * i >= 0;
    TimesKeepsOrder(m, i, 0);
  }

  lemma {:induction false} ModuloOfStep(first: int, m: int, i: nat)
    requires m > 0
    ensures (first + m * i) % m == first % m
    decreases i
  {
    if i > 0 {
      ModuloOfStep(first, m, i - 1);
      assert first + m * i == first + m * (i - 1) + m;
      assert (first + m * (i - 1) + m) % m == (first + m * (i - 1)) % m by {
        AddModulus(first + m * (i - 1), m);
      }
    }
  }

  lemma {:induction false} AddModulus(x: int, m: int)
    requires m > 0
    ensures (x + m) % m == x % m
  {
    var q := x / m;
    assert x + m == m * (q + 1) + x % m;
    DivModUnique(x + m, m, q + 1, x % m);
  }

  lemma {:induction false} DivModUnique(x: int, m: int, q: int, r: int)
    requires m > 0 && 0 <= r < m && x == m * q + r
    ensures x % m == r
  {
    var d := x / m - q;
    assert m * d == r - x % m by {
      assert x == m * (x / m) + x % m;
      assert m * (x / m) - m * q == m * d;
    }
    TimesKeepsOrder(m, d, 1);
    TimesKeepsOrder(m, -1, d);
  }

  /** The keys of a block are the characters in its range with the right remainder. */
  lemma {:induction false} BlockKeys(b: seq<Mapping>, c: int)
    requires Uniform(b) && Increasing(b) && |b| >= 2 && c >= b[0].from
    ensures Stride(b) > 0 && b[|b| - 1].from == b[0].from + Stride(b) * (|b| - 1)
    ensures IsKey(b, c) <==> c <= b[|b| - 1].from && c % Stride(b) == b[0].from % Stride(b)
  {
    var first, m := b[0].from, Stride(b);
    UniformAt(b, |b| - 1);
    if IsKey(b, c) {
      var i :| 0 <= i < |b| && b[i].from == c;
      UniformAt(b, i);
      ModuloOfStep(first, m, i);
      assert i < |b| - 1 ==> b[i].from < b[|b| - 1].from;
    }
    if c <= b[|b| - 1].from && c % m == first % m {
      var i := ModuloSteps(c, first, m);
      TimesKeepsOrder(m, |b| - 1, i);
      UniformAt(b, i);
    }
  }

  /** What the rules of a block return is right, and they return something for every key of it.
      They may return something for any character that is not above the block. */
  lemma {:induction false} BlockOutcome(b: seq<Mapping>, c: int)
    requires Uniform(b) && Increasing(b) && Characters(b)
    ensures RulesOk(BlockRules(b))
    ensures match Outcome(BlockRules(b), c)
            case Some(v) => Folds(b, c, v) && c <= b[|b| - 1].from
            case None => !IsKey(b, c)
  {
    var rules := BlockRules(b);
    if |b| == 1 {
      assert RulesOk(rules) && rules[1..] == [];
      assert IsKey(b, c) <==> c == b[0].from;
      assert c == b[0].from ==> b[0] == Mapping(c, b[0].to);
    } else {
      BlockKeys(b, b[0].from);
      assert RulesOk(rules) && rules[1..][1..] == [];
      if c < b[0].from {
        assert !IsKey(b, c);
      } else {
        BlockKeys(b, c);
        KeyShift(b, c);
        assert RulesOk(rules[1..]) && rules[1..][0] == rules[1];
        assert Outcome(rules[1..], c) == Decide(rules[1], c);
        assert Outcome(rules, c) == Decide(rules[1], c);
      }
    }
  }

  lemma {:induction false} KeyShift(b: seq<Mapping>, c: int)
    requires Uniform(b)
    ensures IsKey(b, c) ==> Folds(b, c, c + Shift(b[0]))
  {
    if IsKey(b, c) {
      var i :| 0 <= i < |b| && b[i].from == c;
      assert b[i] == Mapping(c, c + Shift(b[0]));
    }
  }

  // ---- a list of rules for the first mappings ----

  /** The rules are right about everything up to the last mapping, and pass everything else on. */
  ghost predicate Right(rules: seq<Rule>, ms: seq<Mapping>, c: int)
    requires RulesOk(rules)
  {
    match Outcome(rules, c)
    case Some(v) => ms != [] && Folds(ms, c, v) && c <= ms[|ms| - 1].from
    case None => !IsKey(ms, c)
  }

  lemma {:induction false} RightConcat(rules: seq<Rule>, ms: seq<Mapping>, b: seq<Mapping>, c: int)
    requires RulesOk(rules) && Right(rules, ms, c)
    requires Uniform(b) && Increasing(ms + b) && Characters(ms + b) && Increasing(b)
    ensures RulesOk(rules + BlockRules(b)) && Right(rules + BlockRules(b), ms + b, c)
  {
    assert Characters(b) by {
      assert forall i :: 0 <= i < |b| ==> b[i] == (ms + b)[|ms| + i];
    }
    BlockOutcome(b, c);
    OutcomeConcat(rules, BlockRules(b), c);
    KeyOfConcat(ms, b, c);
    if Outcome(rules, c).Some? {
      FoldsPrefix(ms, b, c, Outcome(rules, c).value);
      assert ms[|ms| - 1] == (ms + b)[|ms| - 1];
    } else if Outcome(BlockRules(b), c).Some? {
      FoldsSuffix(ms, b, c, Outcome(BlockRules(b), c).value);
    }
  }

  lemma {:induction false} KeyOfConcat(ms: seq<Mapping>, b: seq<Mapping>, c: int)
    ensures IsKey(ms + b, c) <==> IsKey(ms, c) || IsKey(b, c)
  {
    assert forall i :: 0 <= i < |ms| ==> (ms + b)[i] == ms[i];
    assert forall i :: 0 <= i < |b| ==> (ms + b)[|ms| + i] == b[i];
  }

  lemma {:induction false} FoldsPrefix(ms: seq<Mapping>, b: seq<Mapping>, c: int, v: int)
    requires Increasing(ms + b) && ms != [] && Folds(ms, c, v) && c <= ms[|ms| - 1].from
    ensures Folds(ms + b, c, v)
  {
    KeyOfConcat(ms, b, c);
    if IsKey(ms, c) {
      var i :| 0 <= i < |ms| && ms[i] == Mapping(c, v);
      assert (ms + b)[i] == Mapping(c, v);
    }
    forall i | 0 <= i < |b| ensures b[i].from != c {
      assert (ms + b)[|ms| - 1].from < (ms + b)[|ms| + i].from;
    }
  }

  lemma {:induction false} FoldsSuffix(ms: seq<Mapping>, b: seq<Mapping>, c: int, v: int)
    requires !IsKey(ms, c) && Folds(b, c, v)
    ensures Folds(ms + b, c, v)
  {
    KeyOfConcat(ms, b, c);
    if IsKey(b, c) {
      var i :| 0 <= i < |b| && b[i] == Mapping(c, v);
      assert (ms + b)[|ms| + i] == Mapping(c, v);
    }
  }

  // ---- the generator ----

  function Concat(blocks: seq<seq<Mapping>>): seq<Mapping> {
    if blocks == [] then [] else Concat(blocks[..|blocks| - 1]) + blocks[|blocks| - 1]
  }

  /** Cut into uniform blocks, each as long as possible. */
  ghost predicate Grouped(blocks: seq<seq<Mapping>>) {
    && (forall i :: 0 <= i < |blocks| ==> Uniform(blocks[i]))
    && forall i :: 0 < i < |blocks| ==> !Uniform(blocks[i - 1] + [blocks[i][0]])
  }

  ghost predicate AllRight(rules: seq<Rule>, ms: seq<Mapping>) {
    RulesOk(rules) && forall c :: Right(rules, ms, c)
  }

  /** Rejects duplicate and unsorted characters, and negative ones. */
  method Mappings(entries: seq<Mapping>) returns (ok: bool)
    ensures ok <==> Increasing(entries) && Characters(entries)
  {
    var previous, n := -1, 0;
    while n < |entries|
      invariant n <= |entries| && Increasing(entries[..n]) && Characters(entries[..n])
      invariant previous == if n == 0 then -1 else entries[n - 1].from
    {
      if entries[n].from <= previous {
        return false;
      }
      assert n > 0 ==> forall i :: 0 <= i < n ==> entries[..n][i].from <= entries[..n][n - 1].from;
      previous := entries[n].from;
      n := n + 1;
    }
    assert entries[..n] == entries;
    return true;
  }

  class Generator {
    /** The body of the generated function so far. */
    var body: seq<Rule>

    constructor ()
      ensures body == []
    {
      body := [];
    }

    method DumpBlock(b: seq<Mapping>)
      requires Uniform(b) && Increasing(b)
      modifies this
      ensures body == old(body) + BlockRules(b)
    {
      if |b| == 1 {
        body := body + [Equal(b[0].from, b[0].to)];
        return;
      }
      assert b[0].from < b[1].from;
      var first := b[0].from;
      var last := first + Stride(b) * (|b| - 1);
      var modulo := first % Stride(b);
      body := body + [Below(first)];
      var pattern := AddModulo(last, Stride(b), modulo, Shift(b[0]));
      if Stride(b) == 2 && Shift(b[0]) == 1 && modulo == 0 {
        pattern := OrOne(last);
      } else if Stride(b) == 1 {
        pattern := Add(last, Shift(b[0]));
      }
      body := body + [pattern];
    }

    /** One block has come to its end: its rules are added. */
    method EndBlock(ghost blocks: seq<seq<Mapping>>, b: seq<Mapping>)
      requires AllRight(body, Concat(blocks)) && Uniform(b)
      requires Increasing(Concat(blocks) + b) && Characters(Concat(blocks) + b)
      modifies this
      ensures AllRight(body, Concat(blocks + [b])) && Concat(blocks + [b]) == Concat(blocks) + b
    {
      ghost var ms, rules := Concat(blocks), body;
      assert forall i :: 0 <= i < |b| ==> b[i] == (ms + b)[|ms| + i];
      DumpBlock(b);
      assert (blocks + [b])[..|blocks|] == blocks;
      forall c ensures RulesOk(body) && Right(body, ms + b, c) {
        RightConcat(rules, ms, b, c);
      }
      assert RulesOk(body) by {
        RightConcat(rules, ms, b, 0);
      }
    }

    /** The generated function computes the mapping, for every integer. The blocks behind it are
        uniform and as long as possible. */
    method Generate(ms: seq<Mapping>) returns (ghost blocks: seq<seq<Mapping>>)
      requires body == [] && ms != [] && Increasing(ms) && Characters(ms)
      modifies this
      ensures Concat(blocks) == ms && Grouped(blocks)
      ensures RulesOk(body) && forall c :: Folds(ms, c, Eval(body, c))
    {
      var current := [ms[0]];
      blocks := [];
      var n := 1;
      while n < |ms|
        invariant 0 < n <= |ms| && Uniform(current) && AllRight(body, Concat(blocks))
        invariant Concat(blocks) + current == ms[..n] && Grouped(blocks + [current])
      {
        var m := ms[n];
        assert ms[..n + 1] == ms[..n] + [m];
        UniformNext(current, m);
        if Shift(current[0]) != Shift(m) {
          StartNext(blocks, current, m);
          EndBlock(blocks, current);
          blocks, current := blocks + [current], [m];
        } else if |current| == 1 || Stride(current) == Stride2(current[|current| - 1], m) {
          ExtendLast(blocks, current, m);
          assert Concat(blocks) + (current + [m]) == (Concat(blocks) + current) + [m];
          current := current + [m];
        } else {
          StartNext(blocks, current, m);
          EndBlock(blocks, current);
          blocks, current := blocks + [current], [m];
        }
        n := n + 1;
      }
      assert ms[..n] == ms;
      EndBlock(blocks, current);
      blocks := blocks + [current];
      forall c ensures Folds(ms, c, Eval(body, c)) {
        assert Right(body, ms, c);
      }
    }
  }

  /** The whole script: there is no output if the entries are duplicate, unsorted or negative, or if there
      are none. */
  method Convert(entries: seq<Mapping>) returns (code: Option<seq<Rule>>)
    ensures code.None? <==> entries == [] || !Increasing(entries) || !Characters(entries)
    ensures code.Some? ==> RulesOk(code.value) && forall c :: Folds(entries, c, Eval(code.value, c))
  {
    var ok := Mappings(entries);
    if !ok || entries == [] {
      return None;
    }
    var generator := new Generator();
    ghost var blocks := generator.Generate(entries);
    return Some(generator.body);
  }

  lemma {:induction false} UniformNext(b: seq<Mapping>, m: Mapping)
    requires Uniform(b)
    ensures Uniform(b + [m]) <==> Shift(b[0]) == Shift(m) && (|b| == 1 || Stride(b) == Stride2(b[|b| - 1], m))
  {
    var b' := b + [m];
    assert forall i :: 0 <= i < |b| ==> b'[i] == b[i];
    assert b'[|b|] == m;
    if Uniform(b') {
      assert Shift(b'[|b|]) == Shift(b'[0]);
      assert Stride2(b'[|b| - 1], b'[|b|]) == Stride2(b'[0], b'[1]);
    }
  }

  lemma {:induction false} StartNext(blocks: seq<seq<Mapping>>, current: seq<Mapping>, m: Mapping)
    requires Grouped(blocks + [current]) && !Uniform(current + [m])
    ensures Grouped(blocks + [current] + [[m]])
  {
    var before, after := blocks + [current], blocks + [current] + [[m]];
    assert forall i :: 0 <= i < |before| ==> after[i] == before[i];
  }

  lemma {:induction false} ExtendLast(blocks: seq<seq<Mapping>>, current: seq<Mapping>, m: Mapping)
    requires Grouped(blocks + [current]) && current != [] && Uniform(current + [m])
    ensures Grouped(blocks + [current + [m]])
  {
    var before, after := blocks + [current], blocks + [current + [m]];
    assert forall i :: 0 <= i < |blocks| ==> after[i] == before[i];
    assert after[|blocks|][0] == before[|blocks|][0];
  }
}
