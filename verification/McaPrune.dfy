/** Choosing, for every text of a block, the prefixes that its lines will be checked with. */
module McaPrune {
  import opened Options
  import opened Least
  import opened McaBreakdown

  /** For every text, the prefix sets of the runs that have produced it. */
  type PrefixSets = seq<seq<set<Prefix>>>

  ghost predicate Produced(all: PrefixSets) {
    forall i :: 0 <= i < |all| ==> all[i] != []
  }

  predicate UsedBy(sets: seq<set<Prefix>>, p: Prefix) {
    exists k :: 0 <= k < |sets| && p in sets[k]
  }

  predicate UsedElsewhere(all: PrefixSets, i: nat, p: Prefix) {
    exists j :: 0 <= j < |all| && j != i && UsedBy(all[j], p)
  }

  /** The prefixes in every set. */
  function Shared(sets: seq<set<Prefix>>): (r: set<Prefix>)
    requires sets != []
    ensures forall p :: p in r <==> forall k :: 0 <= k < |sets| ==> p in sets[k]
  {
    if |sets| == 1 then sets[0] else
      var r := Shared(sets[1..]);
      assert forall k :: 1 <= k < |sets| ==> sets[k] == sets[1..][k - 1];
      assert forall k :: 0 <= k < |sets| - 1 ==> sets[1..][k] == sets[k + 1];
      sets[0] * r
  }

  /** What is left of a set when the prefixes used for other texts are taken away. */
  ghost predicate LeftOver(all: PrefixSets, i: nat, s: set<Prefix>, r: set<Prefix>) {
    forall p :: p in r <==> p in s && !UsedElsewhere(all, i, p)
  }

  ghost predicate PrunedOf(all: PrefixSets, i: nat, pruned: seq<set<Prefix>>)
    requires i < |all|
  {
    |pruned| == |all[i]| && forall k :: 0 <= k < |pruned| ==> LeftOver(all, i, all[i][k], pruned[k])
  }

  /** There is only one way to prune. */
  lemma {:induction false} PrunedOnce(all: PrefixSets, i: nat, a: seq<set<Prefix>>, b: seq<set<Prefix>>)
    requires i < |all| && PrunedOf(all, i, a) && PrunedOf(all, i, b)
    ensures a == b
  {
    forall k | 0 <= k < |a| ensures a[k] == b[k] {
      assert LeftOver(all, i, all[i][k], a[k]) && LeftOver(all, i, all[i][k], b[k]);
    }
  }

  /** The chosen prefixes: the first of those that all runs of the text share, or
      else the first of each run. */
  ghost predicate ChosenFrom(pruned: seq<set<Prefix>>, p: Prefix) {
    pruned != [] &&
    if Shared(pruned) != {} then IsLeast(Shared(pruned), p)
    else exists k :: 0 <= k < |pruned| && IsLeast(pruned[k], p)
  }

  /** A good choice for text `i`: no prefix of a run of another text; a prefix of every run that
      has one of its own. */
  ghost predicate GoodChoice(all: PrefixSets, i: nat, ps: seq<Prefix>)
    requires i < |all|
  {
    && Sorted(ps)
    && (forall p :: p in ps ==> UsedBy(all[i], p) && !UsedElsewhere(all, i, p))
    && (forall k, p :: 0 <= k < |all[i]| && p in all[i][k] && !UsedElsewhere(all, i, p) ==> Meets(ps, all[i][k]))
    && (forall p :: SharedOwn(all, i, p) ==> |ps| == 1)
  }

  ghost predicate Meets(ps: seq<Prefix>, s: set<Prefix>) {
    exists q :: q in ps && q in s
  }

  /** A prefix of all runs of the text, and of no other run. */
  ghost predicate SharedOwn(all: PrefixSets, i: nat, p: Prefix)
    requires i < |all|
  {
    !UsedElsewhere(all, i, p) && forall k :: 0 <= k < |all[i]| ==> p in all[i][k]
  }

  /** The prefixes of the sets that are used for other texts, taken away from each set. */
  method PruneSets(all: PrefixSets, i: nat) returns (pruned: seq<set<Prefix>>)
    requires i < |all|
    ensures PrunedOf(all, i, pruned)
  {
    pruned := [];
    var k := 0;
    while k < |all[i]|
      invariant k == |pruned| <= |all[i]|
      invariant forall m :: 0 <= m < k ==> LeftOver(all, i, all[i][m], pruned[m])
    {
      var s := all[i][k];
      pruned := pruned + [set p | p in s && !UsedElsewhere(all, i, p)];
      k := k + 1;
    }
  }

  method LeastOfEach(sets: seq<set<Prefix>>) returns (chosen: set<Prefix>)
    ensures forall p :: p in chosen <==> exists k :: 0 <= k < |sets| && IsLeast(sets[k], p)
  {
    chosen := {};
    var k := 0;
    while k < |sets|
      invariant k <= |sets|
      invariant forall p :: p in chosen <==> exists m :: 0 <= m < k && IsLeast(sets[m], p)
    {
      if sets[k] != {} {
        var least := TakeLeast(sets[k]);
        chosen := chosen + {least};
      }
      k := k + 1;
    }
  }

  method Choose(pruned: seq<set<Prefix>>) returns (chosen: set<Prefix>)
    requires pruned != []
    ensures forall p :: p in chosen <==> ChosenFrom(pruned, p)
    ensures Shared(pruned) != {} ==> |chosen| == 1
  {
    var common := Shared(pruned);
    if common != {} {
      chosen := LeastOfEach([common]);
      ghost var least := LeastExists(common);
      forall p ensures p in chosen <==> p == least {
        assert [common][0] == common;
      }
      assert chosen == {least};
    } else {
      chosen := LeastOfEach(pruned);
    }
  }

  lemma {:induction false} ChosenIsGood(all: PrefixSets, i: nat, pruned: seq<set<Prefix>>, chosen: set<Prefix>,
          ps: seq<Prefix>)
    requires i < |all| && all[i] != [] && PrunedOf(all, i, pruned)
    requires forall p :: p in chosen <==> ChosenFrom(pruned, p)
    requires Sorted(ps) && (forall p :: p in ps <==> p in chosen) && (Shared(pruned) != {} ==> |chosen| == 1)
    ensures GoodChoice(all, i, ps)
  {
    forall p | p in ps ensures UsedBy(all[i], p) && !UsedElsewhere(all, i, p) {
      ChosenIsOwn(all, i, pruned, p);
    }
    forall k, p | 0 <= k < |all[i]| && p in all[i][k] && !UsedElsewhere(all, i, p) ensures Meets(ps, all[i][k]) {
      var q := ChosenCovers(all, i, pruned, k, p);
      assert q in ps;
    }
    forall p | SharedOwn(all, i, p) ensures |ps| == 1 {
      assert forall k :: 0 <= k < |pruned| ==> LeftOver(all, i, all[i][k], pruned[k]) && p in pruned[k];
      assert p in Shared(pruned);
      OneMember(chosen, ps);
    }
  }

  lemma {:induction false} FirstBelowLast(ps: seq<Prefix>)
    requires Sorted(ps) && ps != []
    ensures |ps| == 1 || ps[0] < ps[|ps| - 1]
  {
  }

  lemma {:induction false} OneMember(s: set<Prefix>, ps: seq<Prefix>)
    requires |s| == 1 && Sorted(ps) && forall p :: p in ps <==> p in s
    ensures |ps| == 1
  {
    var p :| p in s;
    assert s == {p} by {
      assert |s - {p}| == 0;
    }
    assert p in ps;
    forall k | 0 <= k < |ps| ensures ps[k] == p {
      assert ps[k] in ps;
    }
    FirstBelowLast(ps);
  }

  lemma {:induction false} ChosenIsOwn(all: PrefixSets, i: nat, pruned: seq<set<Prefix>>, p: Prefix)
    requires i < |all| && all[i] != [] && PrunedOf(all, i, pruned) && ChosenFrom(pruned, p)
    ensures UsedBy(all[i], p) && !UsedElsewhere(all, i, p)
  {
    var k := 0;
    if Shared(pruned) == {} {
      k :| 0 <= k < |pruned| && IsLeast(pruned[k], p);
    }
    assert p in pruned[k] && LeftOver(all, i, all[i][k], pruned[k]);
  }

  lemma {:induction false} ChosenCovers(all: PrefixSets, i: nat, pruned: seq<set<Prefix>>, k: nat, p: Prefix)
    returns (q: Prefix)
    requires i < |all| && PrunedOf(all, i, pruned) && k < |all[i]| && p in all[i][k] && !UsedElsewhere(all, i, p)
    ensures ChosenFrom(pruned, q) && q in all[i][k]
  {
    assert LeftOver(all, i, all[i][k], pruned[k]) && p in pruned[k];
    if Shared(pruned) != {} {
      q := LeastExists(Shared(pruned));
      assert q in pruned[k];
    } else {
      q := LeastExists(pruned[k]);
    }
  }

  /** The prefixes of text `i` are those chosen from what is left of its sets. */
  ghost predicate ChosenFor(all: PrefixSets, i: nat, ps: seq<Prefix>)
    requires i < |all|
  {
    forall pruned: seq<set<Prefix>> :: PrunedOf(all, i, pruned) ==> forall p :: p in ps <==> ChosenFrom(pruned, p)
  }

  lemma {:induction false} ChosenForText(all: PrefixSets, i: nat, pruned: seq<set<Prefix>>, ps: seq<Prefix>)
    requires i < |all| && PrunedOf(all, i, pruned) && forall p :: p in ps <==> ChosenFrom(pruned, p)
    ensures ChosenFor(all, i, ps)
  {
    forall other: seq<set<Prefix>> | PrunedOf(all, i, other) ensures forall p :: p in ps <==> ChosenFrom(other, p) {
      PrunedOnce(all, i, pruned, other);
    }
  }

  ghost predicate HasOwnPrefix(all: PrefixSets, i: nat)
    requires i < |all|
  {
    exists p :: UsedBy(all[i], p) && !UsedElsewhere(all, i, p)
  }

  /** The prefixes of all texts, or nothing if a text that is not empty has no prefix of its own. */
  method Prune(all: PrefixSets, emptyText: seq<bool>) returns (prefixes: Option<seq<seq<Prefix>>>)
    requires Produced(all) && |emptyText| == |all|
    ensures prefixes.Some? ==>
              |prefixes.value| == |all| &&
              forall i :: 0 <= i < |all| ==>
                  GoodChoice(all, i, prefixes.value[i]) && ChosenFor(all, i, prefixes.value[i])
    ensures prefixes.Some? ==> forall i :: 0 <= i < |all| && !emptyText[i] ==> prefixes.value[i] != []
    ensures prefixes.None? ==>
              exists i :: 0 <= i < |all| && !emptyText[i] && !HasOwnPrefix(all, i)
  {
    var result: seq<seq<Prefix>> := [];
    var i := 0;
    while i < |all|
      invariant i == |result| <= |all|
      invariant forall j :: 0 <= j < i ==> GoodChoice(all, j, result[j]) && ChosenFor(all, j, result[j])
      invariant forall j :: 0 <= j < i && !emptyText[j] ==> result[j] != []
    {
      var pruned := PruneSets(all, i);
      var chosen := Choose(pruned);
      var ps := SortedMembers(chosen);
      ChosenIsGood(all, i, pruned, chosen, ps);
      ChosenForText(all, i, pruned, ps);
      if !emptyText[i] && ps == [] {
        return None;
      }
      result := result + [ps];
      i := i + 1;
    }
    prefixes := Some(result);
  }

  /** With the prefixes chosen this way, a block of several texts can be broken down. */
  lemma {:induction false} ChoiceIsUsable(all: PrefixSets, prefixes: seq<seq<Prefix>>, common: Prefix)
    requires |prefixes| == |all| >= 2 && Produced(all)
    requires forall i :: 0 <= i < |all| ==> GoodChoice(all, i, prefixes[i]) && prefixes[i] != []
    requires forall i, k :: 0 <= i < |all| && 0 <= k < |all[i]| ==> common in all[i][k]
    ensures OwnPrefixes(prefixes, common)
  {
    forall i, j, p | 0 <= i < |prefixes| && 0 <= j < |prefixes| && p in prefixes[i] && p in prefixes[j] ensures i == j {
      assert GoodChoice(all, i, prefixes[i]) && GoodChoice(all, j, prefixes[j]);
    }
    forall i | 0 <= i < |prefixes| ensures common !in prefixes[i] && Distinct(prefixes[i]) {
      assert GoodChoice(all, i, prefixes[i]);
      var j := if i == 0 then 1 else 0;
      assert UsedBy(all[j], common) by {
        assert common in all[j][0];
      }
    }
  }

  // ---- what a run is checked against ----

  /** The lines with a prefix of the run. */
  function CheckedBy(outs: seq<Out>, s: set<Prefix>): seq<Line> {
    if outs == [] then [] else (if outs[0].prefix in s then [outs[0].line] else []) + CheckedBy(outs[1..], s)
  }

  lemma {:induction false} TextIsChecked(outs: seq<Out>, p: Prefix, common: Prefix)
    ensures CheckedBy(outs, {p, common}) == Restricted(outs, p, common)
  {
    if outs != [] {
      TextIsChecked(outs[1..], p, common);
    }
  }

  lemma {:induction false} OthersDoNotMatter(outs: seq<Out>, s: set<Prefix>, s': set<Prefix>)
    requires forall o :: o in outs ==> (o.prefix in s <==> o.prefix in s')
    ensures CheckedBy(outs, s) == CheckedBy(outs, s')
  {
    if outs != [] {
      assert outs[0] in outs;
      OthersDoNotMatter(outs[1..], s, s');
    }
  }

  lemma {:induction false} OneMorePrefix(outs: seq<Out>, s: set<Prefix>, p: Prefix)
    requires p !in s
    ensures |CheckedBy(outs, s + {p})| == |CheckedBy(outs, s)| + |CheckedBy(outs, {p})|
  {
    if outs != [] {
      OneMorePrefix(outs[1..], s, p);
    }
  }

  /** Prefixes with equally many lines each. */
  lemma {:induction false} PrefixesAddUp(outs: seq<Out>, s: set<Prefix>, common: Prefix, n: int)
    requires common !in s && forall p :: p in s ==> |CheckedBy(outs, {p})| == n
    ensures |CheckedBy(outs, s + {common})| == |CheckedBy(outs, {common})| + |s| * n
  {
    if s == {} {
      assert s + {common} == {common};
    } else {
      var p :| p in s;
      PrefixesAddUp(outs, s - {p}, common, n);
      OneMorePrefix(outs, s - {p} + {common}, p);
      assert s - {p} + {common} + {p} == s + {common};
      OneMultipleMore(|s| - 1, n);
    }
  }

  lemma {:induction false} OneMultipleMore(c: nat, n: int)
    ensures (c + 1) * n == c * n + n
  {
  }

  /** The prefixes of a run that have been chosen for its text. */
  function ChosenIn(ps: seq<Prefix>, s: set<Prefix>): (r: set<Prefix>)
    ensures forall p :: p in r <==> p in ps && p in s
  {
    set p | p in s && p in ps
  }

  /** What is known when a block of several texts has been broken down. */
  ghost predicate BrokenDown(all: PrefixSets, texts: seq<seq<Line>>, prefixes: seq<seq<Prefix>>, common: Prefix,
          outs: seq<Out>)
  {
    && |texts| == |prefixes| == |all| && SameShape(texts, prefixes) && OwnPrefixes(prefixes, common)
    && (forall i, k :: 0 <= i < |all| && 0 <= k < |all[i]| ==> common in all[i][k])
    && (forall i :: 0 <= i < |all| ==> GoodChoice(all, i, prefixes[i]))
    && TellsApart(texts, prefixes, common, outs) && Labelled(outs, prefixes, common)
    && (AllSame(texts, |texts[0]|) ==> OnlyCommon(outs, common))
  }

  /** A text's lines that differ from another text's. */
  function Differing(text: seq<Line>, common: Prefix, outs: seq<Out>): int {
    |text| - |CheckedBy(outs, {common})|
  }

  lemma {:induction false} LinesOfPrefix(all: PrefixSets, texts: seq<seq<Line>>, prefixes: seq<seq<Prefix>>,
          common: Prefix, outs: seq<Out>, i: nat, p: Prefix)
    requires BrokenDown(all, texts, prefixes, common, outs) && i < |all| && p in prefixes[i]
    ensures |CheckedBy(outs, {p})| == Differing(texts[i], common, outs)
  {
    TextIsChecked(outs, p, common);
    OneMorePrefix(outs, {common}, p);
    assert {common} + {p} == {p, common};
  }

  lemma {:induction false} RunIgnoresOthers(all: PrefixSets, texts: seq<seq<Line>>, prefixes: seq<seq<Prefix>>,
          common: Prefix, outs: seq<Out>, i: nat, k: nat)
    requires BrokenDown(all, texts, prefixes, common, outs) && i < |all| && k < |all[i]|
    ensures CheckedBy(outs, all[i][k]) == CheckedBy(outs, ChosenIn(prefixes[i], all[i][k]) + {common})
  {
    forall o | o in outs && o.prefix in all[i][k] && o.prefix != common ensures o.prefix in prefixes[i] {
      var j := TextOfPrefix(prefixes, o.prefix);
      assert GoodChoice(all, j, prefixes[j]);
      assert UsedBy(all[i], o.prefix);
    }
    OthersDoNotMatter(outs, all[i][k], ChosenIn(prefixes[i], all[i][k]) + {common});
  }

  /** A run is checked against every common line once, and against as many lines of its text that are not
      common, once for each of its prefixes that has been chosen. */
  lemma {:induction false} LinesChecked(all: PrefixSets, texts: seq<seq<Line>>, prefixes: seq<seq<Prefix>>,
          common: Prefix, outs: seq<Out>, i: nat, k: nat)
    requires BrokenDown(all, texts, prefixes, common, outs) && i < |all| && k < |all[i]|
    ensures |CheckedBy(outs, all[i][k])|
         == |CheckedBy(outs, {common})| + |ChosenIn(prefixes[i], all[i][k])| * Differing(texts[i], common, outs)
  {
    var chosen := ChosenIn(prefixes[i], all[i][k]);
    forall p | p in chosen ensures |CheckedBy(outs, {p})| == Differing(texts[i], common, outs) {
      LinesOfPrefix(all, texts, prefixes, common, outs, i, p);
    }
    RunIgnoresOthers(all, texts, prefixes, common, outs, i, k);
    PrefixesAddUp(outs, chosen, common, Differing(texts[i], common, outs));
  }

  lemma {:induction false} HasLine(outs: seq<Out>, o: Out)
    requires o in outs
    ensures |CheckedBy(outs, {o.prefix})| > 0
  {
    if outs[0] != o {
      HasLine(outs[1..], o);
    }
  }

  /** If all lines are common, the texts are the same. */
  lemma {:induction false} CommonMeansSame(all: PrefixSets, texts: seq<seq<Line>>, prefixes: seq<seq<Prefix>>,
          common: Prefix, outs: seq<Out>)
    requires BrokenDown(all, texts, prefixes, common, outs) && OnlyCommon(outs, common)
    ensures AllSame(texts, |texts[0]|)
  {
    forall i | 0 <= i < |texts| ensures texts[i] == CheckedBy(outs, {common}) {
      assert prefixes[i][0] in prefixes[i];
      TextIsChecked(outs, prefixes[i][0], common);
      OthersDoNotMatter(outs, {prefixes[i][0], common}, {common});
    }
  }

  /** A line that is not the same in all texts makes all texts have such lines. */
  lemma {:induction false} DifferingLines(all: PrefixSets, texts: seq<seq<Line>>, prefixes: seq<seq<Prefix>>,
          common: Prefix, outs: seq<Out>, i: nat)
    requires BrokenDown(all, texts, prefixes, common, outs) && i < |all|
    ensures Differing(texts[i], common, outs) >= 0
    ensures Differing(texts[i], common, outs) == 0 <==> AllSame(texts, |texts[0]|)
    ensures AllSame(texts, |texts[0]|) ==> OnlyCommon(outs, common)
  {
    assert texts[i] in texts && prefixes[i][0] in prefixes[i];
    LinesOfPrefix(all, texts, prefixes, common, outs, i, prefixes[i][0]);
    if o :| o in outs && o.prefix != common {
      var j := TextOfPrefix(prefixes, o.prefix);
      assert texts[j] in texts;
      LinesOfPrefix(all, texts, prefixes, common, outs, j, o.prefix);
      HasLine(outs, o);
    } else {
      OthersDoNotMatter(outs, {prefixes[i][0]}, {});
      NothingChecked(outs);
      CommonMeansSame(all, texts, prefixes, common, outs);
    }
  }

  lemma {:induction false} NothingChecked(outs: seq<Out>)
    ensures CheckedBy(outs, {}) == []
  {
    if outs != [] {
      NothingChecked(outs[1..]);
    }
  }

  /** A run is checked against exactly its text if and only if exactly one of its prefixes has been chosen,
      or no line differs. */
  lemma {:induction false} RunSeesItsText(all: PrefixSets, texts: seq<seq<Line>>, prefixes: seq<seq<Prefix>>,
          common: Prefix, outs: seq<Out>, i: nat, k: nat)
    requires BrokenDown(all, texts, prefixes, common, outs) && i < |all| && k < |all[i]|
    ensures CheckedBy(outs, all[i][k]) == texts[i] <==>
              |ChosenIn(prefixes[i], all[i][k])| == 1 || AllSame(texts, |texts[0]|)
  {
    var chosen := ChosenIn(prefixes[i], all[i][k]);
    var differing := Differing(texts[i], common, outs);
    DifferingLines(all, texts, prefixes, common, outs, i);
    LinesChecked(all, texts, prefixes, common, outs, i, k);
    RunIgnoresOthers(all, texts, prefixes, common, outs, i, k);
    if |chosen| == 1 {
      var p :| p in chosen;
      assert chosen == {p} by {
        assert |chosen - {p}| == 0;
      }
      assert chosen + {common} == {p, common};
      TextIsChecked(outs, p, common);
    } else if differing == 0 {
      var p := prefixes[i][0];
      OthersDoNotMatter(outs, all[i][k], {p, common});
      TextIsChecked(outs, p, common);
    } else {
      OtherMultiple(|chosen|, differing);
    }
  }

  lemma {:induction false} OtherMultiple(c: nat, n: int)
    requires c != 1 && n > 0
    ensures c * n != n
  {
    if c > 1 {
      assert c * n == n + (c - 1) * n;
    }
  }

  // ---- how many prefixes of a run are chosen ----

  /** All that is chosen from other runs, and is also in this one, is what is chosen from this one. */
  ghost predicate Agreeing(pruned: seq<set<Prefix>>, k: nat)
    requires k < |pruned|
  {
    forall m, p :: 0 <= m < |pruned| && IsLeast(pruned[m], p) && p in pruned[k] ==> IsLeast(pruned[k], p)
  }

  lemma {:induction false} SingleMember(s: set<Prefix>, q: Prefix)
    requires q in s
    ensures |s| == 1 <==> forall p :: p in s ==> p == q
  {
    assert s == (s - {q}) + {q};
    if |s| == 1 {
      assert |s - {q}| == 0;
    }
    if forall p :: p in s ==> p == q {
      assert s == {q};
    }
  }

  /** Exactly one prefix of run `k` is chosen if and only if the run has one that is not used for other texts,
      and the runs of the text share such a prefix or none of the others adds a second one. */
  lemma {:induction false} OneChosen(all: PrefixSets, i: nat, pruned: seq<set<Prefix>>, ps: seq<Prefix>, k: nat)
    requires i < |all| && k < |all[i]| && PrunedOf(all, i, pruned) && ChosenFor(all, i, ps)
    ensures |ChosenIn(ps, all[i][k])| == 1 <==> pruned[k] != {} && (Shared(pruned) != {} || Agreeing(pruned, k))
  {
    var chosen := ChosenIn(ps, all[i][k]);
    assert LeftOver(all, i, all[i][k], pruned[k]);
    forall p | p in chosen ensures p in pruned[k] {
      ChosenIsOwn(all, i, pruned, p);
    }
    if pruned[k] != {} {
      var q := LeastExists(pruned[k]);
      if Shared(pruned) != {} {
        q := LeastExists(Shared(pruned));
      }
      assert ChosenFrom(pruned, q) && q in chosen;
      SingleMember(chosen, q);
      if Shared(pruned) == {} {
        AgreeingIsOne(all, i, pruned, ps, k, q);
      }
    }
  }

  /** A shared prefix of the runs' own is enough. */
  lemma {:induction false} SharedPrefixIsEnough(all: PrefixSets, i: nat, ps: seq<Prefix>, p: Prefix, k: nat)
    requires i < |all| && GoodChoice(all, i, ps) && k < |all[i]|
    requires SharedOwn(all, i, p)
    ensures exists q :: q in ps && q in all[i][k] && forall r :: r in ps ==> r == q
  {
    assert p in all[i][k];
    assert Meets(ps, all[i][k]);
    var q :| q in ps && q in all[i][k];
    OnlyOne(ps, q);
  }

  lemma {:induction false} OnlyOne(ps: seq<Prefix>, q: Prefix)
    requires |ps| == 1 && q in ps
    ensures forall r :: r in ps ==> r == q
  {
  }

  lemma {:induction false} AgreeingIsOne(all: PrefixSets, i: nat, pruned: seq<set<Prefix>>, ps: seq<Prefix>, k: nat,
          q: Prefix)
    requires i < |all| && k < |all[i]| && PrunedOf(all, i, pruned) && ChosenFor(all, i, ps)
    requires Shared(pruned) == {} && IsLeast(pruned[k], q)
    ensures Agreeing(pruned, k) <==> forall p :: p in ChosenIn(ps, all[i][k]) ==> p == q
  {
    assert LeftOver(all, i, all[i][k], pruned[k]);
    if Agreeing(pruned, k) {
      forall p | p in ChosenIn(ps, all[i][k]) ensures p == q {
        ChosenIsOwn(all, i, pruned, p);
        assert IsLeast(pruned[k], p);
      }
    } else {
      var m, p :| 0 <= m < |pruned| && IsLeast(pruned[m], p) && p in pruned[k] && !IsLeast(pruned[k], p);
      assert ChosenFrom(pruned, p) && p in ChosenIn(ps, all[i][k]);
    }
  }

  // ---- from prefixes to checked lines ----

  /** What is left of the sets of text `i`. */
  ghost function OwnSets(all: PrefixSets, i: nat): (r: seq<set<Prefix>>)
    requires i < |all|
    ensures PrunedOf(all, i, r)
  {
    seq(|all[i]|, k requires 0 <= k < |all[i]| => set p | p in all[i][k] && !UsedElsewhere(all, i, p))
  }

  /** Run `k` of text `i` is checked against exactly its text if and only if no line differs, or one
      prefix of the run is chosen. */
  ghost predicate SeenExactly(all: PrefixSets, texts: seq<seq<Line>>, outs: seq<Out>, i: nat, k: nat)
    requires |texts| == |all| && i < |all| && k < |all[i]| && forall t :: t in texts ==> |t| == |texts[0]|
  {
    CheckedBy(outs, all[i][k]) == texts[i] <==>
      || AllSame(texts, |texts[0]|)
      || (OwnSets(all, i)[k] != {} && (Shared(OwnSets(all, i)) != {} || Agreeing(OwnSets(all, i), k)))
  }

  lemma {:induction false} RunSeen(all: PrefixSets, texts: seq<seq<Line>>, prefixes: seq<seq<Prefix>>, common: Prefix,
          outs: seq<Out>, i: nat, k: nat)
    requires BrokenDown(all, texts, prefixes, common, outs) && i < |all| && k < |all[i]|
    requires ChosenFor(all, i, prefixes[i])
    ensures SeenExactly(all, texts, outs, i, k)
  {
    RunSeesItsText(all, texts, prefixes, common, outs, i, k);
    OneChosen(all, i, OwnSets(all, i), prefixes[i], k);
  }

  /** Several texts of equally many lines, from the prefix sets of their runs to the lines that each run is
      checked against. It fails if and only if a text has no prefix of its own. */
  method PruneAndBreakDown(all: PrefixSets, texts: seq<seq<Line>>, common: Prefix) returns (outs: Option<seq<Out>>)
    requires |texts| == |all| >= 2 && Produced(all) && forall t :: t in texts ==> |t| == |texts[0]| > 0
    requires forall i, k :: 0 <= i < |all| && 0 <= k < |all[i]| ==> common in all[i][k]
    ensures outs.Some? <==> forall i :: 0 <= i < |all| ==> HasOwnPrefix(all, i)
    ensures outs.Some? ==> (outs.value != [] <==> SameLine(texts, 0))
    ensures outs.Some? && outs.value != [] ==>
              CommonPart(outs.value, common) == SharedLines(texts, |texts[0]|) && InOrder(outs.value, common)
    ensures outs.Some? && outs.value != [] ==>
              forall i, k :: 0 <= i < |all| && 0 <= k < |all[i]| ==> SeenExactly(all, texts, outs.value, i, k)
  {
    var prefixes := Prune(all, seq(|all|, i => false));
    if prefixes.None? {
      return None;
    }
    forall i | 0 <= i < |all| ensures HasOwnPrefix(all, i) {
      assert GoodChoice(all, i, prefixes.value[i]) && prefixes.value[i][0] in prefixes.value[i];
    }
    ChoiceIsUsable(all, prefixes.value, common);
    var result := BreakDownBlock(texts, prefixes.value, common);
    if result != [] {
      assert BrokenDown(all, texts, prefixes.value, common, result);
      forall i, k | 0 <= i < |all| && 0 <= k < |all[i]| ensures SeenExactly(all, texts, result, i, k) {
        RunSeen(all, texts, prefixes.value, common, result, i, k);
      }
    }
    return Some(result);
  }

  /** A text whose runs share no prefix: prefixes 1 and 2 are both chosen, and one of its runs has both. */
  lemma {:induction false} TwoChosen(all: PrefixSets)
    requires all == [[{0, 1, 2}, {0, 2, 3}, {0, 1, 3}], [{0, 4}]]
    ensures ChosenFor(all, 0, [1, 2]) && ChosenFor(all, 1, [4])
    ensures ChosenIn([1, 2], all[0][0]) == {1, 2}
  {
    assert UsedBy(all[0], 0) && UsedBy(all[1], 0) by {
      assert 0 in all[0][0] && 0 in all[1][0];
    }
    assert forall p :: UsedElsewhere(all, 0, p) <==> UsedBy(all[1], p);
    assert forall p :: UsedElsewhere(all, 1, p) <==> UsedBy(all[0], p);
    assert forall p :: UsedBy(all[1], p) <==> p in all[1][0];
    assert forall p :: UsedBy(all[0], p) <==> p in all[0][0] || p in all[0][1] || p in all[0][2];
    ChosenOfThree(all);
    assert Shared([{4}]) == {4} && IsLeast({4}, 4);
    assert PrunedOf(all, 1, [{4}]);
    ChosenForText(all, 1, [{4}], [4]);
  }

  lemma {:induction false} ChosenOfThree(all: PrefixSets)
    requires |all| == 2 && all[0] == [{0, 1, 2}, {0, 2, 3}, {0, 1, 3}]
    requires forall p :: UsedElsewhere(all, 0, p) <==> p == 0 || p == 4
    ensures ChosenFor(all, 0, [1, 2])
  {
    var pruned: seq<set<Prefix>> := [{1, 2}, {2, 3}, {1, 3}];
    assert Shared(pruned) <= pruned[0] * pruned[1] * pruned[2] == {};
    assert IsLeast(pruned[0], 1) && IsLeast(pruned[1], 2) && IsLeast(pruned[2], 1);
    forall p ensures p in [1, 2] <==> ChosenFrom(pruned, p) {
    }
    ChosenForText(all, 0, pruned, [1, 2]);
  }

  /** That run is then checked against the differing line of the text twice. */
  lemma {:induction false} CheckedTwice(texts: seq<seq<Line>>, prefixes: seq<seq<Prefix>>, outs: seq<Out>)
    requires texts == [["a", "b"], ["a", "c"]] && prefixes == [[1, 2], [4]]
    requires outs == [Out(0, "a"), Out(1, "b"), Out(2, "b"), Out(4, "c")]
    ensures TellsApart(texts, prefixes, 0, outs) && Labelled(outs, prefixes, 0)
    ensures CheckedBy(outs, {0, 1, 2}) == ["a", "b", "b"]
  {
    var third, second, first := [outs[3]], outs[2..], outs[1..];
    assert third[1..] == [] && second[1..] == third && first[1..] == second && outs[1..] == first;
    forall i, p | 0 <= i < 2 && p in prefixes[i] ensures Restricted(outs, p, 0) == texts[i] {
      ThreeLines(p, third, second, first);
    }
    InAllPrefixes(prefixes, 0);
    InAllPrefixes(prefixes, 1);
    assert CheckedBy(third, {0, 1, 2}) == [] && CheckedBy(second, {0, 1, 2}) == ["b"];
    assert CheckedBy(first, {0, 1, 2}) == ["b", "b"];
  }

  lemma {:induction false} ThreeLines(p: Prefix, third: seq<Out>, second: seq<Out>, first: seq<Out>)
    requires p in {1, 2, 4} && third == [Out(4, "c")] && second == [Out(2, "b")] + third
    requires first == [Out(1, "b")] + second
    ensures Restricted(first, p, 0) == if p == 4 then ["c"] else ["b"]
  {
    assert third[1..] == [] && second[1..] == third && first[1..] == second;
    assert Restricted(third, p, 0) == if p == 4 then ["c"] else [];
    assert Restricted(second, p, 0) == if p == 4 then ["c"] else if p == 2 then ["b"] else [];
  }
}
