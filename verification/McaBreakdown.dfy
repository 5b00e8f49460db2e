/** Breaking blocks with common lines down by prefix, and pruning the prefixes beforehand. */
module McaBreakdown {
  type Line = string

  /** Prefixes are numbered in alphabetical order. */
  type Prefix = nat

  datatype Out = Out(prefix: Prefix, line: Line)

  type Batches = map<Prefix, seq<Out>>

  /** The lines that a text is checked against: those with its own prefix or the common one. */
  function Restricted(outs: seq<Out>, p: Prefix, common: Prefix): seq<Line> {
    if outs == [] then []
    else
      (if outs[0].prefix == p || outs[0].prefix == common then [outs[0].line] else [])
      + Restricted(outs[1..], p, common)
  }

  lemma {:induction false} RestrictedConcat(a: seq<Out>, b: seq<Out>, p: Prefix, common: Prefix)
    ensures Restricted(a + b, p, common) == Restricted(a, p, common) + Restricted(b, p, common)
  {
    if a == [] {
      assert a + b == b;
    } else {
      assert (a + b)[1..] == a[1..] + b;
      RestrictedConcat(a[1..], b, p, common);
    }
  }

  lemma {:induction false} RestrictedForeign(outs: seq<Out>, q: Prefix, p: Prefix, common: Prefix)
    requires p != q && q != common && forall o :: o in outs ==> o.prefix == q
    ensures Restricted(outs, p, common) == []
  {
    if outs != [] {
      RestrictedForeign(outs[1..], q, p, common);
    }
  }

  /** The batch of a prefix, empty if there is none. */
  function Batch(batches: Batches, p: Prefix): seq<Out> {
    if p in batches then batches[p] else []
  }

  ghost predicate BatchesOk(batches: Batches, common: Prefix) {
    forall q :: q in batches ==> q != common && forall o :: o in batches[q] ==> o.prefix == q
  }

  /** The prefixes of all texts. */
  function AllPrefixes(prefixes: seq<seq<Prefix>>): set<Prefix> {
    if prefixes == [] then {} else (set p | p in prefixes[0]) + AllPrefixes(prefixes[1..])
  }

  lemma {:induction false} InAllPrefixes(prefixes: seq<seq<Prefix>>, i: nat)
    requires i < |prefixes|
    ensures forall p :: p in prefixes[i] ==> p in AllPrefixes(prefixes)
  {
    if i > 0 {
      InAllPrefixes(prefixes[1..], i - 1);
    }
  }

  lemma {:induction false} TextOfPrefix(prefixes: seq<seq<Prefix>>, p: Prefix) returns (i: nat)
    requires p in AllPrefixes(prefixes)
    ensures i < |prefixes| && p in prefixes[i]
  {
    if p in prefixes[0] {
      i := 0;
    } else {
      i := TextOfPrefix(prefixes[1..], p);
      i := i + 1;
    }
  }

  /** Every line has a prefix of a text, or the common one. */
  ghost predicate Labelled(outs: seq<Out>, prefixes: seq<seq<Prefix>>, common: Prefix) {
    forall o :: o in outs ==> o.prefix == common || o.prefix in AllPrefixes(prefixes)
  }

  ghost predicate BatchesLabelled(batches: Batches, prefixes: seq<seq<Prefix>>) {
    forall q :: q in batches ==> q in AllPrefixes(prefixes)
  }

  ghost predicate BatchesFit(batches: Batches, prefixes: seq<seq<Prefix>>, common: Prefix) {
    BatchesOk(batches, common) && BatchesLabelled(batches, prefixes)
  }

  predicate Sorted(ps: seq<Prefix>) {
    forall i, j :: 0 <= i < j < |ps| ==> ps[i] < ps[j]
  }

  /** The members of a set in increasing order. */
  method SortedMembers(s: set<Prefix>) returns (ps: seq<Prefix>)
    ensures Sorted(ps) && forall p :: p in ps <==> p in s
  {
    ps := [];
    var rest := s;
    while rest != {}
      invariant rest <= s && Sorted(ps) && (forall p :: p in ps <==> p in s && p !in rest)
      invariant forall p, q :: p in ps && q in rest ==> p < q
      decreases |rest|
    {
      var least := TakeLeast(rest);
      forall i | 0 <= i < |ps| ensures ps[i] < least {
        assert ps[i] in ps;
      }
      ps, rest := ps + [least], rest - {least};
    }
  }

  method TakeLeast(s: set<Prefix>) returns (least: Prefix)
    requires s != {}
    ensures least in s && forall p :: p in s ==> least <= p
  {
    least :| least in s;
    var rest := s - {least};
    while rest != {}
      invariant rest <= s && least in s && forall p :: p in s && p !in rest ==> least <= p
      decreases |rest|
    {
      var p :| p in rest;
      if p < least {
        least := p;
      }
      rest := rest - {p};
    }
  }

  ghost predicate FlushedAt(result: seq<Out>, batches: Batches, flushed: seq<Out>, p: Prefix, common: Prefix) {
    Restricted(flushed, p, common) == Restricted(result, p, common) + Restricted(Batch(batches, p), p, common)
  }

  ghost predicate PartlyFlushed(result: seq<Out>, batches: Batches, flushed: seq<Out>, done: seq<Prefix>, p: Prefix,
          common: Prefix)
  {
    Restricted(flushed, p, common) == Restricted(result, p, common)
        + if p in done then Restricted(Batch(batches, p), p, common) else []
  }

  /** Lines with other prefixes than the common one, these in increasing order. */
  ghost predicate Segment(outs: seq<Out>, common: Prefix) {
    && (forall i :: 0 <= i < |outs| ==> outs[i].prefix != common)
    && forall i, j :: 0 <= i < j < |outs| ==> outs[i].prefix <= outs[j].prefix
  }

  ghost predicate Extended(result: seq<Out>, flushed: seq<Out>, common: Prefix) {
    |result| <= |flushed| && flushed[..|result|] == result && Segment(flushed[|result|..], common)
  }

  /** What has been flushed so far, all with smaller prefixes than what is to come. */
  ghost predicate Tail(result: seq<Out>, tail: seq<Out>, flushed: seq<Out>, order: seq<Prefix>, n: nat,
          common: Prefix)
  {
    && flushed == result + tail && Segment(tail, common)
    && forall o :: o in tail ==> forall m :: n <= m < |order| ==> o.prefix < order[m]
  }

  lemma {:induction false} TailExtends(result: seq<Out>, tail: seq<Out>, flushed: seq<Out>, order: seq<Prefix>, n: nat,
          common: Prefix)
    requires Tail(result, tail, flushed, order, n, common)
    ensures Extended(result, flushed, common)
  {
    assert flushed[|result|..] == tail;
  }

  lemma {:induction false} SegmentNext(result: seq<Out>, tail: seq<Out>, flushed: seq<Out>, batches: Batches,
          order: seq<Prefix>, n: nat, common: Prefix)
    requires BatchesOk(batches, common) && n < |order| && Sorted(order) && order[n] in batches
    requires Tail(result, tail, flushed, order, n, common)
    ensures Tail(result, tail + batches[order[n]], flushed + batches[order[n]], order, n + 1, common)
  {
    var batch := batches[order[n]];
    var all := tail + batch;
    forall i | 0 <= i < |all| ensures all[i].prefix != common {
      assert i >= |tail| ==> all[i] in batch;
    }
    forall i, j | 0 <= i < j < |all| ensures all[i].prefix <= all[j].prefix {
      assert i < |tail| ==> all[i] in tail;
      assert i >= |tail| ==> all[i] in batch;
      assert j >= |tail| ==> all[j] in batch;
    }
  }

  /** Between two common lines the others come in the order of their prefixes. */
  ghost predicate InOrder(outs: seq<Out>, common: Prefix) {
    forall i, j :: 0 <= i <= j < |outs| ==> OrderedAt(outs, common, i, j)
  }

  ghost predicate OrderedAt(outs: seq<Out>, common: Prefix, i: nat, j: nat)
    requires i <= j < |outs|
  {
    (forall k :: i <= k <= j ==> outs[k].prefix != common) ==> outs[i].prefix <= outs[j].prefix
  }

  /** The lines with the common prefix. */
  function CommonPart(outs: seq<Out>, common: Prefix): seq<Line> {
    if outs == [] then []
    else CommonPart(outs[..|outs| - 1], common)
         + if outs[|outs| - 1].prefix == common then [outs[|outs| - 1].line] else []
  }

  /** Those of the first `n` lines that all texts have in common. */
  function SharedLines(texts: seq<seq<Line>>, n: nat): seq<Line>
    requires texts != [] && forall t :: t in texts ==> n <= |t|
  {
    if n == 0 then [] else
      assert texts[0] in texts;
      SharedLines(texts, n - 1) + if SameLine(texts, n - 1) then [texts[0][n - 1]] else []
  }

  lemma {:induction false} SegmentHasNoCommon(outs: seq<Out>, tail: seq<Out>, common: Prefix)
    requires Segment(tail, common)
    ensures CommonPart(outs + tail, common) == CommonPart(outs, common)
  {
    if tail == [] {
      assert outs + tail == outs;
    } else {
      assert (outs + tail)[..|outs + tail| - 1] == outs + tail[..|tail| - 1];
      SegmentHasNoCommon(outs, tail[..|tail| - 1], common);
    }
  }

  /** The result up to a sync point: the common lines of the texts, and others in order before each. */
  ghost predicate Synced(texts: seq<seq<Line>>, common: Prefix, result: seq<Out>, n: nat)
    requires texts != [] && forall t :: t in texts ==> n <= |t|
  {
    && CommonPart(result, common) == SharedLines(texts, n) && InOrder(result, common)
    && (result != [] ==> result[|result| - 1].prefix == common)
  }

  lemma {:induction false} ExtendedInOrder(result: seq<Out>, flushed: seq<Out>, common: Prefix)
    requires InOrder(result, common) && (result != [] ==> result[|result| - 1].prefix == common)
    requires Extended(result, flushed, common)
    ensures InOrder(flushed, common) && CommonPart(flushed, common) == CommonPart(result, common)
  {
    var tail, n := flushed[|result|..], |result|;
    assert flushed == result + tail;
    SegmentHasNoCommon(result, tail, common);
    forall i, j | 0 <= i <= j < |flushed| ensures OrderedAt(flushed, common, i, j) {
      ExtendedAt(result, flushed, common, i, j);
    }
  }

  lemma {:induction false} ExtendedAt(result: seq<Out>, flushed: seq<Out>, common: Prefix, i: nat, j: nat)
    requires InOrder(result, common) && (result != [] ==> result[|result| - 1].prefix == common)
    requires Extended(result, flushed, common) && i <= j < |flushed|
    ensures OrderedAt(flushed, common, i, j)
  {
    var n := |result|;
    if j < n {
      assert OrderedAt(result, common, i, j);
      assert forall k :: 0 <= k < n ==> result[k] == flushed[k];
    } else if i < n {
      assert flushed[n - 1] == result[n - 1];
    } else {
      var tail := flushed[n..];
      assert flushed[i] == tail[i - n] && flushed[j] == tail[j - n];
    }
  }

  lemma {:induction false} SyncedNext(texts: seq<seq<Line>>, common: Prefix, result: seq<Out>, flushed: seq<Out>,
          n: nat)
    requires texts != [] && (forall t :: t in texts ==> n < |t|) && texts[0] in texts && SameLine(texts, n)
    requires Synced(texts, common, result, n) && Extended(result, flushed, common)
    ensures Synced(texts, common, flushed + [Out(common, texts[0][n])], n + 1)
  {
    ExtendedInOrder(result, flushed, common);
    var r := flushed + [Out(common, texts[0][n])];
    assert r[..|r| - 1] == flushed;
    forall i, j | 0 <= i <= j < |r| ensures OrderedAt(r, common, i, j) {
      if j < |flushed| {
        assert OrderedAt(flushed, common, i, j);
        assert forall k :: i <= k <= j ==> r[k] == flushed[k];
      }
    }
  }

  /** Flushed lines are from the result so far or from a batch. */
  ghost predicate FromBatches(result: seq<Out>, batches: Batches, flushed: seq<Out>) {
    forall o :: o in flushed ==> o in result || exists q :: q in batches && o in batches[q]
  }

  lemma {:induction false} FlushedLabelled(result: seq<Out>, batches: Batches, flushed: seq<Out>,
          prefixes: seq<seq<Prefix>>, common: Prefix)
    requires Labelled(result, prefixes, common) && BatchesFit(batches, prefixes, common)
    requires FromBatches(result, batches, flushed)
    ensures Labelled(flushed, prefixes, common)
  {
    forall o | o in flushed && o.prefix != common ensures o.prefix in AllPrefixes(prefixes) {
      if o !in result {
        var q :| q in batches && o in batches[q];
      }
    }
  }

  /** What the collected batches come to, one prefix at a time. */
  method Flush(result: seq<Out>, batches: Batches, ghost common: Prefix) returns (flushed: seq<Out>)
    ensures BatchesOk(batches, common) ==> forall p :: p != common ==> FlushedAt(result, batches, flushed, p, common)
    ensures |result| <= |flushed| && FromBatches(result, batches, flushed)
    ensures BatchesOk(batches, common) ==> Extended(result, flushed, common)
  {
    var order := SortedMembers(batches.Keys);
    flushed := result;
    ghost var tail := [];
    var n := 0;
    while n < |order|
      invariant n <= |order| && |result| <= |flushed| && FromBatches(result, batches, flushed)
      invariant BatchesOk(batches, common) ==>
                  forall p :: p != common ==> PartlyFlushed(result, batches, flushed, order[..n], p, common)
      invariant BatchesOk(batches, common) ==> Tail(result, tail, flushed, order, n, common)
    {
      assert order[n] in order;
      if BatchesOk(batches, common) {
        SegmentNext(result, tail, flushed, batches, order, n, common);
      }
      tail := tail + batches[order[n]];
      ghost var before, done := flushed, order[..n + 1];
      flushed := flushed + batches[order[n]];
      forall p | p != common && BatchesOk(batches, common)
        ensures PartlyFlushed(result, batches, flushed, done, p, common)
      {
        assert PartlyFlushed(result, batches, before, order[..n], p, common);
        FlushStep(before, batches, order, n, p, common);
      }
      n := n + 1;
    }
    forall p | p != common && BatchesOk(batches, common)
      ensures FlushedAt(result, batches, flushed, p, common)
    {
      assert order[..n] == order;
      assert PartlyFlushed(result, batches, flushed, order, p, common);
    }
    if BatchesOk(batches, common) {
      TailExtends(result, tail, flushed, order, n, common);
    }
  }

  lemma {:induction false} FlushStep(before: seq<Out>, batches: Batches, order: seq<Prefix>, n: nat, p: Prefix,
          common: Prefix)
    requires BatchesOk(batches, common) && n < |order| && Sorted(order) && order[n] in batches && p != common
    ensures Restricted(before + batches[order[n]], p, common)
         == Restricted(before, p, common) + if p == order[n] then Restricted(Batch(batches, p), p, common) else []
    ensures p in order[..n + 1] <==> p in order[..n] || p == order[n]
    ensures p == order[n] ==> p !in order[..n]
  {
    RestrictedConcat(before, batches[order[n]], p, common);
    if p != order[n] {
      RestrictedForeign(batches[order[n]], order[n], p, common);
    }
    assert order[..n + 1] == order[..n] + [order[n]];
  }

  // ---- the break-down ----

  predicate SameLine(texts: seq<seq<Line>>, n: nat)
    requires forall t :: t in texts ==> n < |t|
  {
    forall i :: 0 <= i < |texts| ==> texts[i][n] == texts[0][n]
  }

  /** No prefix is used for two texts. */
  ghost predicate Disjoint(prefixes: seq<seq<Prefix>>) {
    forall i, j, p :: 0 <= i < |prefixes| && 0 <= j < |prefixes| && p in prefixes[i] && p in prefixes[j] ==> i == j
  }

  ghost predicate Distinct(ps: seq<Prefix>) {
    forall i, j :: 0 <= i < j < |ps| ==> ps[i] != ps[j]
  }

  /** Texts of equally many lines, at least one. */
  ghost predicate SameShape(texts: seq<seq<Line>>, prefixes: seq<seq<Prefix>>) {
    |texts| == |prefixes| > 0 && forall t :: t in texts ==> |t| == |texts[0]| > 0
  }

  /** Every text has prefixes of its own. */
  ghost predicate OwnPrefixes(prefixes: seq<seq<Prefix>>, common: Prefix) {
    Disjoint(prefixes) && forall i :: 0 <= i < |prefixes| ==>
        prefixes[i] != [] && common !in prefixes[i] && Distinct(prefixes[i])
  }

  /** After `n` lines, a text restricted to one of its prefixes has these lines, counting those in the batches. */
  ghost predicate InterleavedAt(text: seq<Line>, common: Prefix, result: seq<Out>, batches: Batches, n: nat, p: Prefix)
    requires n <= |text|
  {
    Restricted(result, p, common) + Restricted(Batch(batches, p), p, common) == text[..n]
  }

  ghost predicate Interleaved(texts: seq<seq<Line>>, prefixes: seq<seq<Prefix>>, common: Prefix, result: seq<Out>,
          batches: Batches, n: nat)
    requires SameShape(texts, prefixes) && n <= |texts[0]|
  {
    && BatchesFit(batches, prefixes, common) && Labelled(result, prefixes, common)
    && forall i, p {:trigger InterleavedAt(texts[i], common, result, batches, n, p)} ::
         0 <= i < |texts| && p in prefixes[i] ==>
           assert texts[i] in texts; InterleavedAt(texts[i], common, result, batches, n, p)
  }

  /** The batches with one more line of each of the first `i` texts for each of its prefixes. */
  ghost predicate DistributedTo(texts: seq<seq<Line>>, prefixes: seq<seq<Prefix>>, batches: Batches, b: Batches,
          n: nat, i: nat)
    requires SameShape(texts, prefixes) && n < |texts[0]|
  {
    forall j, p {:trigger DistributedAt(texts[j], batches, b, n, j, i, p)} ::
      0 <= j < |texts| && p in prefixes[j] ==>
        assert texts[j] in texts; DistributedAt(texts[j], batches, b, n, j, i, p)
  }

  ghost predicate DistributedAt(text: seq<Line>, batches: Batches, b: Batches, n: nat, j: nat, i: nat, p: Prefix)
    requires n < |text|
  {
    Batch(b, p) == Batch(batches, p) + if j < i then [Out(p, text[n])] else []
  }

  /** The batches with one more line of each text for each of its prefixes. */
  ghost predicate Distributed(texts: seq<seq<Line>>, prefixes: seq<seq<Prefix>>, batches: Batches, b: Batches, n: nat)
    requires SameShape(texts, prefixes) && n < |texts[0]|
  {
    DistributedTo(texts, prefixes, batches, b, n, |texts|)
  }

  lemma {:induction false} NoTextYet(texts: seq<seq<Line>>, prefixes: seq<seq<Prefix>>, batches: Batches, n: nat)
    requires SameShape(texts, prefixes) && n < |texts[0]|
    ensures DistributedTo(texts, prefixes, batches, batches, n, 0)
  {
    forall j, p | 0 <= j < |texts| && p in prefixes[j]
      ensures texts[j] in texts && DistributedAt(texts[j], batches, batches, n, j, 0, p)
    {
      assert texts[j] in texts;
    }
  }

  lemma {:induction false} OneMoreText(texts: seq<seq<Line>>, prefixes: seq<seq<Prefix>>, batches: Batches,
          before: Batches, b: Batches, n: nat, i: nat)
    requires SameShape(texts, prefixes) && n < |texts[0]| && i < |texts| && Disjoint(prefixes)
    requires DistributedTo(texts, prefixes, batches, before, n, i) && texts[i] in texts
    requires forall p :: Batch(b, p) == Batch(before, p) + if p in prefixes[i] then [Out(p, texts[i][n])] else []
    ensures DistributedTo(texts, prefixes, batches, b, n, i + 1)
  {
    forall j, p | 0 <= j < |texts| && p in prefixes[j]
      ensures texts[j] in texts && DistributedAt(texts[j], batches, b, n, j, i + 1, p)
    {
      assert texts[j] in texts && DistributedAt(texts[j], batches, before, n, j, i, p);
      assert p in prefixes[i] <==> j == i;
      DistributedNext(texts[j], batches, before, b, n, j, i, p);
    }
  }

  lemma {:induction false} DistributedNext(text: seq<Line>, batches: Batches, before: Batches, b: Batches, n: nat,
          j: nat, i: nat, p: Prefix)
    requires n < |text| && DistributedAt(text, batches, before, n, j, i, p)
    requires Batch(b, p) == Batch(before, p) + if j == i then [Out(p, text[n])] else []
    ensures DistributedAt(text, batches, b, n, j, i + 1, p)
  {
  }

  ghost predicate KeysFrom(batches: Batches, b: Batches, ps: seq<Prefix>) {
    forall q :: q in b ==> q in batches || q in ps
  }

  lemma {:induction false} MoreLabelled(batches: Batches, b: Batches, prefixes: seq<seq<Prefix>>, i: nat)
    requires i < |prefixes| && BatchesLabelled(batches, prefixes) && KeysFrom(batches, b, prefixes[i])
    ensures BatchesLabelled(b, prefixes)
  {
    InAllPrefixes(prefixes, i);
  }

  /** The differing lines of all texts, each put into the batches of the text's prefixes. */
  method Distribute(texts: seq<seq<Line>>, prefixes: seq<seq<Prefix>>, ghost common: Prefix, batches: Batches, n: nat)
    returns (b: Batches)
    requires SameShape(texts, prefixes) && n < |texts[0]|
    ensures OwnPrefixes(prefixes, common) && BatchesFit(batches, prefixes, common) ==>
              BatchesFit(b, prefixes, common) && Distributed(texts, prefixes, batches, b, n)
  {
    b := batches;
    ghost var own := OwnPrefixes(prefixes, common) && BatchesFit(batches, prefixes, common);
    NoTextYet(texts, prefixes, batches, n);
    var i := 0;
    while i < |texts|
      invariant i <= |texts|
      invariant own ==> BatchesFit(b, prefixes, common) && DistributedTo(texts, prefixes, batches, b, n, i)
    {
      ghost var before := b;
      assert texts[i] in texts;
      b := DistributeText(prefixes[i], common, b, texts[i][n]);
      if own {
        MoreDistributed(texts, prefixes, common, batches, before, b, n, i);
      }
      i := i + 1;
    }
  }

  /** One more line in the batches of all prefixes of a text. */
  ghost predicate OneMoreLine(ps: seq<Prefix>, common: Prefix, batches: Batches, line: Line, b: Batches) {
    && (BatchesOk(batches, common) && common !in ps ==> BatchesOk(b, common))
    && KeysFrom(batches, b, ps)
    && (Distinct(ps) ==> forall p :: Batch(b, p) == Batch(batches, p) + if p in ps then [Out(p, line)] else [])
  }

  lemma {:induction false} MoreDistributed(texts: seq<seq<Line>>, prefixes: seq<seq<Prefix>>, common: Prefix,
          batches: Batches, before: Batches, b: Batches, n: nat, i: nat)
    requires SameShape(texts, prefixes) && n < |texts[0]| && i < |texts| && OwnPrefixes(prefixes, common)
    requires BatchesFit(before, prefixes, common) && DistributedTo(texts, prefixes, batches, before, n, i)
    requires texts[i] in texts && OneMoreLine(prefixes[i], common, before, texts[i][n], b)
    ensures BatchesFit(b, prefixes, common) && DistributedTo(texts, prefixes, batches, b, n, i + 1)
  {
    MoreLabelled(before, b, prefixes, i);
    OneMoreText(texts, prefixes, batches, before, b, n, i);
  }

  method DistributeText(ps: seq<Prefix>, ghost common: Prefix, batches: Batches, line: Line) returns (b: Batches)
    ensures OneMoreLine(ps, common, batches, line, b)
  {
    b := batches;
    var k := 0;
    while k < |ps|
      invariant k <= |ps| && (BatchesOk(batches, common) && common !in ps ==> BatchesOk(b, common))
      invariant KeysFrom(batches, b, ps)
      invariant Distinct(ps) ==>
                  forall p :: Batch(b, p) == Batch(batches, p) + if p in ps[..k] then [Out(p, line)] else []
    {
      var p := ps[k];
      assert ps[..k + 1] == ps[..k] + [p];
      b := b[p := Batch(b, p) + [Out(p, line)]];
      k := k + 1;
    }
    assert ps[..k] == ps;
  }

  lemma {:induction false} OneLine(l: Line, q: Prefix, p: Prefix, common: Prefix)
    requires q == p || q == common
    ensures Restricted([Out(q, l)], p, common) == [l]
  {
    assert Restricted([Out(q, l)], p, common) == [l] + Restricted([], p, common);
  }

  lemma {:induction false} DistributedLine(text: seq<Line>, common: Prefix, result: seq<Out>, batches: Batches,
          b: Batches, n: nat, p: Prefix)
    requires n < |text| && InterleavedAt(text, common, result, batches, n, p)
    requires Batch(b, p) == Batch(batches, p) + [Out(p, text[n])]
    ensures InterleavedAt(text, common, result, b, n + 1, p)
  {
    RestrictedConcat(Batch(batches, p), [Out(p, text[n])], p, common);
    OneLine(text[n], p, p, common);
    assert text[..n + 1] == text[..n] + [text[n]];
  }

  lemma {:induction false} CommonLine(text: seq<Line>, common: Prefix, result: seq<Out>, batches: Batches,
          flushed: seq<Out>, n: nat, p: Prefix)
    requires n < |text| && InterleavedAt(text, common, result, batches, n, p)
    requires FlushedAt(result, batches, flushed, p, common)
    ensures InterleavedAt(text, common, flushed + [Out(common, text[n])], map[], n + 1, p)
  {
    RestrictedConcat(flushed, [Out(common, text[n])], p, common);
    OneLine(text[n], common, p, common);
    assert text[..n + 1] == text[..n] + [text[n]];
  }

  lemma {:induction false} CommonLines(texts: seq<seq<Line>>, prefixes: seq<seq<Prefix>>, common: Prefix,
          result: seq<Out>, batches: Batches, flushed: seq<Out>, n: nat)
    requires SameShape(texts, prefixes) && OwnPrefixes(prefixes, common) && n < |texts[0]| && SameLine(texts, n)
    requires Interleaved(texts, prefixes, common, result, batches, n)
    requires forall p :: p != common ==> FlushedAt(result, batches, flushed, p, common)
    requires FromBatches(result, batches, flushed)
    ensures Interleaved(texts, prefixes, common, flushed + [Out(common, texts[0][n])], map[], n + 1)
  {
    FlushedLabelled(result, batches, flushed, prefixes, common);
    var m := n + 1;
    forall i, p | 0 <= i < |texts| && p in prefixes[i]
      ensures texts[i] in texts && InterleavedAt(texts[i], common, flushed + [Out(common, texts[0][n])], map[], m, p)
    {
      assert texts[i] in texts;
      CommonLine(texts[i], common, result, batches, flushed, n, p);
    }
  }

  lemma {:induction false} DistributedLines(texts: seq<seq<Line>>, prefixes: seq<seq<Prefix>>, common: Prefix,
          result: seq<Out>, batches: Batches, b: Batches, n: nat)
    requires SameShape(texts, prefixes) && n < |texts[0]| && BatchesFit(b, prefixes, common)
    requires Interleaved(texts, prefixes, common, result, batches, n) && Distributed(texts, prefixes, batches, b, n)
    ensures Interleaved(texts, prefixes, common, result, b, n + 1)
  {
    var m := n + 1;
    forall i, p | 0 <= i < |texts| && p in prefixes[i]
      ensures texts[i] in texts && InterleavedAt(texts[i], common, result, b, m, p)
    {
      assert texts[i] in texts;
      assert DistributedAt(texts[i], batches, b, n, i, |texts|, p);
      DistributedLine(texts[i], common, result, batches, b, n, p);
    }
  }

  ghost predicate OnlyCommon(outs: seq<Out>, common: Prefix) {
    forall o :: o in outs ==> o.prefix == common
  }

  /** Every text can be told from the result: the lines with one of its prefixes or with the common prefix. */
  ghost predicate TellsApart(texts: seq<seq<Line>>, prefixes: seq<seq<Prefix>>, common: Prefix, result: seq<Out>)
    requires |texts| == |prefixes|
  {
    forall i, p :: 0 <= i < |texts| && p in prefixes[i] ==> Restricted(result, p, common) == texts[i]
  }

  lemma {:induction false} FlushedTellsApart(texts: seq<seq<Line>>, prefixes: seq<seq<Prefix>>, common: Prefix,
          result: seq<Out>, batches: Batches, flushed: seq<Out>)
    requires SameShape(texts, prefixes) && OwnPrefixes(prefixes, common)
    requires Interleaved(texts, prefixes, common, result, batches, |texts[0]|)
    requires forall p :: p != common ==> FlushedAt(result, batches, flushed, p, common)
    requires FromBatches(result, batches, flushed)
    ensures TellsApart(texts, prefixes, common, flushed) && Labelled(flushed, prefixes, common)
  {
    FlushedLabelled(result, batches, flushed, prefixes, common);
    forall i, p | 0 <= i < |texts| && p in prefixes[i] ensures Restricted(flushed, p, common) == texts[i] {
      assert texts[i] in texts;
      assert InterleavedAt(texts[i], common, result, batches, |texts[i]|, p);
      assert FlushedAt(result, batches, flushed, p, common);
      assert texts[i][..|texts[i]|] == texts[i];
    }
  }

  /** A common line is a sync point: the batches come first. */
  method StepCommon(texts: seq<seq<Line>>, prefixes: seq<seq<Prefix>>, common: Prefix, result: seq<Out>,
          batches: Batches, n: nat)
    returns (r: seq<Out>)
    requires SameShape(texts, prefixes) && n < |texts[0]| && SameLine(texts, n)
    ensures r != [] && (batches == map[] && OnlyCommon(result, common) ==> OnlyCommon(r, common))
    ensures OwnPrefixes(prefixes, common) && Interleaved(texts, prefixes, common, result, batches, n) ==>
              Interleaved(texts, prefixes, common, r, map[], n + 1)
    ensures BatchesOk(batches, common) && Synced(texts, common, result, n) ==> Synced(texts, common, r, n + 1)
  {
    var flushed := Flush(result, batches, common);
    if BatchesOk(batches, common) && Synced(texts, common, result, n) {
      assert texts[0] in texts;
      SyncedNext(texts, common, result, flushed, n);
    }
    if OwnPrefixes(prefixes, common) && Interleaved(texts, prefixes, common, result, batches, n) {
      CommonLines(texts, prefixes, common, result, batches, flushed, n);
    }
    r := flushed + [Out(common, texts[0][n])];
  }

  method StepDiffering(texts: seq<seq<Line>>, prefixes: seq<seq<Prefix>>, ghost common: Prefix,
          ghost result: seq<Out>, batches: Batches, n: nat)
    returns (b: Batches)
    requires SameShape(texts, prefixes) && n < |texts[0]|
    ensures OwnPrefixes(prefixes, common) && Interleaved(texts, prefixes, common, result, batches, n) ==>
              Interleaved(texts, prefixes, common, result, b, n + 1)
  {
    b := Distribute(texts, prefixes, common, batches, n);
    if OwnPrefixes(prefixes, common) && Interleaved(texts, prefixes, common, result, batches, n) {
      DistributedLines(texts, prefixes, common, result, batches, b, n);
    }
  }

  method FinalFlush(texts: seq<seq<Line>>, prefixes: seq<seq<Prefix>>, ghost common: Prefix, result: seq<Out>,
          batches: Batches)
    returns (r: seq<Out>)
    requires SameShape(texts, prefixes)
    ensures |result| <= |r| && (batches == map[] && OnlyCommon(result, common) ==> OnlyCommon(r, common))
    ensures OwnPrefixes(prefixes, common) && Interleaved(texts, prefixes, common, result, batches, |texts[0]|) ==>
              TellsApart(texts, prefixes, common, r) && Labelled(r, prefixes, common)
    ensures BatchesOk(batches, common) && Synced(texts, common, result, |texts[0]|) ==>
              CommonPart(r, common) == SharedLines(texts, |texts[0]|) && InOrder(r, common)
  {
    r := Flush(result, batches, common);
    if BatchesOk(batches, common) && Synced(texts, common, result, |texts[0]|) {
      ExtendedInOrder(result, r, common);
    }
    if OwnPrefixes(prefixes, common) && Interleaved(texts, prefixes, common, result, batches, |texts[0]|) {
      FlushedTellsApart(texts, prefixes, common, result, batches, r);
    }
  }

  predicate AllSame(texts: seq<seq<Line>>, n: nat)
    requires forall t :: t in texts ==> n <= |t|
  {
    forall m :: 0 <= m < n ==> SameLine(texts, m)
  }

  /** One line of all texts. */
  method StepLine(texts: seq<seq<Line>>, prefixes: seq<seq<Prefix>>, common: Prefix, result: seq<Out>,
          batches: Batches, n: nat)
    returns (r: seq<Out>, b: Batches)
    requires SameShape(texts, prefixes) && n < |texts[0]|
    ensures result != [] || SameLine(texts, n) ==> r != []
    ensures SameLine(texts, n) && batches == map[] && OnlyCommon(result, common) ==>
              b == map[] && OnlyCommon(r, common)
    ensures OwnPrefixes(prefixes, common) && Interleaved(texts, prefixes, common, result, batches, n) ==>
              Interleaved(texts, prefixes, common, r, b, n + 1)
    ensures BatchesOk(batches, common) && Synced(texts, common, result, n) ==> Synced(texts, common, r, n + 1)
  {
    if SameLine(texts, n) {
      r := StepCommon(texts, prefixes, common, result, batches, n);
      b := map[];
    } else {
      r := result;
      b := StepDiffering(texts, prefixes, common, result, batches, n);
    }
  }

  lemma {:induction false} NothingYet(texts: seq<seq<Line>>, prefixes: seq<seq<Prefix>>, common: Prefix)
    requires SameShape(texts, prefixes)
    ensures Interleaved(texts, prefixes, common, [], map[], 0) && Synced(texts, common, [], 0)
  {
  }

  /** A result that is not empty gives every text back, and has no other lines. There is one exactly if the
      first line is common, and the first text has a prefix if any line differs. */
  method BreakDownBlock(texts: seq<seq<Line>>, prefixes: seq<seq<Prefix>>, common: Prefix) returns (result: seq<Out>)
    requires SameShape(texts, prefixes)
    ensures result != [] <==> SameLine(texts, 0) && (prefixes[0] != [] || AllSame(texts, |texts[0]|))
    ensures result != [] && OwnPrefixes(prefixes, common) ==>
              TellsApart(texts, prefixes, common, result) && Labelled(result, prefixes, common)
    ensures result != [] && OwnPrefixes(prefixes, common) ==>
              CommonPart(result, common) == SharedLines(texts, |texts[0]|) && InOrder(result, common)
    ensures AllSame(texts, |texts[0]|) ==> OnlyCommon(result, common)
  {
    assert texts[0] in texts;
    NothingYet(texts, prefixes, common);
    result := [];
    if !SameLine(texts, 0) {
      return;
    }
    var batches: Batches := map[];
    var n := 0;
    while n < |texts[0]|
      invariant n <= |texts[0]| && (n > 0 ==> result != [])
      invariant SomeSame(texts, prefixes, common, result, batches, n)
      invariant OwnPrefixes(prefixes, common) ==>
                  Interleaved(texts, prefixes, common, result, batches, n) && Synced(texts, common, result, n)
    {
      if prefixes[0] == [] && !SameLine(texts, n) {
        NotAllSame(texts, n);
        return [];
      }
      ghost var before, waiting := result, batches;
      result, batches := StepLine(texts, prefixes, common, result, batches, n);
      SameNext(texts, prefixes, common, before, waiting, result, batches, n);
      n := n + 1;
    }
    result := FinalFlush(texts, prefixes, common, result, batches);
  }

  /** Lines are the same in all texts if the first has no prefix, and if all are so far, there are common lines only. */
  ghost predicate SomeSame(texts: seq<seq<Line>>, prefixes: seq<seq<Prefix>>, common: Prefix, result: seq<Out>,
          batches: Batches, n: nat)
    requires SameShape(texts, prefixes) && n <= |texts[0]|
  {
    && (prefixes[0] == [] ==> AllSame(texts, n))
    && (AllSame(texts, n) ==> batches == map[] && OnlyCommon(result, common))
  }

  lemma {:induction false} SameNext(texts: seq<seq<Line>>, prefixes: seq<seq<Prefix>>, common: Prefix,
          result: seq<Out>, batches: Batches, r: seq<Out>, b: Batches, n: nat)
    requires SameShape(texts, prefixes) && n < |texts[0]|
    requires SomeSame(texts, prefixes, common, result, batches, n) && (prefixes[0] == [] ==> SameLine(texts, n))
    requires SameLine(texts, n) && batches == map[] && OnlyCommon(result, common) ==>
               b == map[] && OnlyCommon(r, common)
    ensures SomeSame(texts, prefixes, common, r, b, n + 1)
  {
  }

  lemma {:induction false} NotAllSame(texts: seq<seq<Line>>, n: nat)
    requires texts != [] && (forall t :: t in texts ==> |t| == |texts[0]|) && n < |texts[0]| && !SameLine(texts, n)
    ensures !AllSame(texts, |texts[0]|)
  {
  }
}
