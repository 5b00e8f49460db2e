/** Processing the files of a directory tree in chunks of a fixed size. */
module DemangleTree {
  import opened Options
  import opened DemangleResults

  datatype Row = Row(dir: Dir, result: Result)

  // ---- entries that have been started ----

  /** The entries with `part`, which has been taken from the first of them already, put back. */
  function Joined(part: seq<File>, entries: seq<Entry>): seq<Entry> {
    if part == [] || entries == [] then entries else [entries[0].(files := part + entries[0].files)] + entries[1..]
  }

  /** Whole entries have been taken; if `incomplete`, only the beginning of the last of them. */
  ghost predicate Took(before: seq<Entry>, taken: seq<Entry>, incomplete: bool, after: seq<Entry>) {
    if incomplete then
      && taken != [] && after != [] && after[0].dir == taken[|taken| - 1].dir
      && before == taken[..|taken| - 1] + Joined(taken[|taken| - 1].files, after)
    else before == taken + after
  }

  /** The number of entries that have been completed. */
  function Completed(taken: seq<Entry>, incomplete: bool): (n: int)
    requires incomplete ==> taken != []
    ensures 0 <= n <= |taken|
  {
    if incomplete then |taken| - 1 else |taken|
  }

  /** What has been taken of the first entry that is left. */
  function PartAfter(part: seq<File>, taken: seq<Entry>, incomplete: bool): seq<File>
    requires incomplete ==> taken != []
  {
    if incomplete then Joined(part, taken)[|taken| - 1].files else []
  }

  lemma {:induction false} JoinedShape(part: seq<File>, entries: seq<Entry>)
    ensures |Joined(part, entries)| == |entries|
    ensures forall i :: 0 <= i < |entries| ==> Joined(part, entries)[i].dir == entries[i].dir
    ensures forall i :: 0 < i < |entries| ==> Joined(part, entries)[i] == entries[i]
    ensures entries != [] ==> Joined(part, entries)[0].files == part + entries[0].files
  {
    if part == [] && entries != [] {
      assert part + entries[0].files == entries[0].files;
    }
  }

  lemma {:induction false} JoinedTwice(part: seq<File>, more: seq<File>, after: seq<Entry>)
    requires more != [] && after != []
    ensures Joined(part, Joined(more, after)) == Joined(part + more, after)
  {
    assert Joined(more, after)[0].files == more + after[0].files;
    assert part + (more + after[0].files) == (part + more) + after[0].files;
    if part == [] {
      assert part + more == more;
    } else {
      assert Joined(more, after)[1..] == after[1..];
    }
  }

  lemma {:induction false} JoinedPrefix(part: seq<File>, a: seq<Entry>, b: seq<Entry>)
    requires a != []
    ensures Joined(part, a + b) == Joined(part, a) + b
  {
    if part != [] {
      assert (a + b)[0] == a[0] && (a + b)[1..] == a[1..] + b;
      assert [a[0].(files := part + a[0].files)] + (a[1..] + b) == ([a[0].(files := part + a[0].files)] + a[1..]) + b;
    }
  }

  /** Nothing is lost or taken twice. */
  lemma {:induction false} TookAll(part: seq<File>, before: seq<Entry>, taken: seq<Entry>, incomplete: bool,
          after: seq<Entry>)
    requires Took(before, taken, incomplete, after) && (taken == [] ==> before == [])
    requires (incomplete ==> taken[|taken| - 1].files != [])
    ensures Joined(part, before)
         == Joined(part, taken)[..Completed(taken, incomplete)] + Joined(PartAfter(part, taken, incomplete), after)
    ensures incomplete ==> PartAfter(part, taken, incomplete) != []
  {
    if !incomplete {
      if taken != [] {
        JoinedPrefix(part, taken, after);
        assert Joined(part, taken)[..|Joined(part, taken)|] == Joined(part, taken);
        JoinedShape(part, taken);
      }
    } else {
      TookPart(part, before, taken, after);
    }
  }

  lemma {:induction false} TookPart(part: seq<File>, before: seq<Entry>, taken: seq<Entry>, after: seq<Entry>)
    requires Took(before, taken, true, after) && taken[|taken| - 1].files != []
    ensures Joined(part, before) == Joined(part, taken)[..|taken| - 1] + Joined(PartAfter(part, taken, true), after)
    ensures PartAfter(part, taken, true) != []
  {
    var last := |taken| - 1;
    var t := taken[last];
    JoinedShape(part, taken);
    if last == 0 {
      assert taken[..0] == [] && [] + Joined(t.files, after) == Joined(t.files, after);
      JoinedTwice(part, t.files, after);
    } else {
      JoinedPrefix(part, taken[..last], Joined(t.files, after));
      assert Joined(part, taken)[..last] == Joined(part, taken[..last]) by {
        JoinedPrefix(part, taken[..last], [t]);
        assert taken[..last] + [t] == taken;
        JoinedShape(part, taken[..last]);
      }
    }
  }

  function Rows(process: Process, entries: seq<Entry>): seq<Row> {
    if entries == [] then [] else
      Rows(process, entries[..|entries| - 1])
          + [Row(entries[|entries| - 1].dir, Sum(process, entries[|entries| - 1].files))]
  }

  /** Every row has its directory's name and what the directory's files come to. */
  ghost predicate RowsTotal(process: Process, entries: seq<Entry>, rows: seq<Row>) {
    |rows| == |entries|
    && forall i :: 0 <= i < |rows| ==>
         rows[i].dir == entries[i].dir && Totals(process, entries[i].files, rows[i].result)
  }

  lemma {:induction false} RowsContain(process: Process, entries: seq<Entry>)
    ensures RowsTotal(process, entries, Rows(process, entries))
  {
    if entries != [] {
      RowsContain(process, entries[..|entries| - 1]);
      SumContains(process, entries[|entries| - 1].files);
    }
  }

  lemma {:induction false} IdleRowsContain(process: Process, entries: seq<Entry>)
    ensures forall row :: row in WithoutFiles(entries) ==> Totals(process, [], row.result)
  {
    if entries != [] {
      IdleRowsContain(process, entries[..|entries| - 1]);
      SumContains(process, []);
    }
  }

  lemma {:induction false} ReportContains(process: Process, walk: seq<Entry>)
    ensures RowsTotal(process, WithFiles(walk), Rows(process, WithFiles(walk)))
    ensures forall row :: row in WithoutFiles(walk) ==> Totals(process, [], row.result)
    ensures Totals(process, Flat(WithFiles(walk)), Sum(process, Flat(WithFiles(walk))))
  {
    RowsContain(process, WithFiles(walk));
    IdleRowsContain(process, walk);
    SumContains(process, Flat(WithFiles(walk)));
  }

  lemma {:induction false} RowsNext(process: Process, entries: seq<Entry>, e: Entry)
    ensures Rows(process, entries + [e]) == Rows(process, entries) + [Row(e.dir, Sum(process, e.files))]
    ensures Flat(entries + [e]) == Flat(entries) + e.files
    ensures Sum(process, Flat(entries + [e])) == AddResults(Sum(process, Flat(entries)), Sum(process, e.files))
  {
    assert (entries + [e])[..|entries|] == entries;
    SumConcat(process, Flat(entries), e.files);
  }

  lemma {:induction false} FlatJoined(part: seq<File>, taken: seq<Entry>, incomplete: bool)
    requires taken != []
    ensures part + Flat(taken) == Flat(Joined(part, taken)[..Completed(taken, incomplete)])
              + PartAfter(part, taken, incomplete)
  {
    FlatPut(part, taken);
    JoinedShape(part, taken);
    var joined := Joined(part, taken);
    assert joined[..|taken|] == joined;
    assert joined == joined[..|taken| - 1] + [joined[|taken| - 1]];
  }

  lemma {:induction false} FlatPut(part: seq<File>, taken: seq<Entry>)
    requires taken != []
    ensures Flat(Joined(part, taken)) == part + Flat(taken)
  {
    var last := |taken| - 1;
    var first, t := taken[..last], taken[last];
    assert taken == first + [t];
    if last == 0 {
      assert first == [];
      FlatOne(t);
      FlatOne(t.(files := part + t.files));
      assert part == [] ==> part + t.files == t.files;
      assert Joined(part, [t]) == [t.(files := part + t.files)];
    } else {
      JoinedPrefix(part, first, [t]);
      FlatPut(part, first);
      FlatNext(Joined(part, first), t);
      FlatNext(first, t);
      assert part + (Flat(first) + t.files) == (part + Flat(first)) + t.files;
    }
  }

  lemma {:induction false} FlatOne(e: Entry)
    ensures Flat([e]) == e.files
  {
    FlatNext([], e);
    assert [] + [e] == [e] && [] + e.files == e.files;
  }

  /** The result that a directory's new files are added to: `start` for the first of a chunk. */
  function Base(start: Result, taken: seq<Entry>, i: nat): Result
    requires i < |taken|
  {
    var r := if i == 0 then start else NOTHING;
    r.(nfiles := r.nfiles + |taken[i].files|)
  }

  function Dirs(taken: seq<Entry>): set<Dir> {
    set e | e in taken :: e.dir
  }

  ghost predicate Based(start: Result, taken: seq<Entry>, results: map<Dir, Result>) {
    results.Keys == Dirs(taken) && forall i :: 0 <= i < |taken| ==> BasedAt(start, taken, results, i)
  }

  ghost predicate BasedAt(start: Result, taken: seq<Entry>, results: map<Dir, Result>, i: nat)
    requires i < |taken|
  {
    taken[i].dir in results && results[taken[i].dir] == Base(start, taken, i)
  }

  lemma {:induction false} SumOfNothing(process: Process)
    ensures Sum(process, []) == NOTHING
  {
  }

  /** Adding the results of the files that were taken to the base gives the sum of all files. */
  lemma {:induction false} BaseCompleted(process: Process, part: seq<File>, start: Result, taken: seq<Entry>, i: nat)
    requires start == Sum(process, part) && i < |taken|
    ensures AddAll(process, Base(start, taken, i), taken[i].files) == Sum(process, Joined(part, taken)[i].files)
  {
    JoinedShape(part, taken);
    var files := taken[i].files;
    var before := if i == 0 then part else [];
    SumOfNothing(process);
    assert before + files == Joined(part, taken)[i].files;
    SumContinued(process, before, files, Sum(process, before), AddAll(process, NOTHING, before));
  }

  // ---- rows of directories with and without files ----

  function Busy(rows: seq<Row>): seq<Row> {
    if rows == [] then [] else
      Busy(rows[..|rows| - 1]) + if rows[|rows| - 1].result.nfiles != 0 then [rows[|rows| - 1]] else []
  }

  function Idle(rows: seq<Row>): seq<Row> {
    if rows == [] then [] else
      Idle(rows[..|rows| - 1]) + if rows[|rows| - 1].result.nfiles == 0 then [rows[|rows| - 1]] else []
  }

  lemma {:induction false} RowPrinted(rows: seq<Row>, row: Row)
    ensures Busy(rows + [row]) == Busy(rows) + if row.result.nfiles != 0 then [row] else []
    ensures Idle(rows + [row]) == Idle(rows) + if row.result.nfiles == 0 then [row] else []
  {
    assert (rows + [row])[..|rows|] == rows;
  }

  function WithFiles(entries: seq<Entry>): seq<Entry> {
    if entries == [] then [] else
      WithFiles(entries[..|entries| - 1]) + if entries[|entries| - 1].files != [] then [entries[|entries| - 1]] else []
  }

  /** The rows of an entry without files. */
  function IdleRow(e: Entry): seq<Row> {
    if e.files == [] then [Row(e.dir, NOTHING)] else []
  }

  function WithoutFiles(entries: seq<Entry>): seq<Row> {
    if entries == [] then [] else WithoutFiles(entries[..|entries| - 1]) + IdleRow(entries[|entries| - 1])
  }

  lemma {:induction false} WithFilesIsWalk(entries: seq<Entry>)
    requires Named(entries)
    ensures Walk(WithFiles(entries))
    ensures forall i :: 0 <= i < |WithFiles(entries)| ==> WithFiles(entries)[i] in entries
  {
    if entries != [] {
      var last := |entries| - 1;
      NamedPrefix(entries, last);
      assert NamedAt(entries, last);
      WithFilesIsWalk(entries[..last]);
      var before := WithFiles(entries[..last]);
      forall x | x in entries[..last] ensures x in entries && x.dir != entries[last].dir {
        var i :| 0 <= i < last && entries[i] == x;
        assert Apart(entries, i, last);
      }
      var all := WithFiles(entries);
      if entries[last].files != [] {
        WalkExtended(before, entries[last]);
        assert all == before + [entries[last]];
      } else {
        assert all == before;
      }
    }
  }

  lemma {:induction false} WalkExtended(entries: seq<Entry>, e: Entry)
    requires Walk(entries) && e.files != [] && NamedAt([e], 0)
    requires forall i :: 0 <= i < |entries| ==> entries[i].dir != e.dir
    ensures Walk(entries + [e])
  {
    var all := entries + [e];
    forall i | 0 <= i < |all| ensures NamedAt(all, i) {
      assert if i < |entries| then NamedAt(entries, i) else NamedAt([e], 0);
    }
    forall i, j | 0 <= i < j < |all| ensures Apart(all, i, j) {
      if j < |entries| {
        assert Apart(entries, i, j);
      }
    }
  }

  /** There are no object files in the current directory. */
  predicate NoneInDot(entries: seq<Entry>) {
    forall i :: 0 <= i < |entries| ==> entries[i].dir == "." ==> entries[i].files == []
  }

  lemma {:induction false} WithFilesNoDot(entries: seq<Entry>)
    ensures NoDot(WithFiles(entries)) <==> NoneInDot(entries)
  {
    if entries != [] {
      var first, e := entries[..|entries| - 1], entries[|entries| - 1];
      WithFilesNoDot(first);
      NoDotNext(WithFiles(first), e);
      assert WithFiles(entries) == if e.files != [] then WithFiles(first) + [e] else WithFiles(first);
      NoneInDotNext(first, e);
      assert entries == first + [e];
    }
  }

  lemma {:induction false} NoDotNext(entries: seq<Entry>, e: Entry)
    ensures NoDot(entries + [e]) <==> NoDot(entries) && e.dir != "."
  {
    var all := entries + [e];
    assert forall i :: 0 <= i < |entries| ==> all[i] == entries[i];
    assert all[|entries|] == e;
  }

  lemma {:induction false} NoneInDotNext(entries: seq<Entry>, e: Entry)
    ensures NoneInDot(entries + [e]) <==> NoneInDot(entries) && (e.dir == "." ==> e.files == [])
  {
    var all := entries + [e];
    assert forall i :: 0 <= i < |entries| ==> all[i] == entries[i];
    assert all[|entries|] == e;
  }

  lemma {:induction false} OneWithFiles(e: Entry)
    ensures WithFiles([e]) == if e.files != [] then [e] else []
  {
    assert [e][..0] == [];
  }

  lemma {:induction false} WithFilesPrefix(entries: seq<Entry>, n: nat)
    requires n <= |entries|
    ensures WithFiles(entries[..n]) <= WithFiles(entries)
    decreases |entries|
  {
    if n < |entries| {
      WithFilesPrefix(entries[..|entries| - 1], n);
      assert entries[..|entries| - 1][..n] == entries[..n];
    } else {
      assert entries[..n] == entries;
    }
  }

  /** The result for the entry's directory is the sum over its files. */
  ghost predicate Summed(process: Process, results: map<Dir, Result>, e: Entry) {
    e.dir in results && results[e.dir] == Sum(process, e.files)
  }

  class MapContext {
    const process: Process
    var rincomplete: Option<Result>
    var rcumulative: Result
    var pendingObjs: seq<Entry>
    var npending: int
    /** What has been printed, and the files that have been handed to the pool. */
    var printed: seq<Row>
    var processed: seq<File>

    /** The directories that have been completed, and what has been processed of the first one that has not. */
    ghost var done: seq<Entry>
    ghost var part: seq<File>

    ghost predicate Valid()
      reads this
    {
      && Walk(pendingObjs) && (part != [] ==> pendingObjs != [])
      && Walk(All()) && NoDot(done) && (part != [] ==> pendingObjs[0].dir != ".")
      && npending == Count(pendingObjs)
      && rincomplete == (if part == [] then None else Some(Sum(process, part)))
      && Reported() && processed == Flat(done) + part
    }

    /** The completed directories have been reported, and added to the cumulative result. */
    ghost predicate Reported()
      reads this
    {
      rcumulative == Sum(process, Flat(done)) && Busy(printed) == Rows(process, done)
    }

    /** All directories with files so far. */
    ghost function All(): seq<Entry>
      reads this
    {
      done + Joined(part, pendingObjs)
    }

    constructor (process: Process)
      ensures Valid() && this.process == process && done == [] && part == [] && pendingObjs == [] && printed == []
    {
      this.process := process;
      rincomplete, rcumulative, pendingObjs, npending, printed, processed := None, NOTHING, [], 0, [], [];
      done, part := [], [];
    }

    /** Takes files off the pending directories until the chunk is full. */
    method TakeChunk(chunkSize: nat)
      returns (objs: seq<File>, results: map<Dir, Result>, orderedDirs: seq<Dir>, incomplete: bool,
            ghost taken: seq<Entry>)
      requires chunkSize > 0 && Walk(pendingObjs) && npending == Count(pendingObjs)
      requires rincomplete.Some? ==> pendingObjs != []
      modifies this`rincomplete, this`pendingObjs, this`npending
      ensures Took(old(pendingObjs), taken, incomplete, pendingObjs) && Walk(taken) && objs == Flat(taken)
      ensures InOrder(orderedDirs, taken)
      ensures Based(if old(rincomplete).Some? then old(rincomplete).value else NOTHING, taken, results)
      ensures npending == Count(pendingObjs) && rincomplete == None && Walk(pendingObjs)
      ensures |objs| <= chunkSize && (|objs| == chunkSize || npending == 0) && npending == old(npending) - |objs|
      ensures taken == [] ==> old(pendingObjs) == []
    {
      ghost var start := if rincomplete.Some? then rincomplete.value else NOTHING;
      ghost var before := pendingObjs;
      objs, results, orderedDirs, incomplete, taken := [], map[], [], false, [];
      CountPositive(pendingObjs);
      while npending > 0 && |objs| < chunkSize
        invariant Taking(start, before, taken, incomplete, pendingObjs, objs, results, orderedDirs, npending)
        invariant rincomplete == (if taken == [] then old(rincomplete) else None)
        invariant |objs| <= chunkSize && (incomplete ==> |objs| == chunkSize)
        decreases npending
      {
        objs, results, orderedDirs, incomplete, taken :=
          TakeNext(chunkSize, objs, results, orderedDirs, start, before, taken);
      }
    }

    method TakeNext(chunkSize: nat, objs: seq<File>, results: map<Dir, Result>, orderedDirs: seq<Dir>,
            ghost start: Result, ghost before: seq<Entry>, ghost taken: seq<Entry>)
      returns (objs': seq<File>, results': map<Dir, Result>, orderedDirs': seq<Dir>, incomplete: bool,
            ghost taken': seq<Entry>)
      requires Taking(start, before, taken, false, pendingObjs, objs, results, orderedDirs, npending)
      requires npending > 0 && |objs| < chunkSize
      requires rincomplete == None || taken == []
      requires taken == [] ==> start == if rincomplete.Some? then rincomplete.value else NOTHING
      modifies this`rincomplete, this`pendingObjs, this`npending
      ensures Taking(start, before, taken', incomplete, pendingObjs, objs', results', orderedDirs', npending)
      ensures taken' != [] && rincomplete == None && npending < old(npending)
      ensures |objs'| <= chunkSize && (incomplete ==> |objs'| == chunkSize)
    {
      TakingGoesOn(start, before, taken, pendingObjs, objs, results, orderedDirs, npending);
      ghost var first := pendingObjs[0];
      ghost var n := Fitting(chunkSize - |objs|, first);
      ghost var t := first.(files := first.files[..n]);
      ghost var re := if rincomplete.Some? then rincomplete.value else NOTHING;
      TakingStep(start, before, taken, pendingObjs, objs, results, orderedDirs, npending, n, re, t,
                 AfterTaking(pendingObjs, n));
      objs', results', orderedDirs', incomplete := TakeSome(chunkSize, objs, results, orderedDirs);
      taken' := taken + [t];
      assert objs' == objs + t.files && orderedDirs' == orderedDirs + [t.dir];
      assert results' == results[t.dir := re.(nfiles := re.nfiles + |t.files|)];
    }

    /** How many files of a directory fit into what is left of a chunk. */
    static function Fitting(nneeded: nat, e: Entry): nat {
      if nneeded < |e.files| then nneeded else |e.files|
    }

    /** Takes as many files as possible off the first pending directory. */
    method TakeSome(chunkSize: nat, objs: seq<File>, results: map<Dir, Result>, orderedDirs: seq<Dir>)
      returns (objs': seq<File>, results': map<Dir, Result>, orderedDirs': seq<Dir>, incomplete: bool)
      requires pendingObjs != [] && |objs| < chunkSize
      modifies this`rincomplete, this`pendingObjs, this`npending
      ensures rincomplete == None
      ensures var first, start := old(pendingObjs)[0], old(rincomplete);
              var n, re := Fitting(chunkSize - |objs|, first), if start.Some? then start.value else NOTHING;
              && pendingObjs == AfterTaking(old(pendingObjs), n) && npending == old(npending) - n
              && objs' == objs + first.files[..n] && orderedDirs' == orderedDirs + [first.dir]
              && results' == results[first.dir := re.(nfiles := re.nfiles + n)] && incomplete == (n < |first.files|)
    {
      var re := NOTHING;
      if rincomplete != None {
        re := rincomplete.value;
        rincomplete := None;
      }
      var first := pendingObjs[0];
      var nneeded := chunkSize - |objs|;
      var navail := |first.files|;
      var ntaken := if nneeded < navail then nneeded else navail;
      objs' := objs + first.files[..ntaken];
      pendingObjs := [first.(files := first.files[ntaken..])] + pendingObjs[1..];
      npending := npending - ntaken;
      incomplete := false;
      if ntaken == navail {
        pendingObjs := pendingObjs[1..];
      } else {
        incomplete := true;
      }
      orderedDirs' := orderedDirs + [first.dir];
      results' := results[first.dir := re.(nfiles := re.nfiles + ntaken)];
    }

    /** Processes the files of a chunk and adds their results to those of their directories; that
        a file's directory part is none of them is an error. */
    method AddMapped(objs: seq<File>, results: map<Dir, Result>) returns (r: Option<map<Dir, Result>>)
      ensures r.Some? <==> forall f :: f in objs ==> f.dir in results
      ensures r.Some? ==> Mapped(process, results, r.value, objs)
    {
      var m := results;
      var n := 0;
      MappedNothing(process, results);
      while n < |objs|
        invariant n <= |objs| && Mapped(process, results, m, objs[..n])
        invariant forall k :: 0 <= k < n ==> objs[k].dir in results
      {
        var f := objs[n];
        if f.dir !in m {
          assert f in objs;
          return None;
        }
        MappedNext(process, results, m, objs[..n], f);
        assert objs[..n + 1] == objs[..n] + [f];
        m := m[f.dir := AddResults(m[f.dir], OfFile(process(f)))];
        n := n + 1;
      }
      assert objs[..n] == objs;
      return Some(m);
    }

    method ReportOne(c: Dir, re: Result, ghost e: Entry)
      requires c == e.dir && re == Sum(process, e.files) && e.files != []
      requires Reported()
      modifies this`rcumulative, this`printed, this`done
      ensures done == old(done) + [e]
      ensures Reported()
      ensures Idle(printed) == old(Idle(printed))
    {
      RowsNext(process, done, e);
      RowPrinted(printed, Row(c, re));
      rcumulative := AddResults(rcumulative, re);
      printed := printed + [Row(c, re)];
      done := done + [e];
    }

    /** Reports the directories that have been completed, and adds them to the cumulative result. */
    method Report(orderedDirs: seq<Dir>, results: map<Dir, Result>, ghost entries: seq<Entry>)
      requires InOrder(orderedDirs, entries)
      requires forall i :: 0 <= i < |entries| ==> entries[i].files != [] && Summed(process, results, entries[i])
      requires Reported()
      modifies this`rcumulative, this`printed, this`done
      ensures done == old(done) + entries
      ensures Reported()
      ensures Idle(printed) == old(Idle(printed))
    {
      var n := 0;
      AllDone(done, entries);
      while n < |orderedDirs|
        invariant n <= |orderedDirs| && done == old(done) + entries[..n]
        invariant Reported()
        invariant Idle(printed) == old(Idle(printed))
      {
        OneMoreDone(old(done), entries, n);
        ReportOne(orderedDirs[n], results[orderedDirs[n]], entries[n]);
        n := n + 1;
      }
      AllDone(old(done), entries);
    }

    /** One chunk: it is full, or nothing is left. It fails if it has files in the current directory. */
    method ProcessOneChunk(chunkSize: nat) returns (ok: bool)
      requires Valid() && chunkSize > 0
      modifies this
      ensures ok ==> Valid() && All() == old(All()) && Idle(printed) == old(Idle(printed))
      ensures ok ==> npending == if old(npending) <= chunkSize then 0 else old(npending) - chunkSize
      ensures !ok ==> !NoDot(old(All())) && done == old(done) && printed == old(printed)
      ensures !ok ==> rcumulative == old(rcumulative)
    {
      ghost var before, part0, done0 := pendingObjs, part, done;
      var orderedDirs, mapped, incomplete, taken := MapChunk(chunkSize);
      ok := mapped.Some?;
      TakenDirs(done0, part0, before, taken, incomplete, pendingObjs);
      if ok {
        ghost var entries := Joined(part0, taken)[..Completed(taken, incomplete)];
        ghost var part' := PartAfter(part0, taken, incomplete);
        ChunkProcessed(done0, part0, taken, incomplete, entries, part');
        ChunkLeft(done0, part0, before, taken, incomplete, pendingObjs, entries, part');
        ChunkNoDot(done0, part0, taken, incomplete, pendingObjs, entries);
        Finish(orderedDirs, mapped.value, incomplete, taken);
      }
    }

    /** The files of a chunk are taken, processed, and their results added up by directory. */
    method MapChunk(chunkSize: nat)
      returns (orderedDirs: seq<Dir>, mapped: Option<map<Dir, Result>>, incomplete: bool, ghost taken: seq<Entry>)
      requires Walk(pendingObjs) && npending == Count(pendingObjs) && chunkSize > 0
      requires (part != [] ==> pendingObjs != [])
      requires rincomplete == (if part == [] then None else Some(Sum(process, part)))
      modifies this`rincomplete, this`pendingObjs, this`npending, this`processed
      ensures Took(old(pendingObjs), taken, incomplete, pendingObjs) && Walk(taken) && InOrder(orderedDirs, taken)
      ensures processed == old(processed) + Flat(taken)
      ensures npending == Count(pendingObjs) && rincomplete == None && Walk(pendingObjs)
      ensures npending == if old(npending) <= chunkSize then 0 else old(npending) - chunkSize
      ensures taken == [] ==> old(pendingObjs) == []
      ensures mapped.Some? <==> NoDot(taken)
      ensures mapped.Some? ==>
                forall i :: 0 <= i < |taken| ==> Summed(process, mapped.value, Joined(part, taken)[i])
    {
      var objs, results;
      objs, results, orderedDirs, incomplete, taken := TakeChunk(chunkSize);
      ChunkFiles(taken, results, objs);
      processed := processed + objs;
      mapped := AddMapped(objs, results);
      if mapped.Some? {
        ChunkResults(process, part, taken, results, mapped.value, objs);
      }
    }

    /** Only the last directory of a chunk can be incomplete; the others are reported. */
    method Finish(orderedDirs: seq<Dir>, results: map<Dir, Result>, incomplete: bool, ghost taken: seq<Entry>)
      requires InOrder(orderedDirs, taken) && Walk(taken) && (incomplete ==> taken != []) && rincomplete == None
      requires forall i :: 0 <= i < |taken| ==> Summed(process, results, Joined(part, taken)[i])
      requires Reported()
      modifies this`rincomplete, this`rcumulative, this`printed, this`done, this`part
      ensures done == old(done) + Joined(old(part), taken)[..Completed(taken, incomplete)]
      ensures part == PartAfter(old(part), taken, incomplete)
      ensures rincomplete == if incomplete then Some(Sum(process, part)) else None
      ensures Reported()
      ensures Idle(printed) == old(Idle(printed))
    {
      ghost var joined := Joined(part, taken);
      JoinedShape(part, taken);
      ghost var entries := joined[..Completed(taken, incomplete)];
      part := PartAfter(part, taken, incomplete);
      var completed := orderedDirs;
      if incomplete {
        assert Summed(process, results, joined[|taken| - 1]);
        rincomplete := Some(results[orderedDirs[|orderedDirs| - 1]]);
        completed := orderedDirs[..|orderedDirs| - 1];
      }
      Report(completed, results, entries);
    }

    method ProcessPendingFiles(chunkSize: nat) returns (ok: bool)
      requires Valid() && chunkSize > 0
      modifies this
      ensures ok ==> Valid() && All() == old(All()) && Idle(printed) == old(Idle(printed)) && npending < chunkSize
      ensures !ok ==> Stopped(old(All()))
    {
      ok := true;
      while npending >= chunkSize
        invariant ok && Valid() && All() == old(All()) && Idle(printed) == old(Idle(printed))
        decreases npending
      {
        ok := ProcessOneChunk(chunkSize);
        if !ok {
          return;
        }
      }
    }

    /** Files in the current directory have ended the run; the directories reported so far are right. */
    ghost predicate Stopped(all: seq<Entry>)
      reads this
    {
      !NoDot(all) && done <= all && NoDot(done) && Reported()
    }

    /** A directory found on the walk. */
    method Visit(e: Entry, chunkSize: nat) returns (ok: bool)
      requires Valid() && npending < chunkSize && Walk(All() + WithFiles([e]))
      modifies this
      ensures ok ==> Valid() && npending < chunkSize && All() == old(All()) + WithFiles([e])
      ensures ok ==> Idle(printed) == old(Idle(printed)) + IdleRow(e)
      ensures !ok ==> Stopped(old(All()) + WithFiles([e]))
    {
      OneWithFiles(e);
      if |e.files| == 0 {
        RowPrinted(printed, Row(e.dir, NOTHING));
        printed := printed + [Row(e.dir, NOTHING)];
        return true;
      }
      Enqueue(e);
      ok := ProcessPendingFiles(chunkSize);
    }

    method Enqueue(e: Entry)
      requires Valid() && e.files != [] && Walk(All() + [e])
      modifies this`npending, this`pendingObjs
      ensures Valid() && All() == old(All()) + [e]
    {
      ghost var all := All();
      CountConcat(pendingObjs, [e]);
      assert [e][1..] == [];
      npending := npending + |e.files|;
      pendingObjs := pendingObjs + [e];
      JoinedNext(part, old(pendingObjs), e);
      assert All() == all + [e];
      PendingIsWalk(done, part, pendingObjs);
    }

    /** The whole walk. It comes to its end if and only if no object file is in the current directory. Then every
        file has been processed exactly once, in order; every directory has been reported once, with the sum
        over its files, and the cumulative result is the sum over all files. */
    method Go(walk: seq<Entry>, chunkSize: nat) returns (ok: bool)
      requires Valid() && All() == [] && printed == [] && chunkSize > 0 && Named(walk)
      modifies this
      ensures ok <==> NoneInDot(walk)
      ensures ok ==> npending == 0 && processed == Flat(WithFiles(walk))
      ensures ok ==> Busy(printed) == Rows(process, WithFiles(walk)) && Idle(printed) == WithoutFiles(walk)
      ensures ok ==> rcumulative == Sum(process, Flat(WithFiles(walk)))
      ensures ok ==> RowsTotal(process, WithFiles(walk), Busy(printed))
      ensures ok ==> forall row :: row in Idle(printed) ==> Totals(process, [], row.result)
      ensures ok ==> Totals(process, Flat(WithFiles(walk)), rcumulative)
      ensures !ok ==> Stopped(WithFiles(walk))
    {
      WithFilesNoDot(walk);
      ReportContains(process, walk);
      CountPositive(pendingObjs);
      var n := 0;
      while n < |walk|
        invariant n <= |walk| && Valid() && npending < chunkSize
        invariant All() == WithFiles(walk[..n]) && Idle(printed) == WithoutFiles(walk[..n])
      {
        WalkNext(walk, n);
        ok := Visit(walk[n], chunkSize);
        if !ok {
          StoppedEarly(done, WithFiles(walk[..n + 1]), WithFiles(walk));
          return;
        }
        n := n + 1;
      }
      assert walk[..n] == walk;
      ok := FinishWalk(chunkSize);
    }

    /** The files that are left when the walk is over. */
    method FinishWalk(chunkSize: nat) returns (ok: bool)
      requires Valid() && npending < chunkSize
      modifies this
      ensures ok <==> NoDot(old(All()))
      ensures ok ==> npending == 0 && processed == Flat(old(All())) && Busy(printed) == Rows(process, old(All()))
      ensures ok ==> Idle(printed) == old(Idle(printed)) && rcumulative == Sum(process, Flat(old(All())))
      ensures !ok ==> Stopped(old(All()))
    {
      ok := ProcessOneChunk(chunkSize);
      if ok {
        CountPositive(pendingObjs);
        assert All() == done;
      }
    }
  }

  /** An object file in the current directory, from which the walk starts, is enough to stop the run. */
  method DotStops(process: Process, name: string, chunkSize: nat) returns (ok: bool)
    requires chunkSize > 0
    ensures !ok
  {
    var context := new MapContext(process);
    var walk := [Entry(".", [File("", name)])];
    assert walk[0].dir == ".";
    ok := context.Go(walk, chunkSize);
  }

  lemma {:induction false} OneMoreDone(done: seq<Entry>, entries: seq<Entry>, n: nat)
    requires n < |entries|
    ensures done + entries[..n + 1] == (done + entries[..n]) + [entries[n]]
  {
    assert entries[..n + 1] == entries[..n] + [entries[n]];
  }

  lemma {:induction false} AllDone(done: seq<Entry>, entries: seq<Entry>)
    ensures done + entries[..0] == done && done + entries[..|entries|] == done + entries
  {
    assert entries[..0] == [] && entries[..|entries|] == entries;
  }

  lemma {:induction false} StoppedEarly(done: seq<Entry>, all: seq<Entry>, more: seq<Entry>)
    requires all <= more && !NoDot(all) && done <= all
    ensures !NoDot(more) && done <= more
  {
    var i :| 0 <= i < |all| && all[i].dir == ".";
    assert more[i] == all[i];
  }

  /** The directories of what has been taken are among those that were pending. */
  lemma {:induction false} TakenDirs(done: seq<Entry>, part: seq<File>, before: seq<Entry>, taken: seq<Entry>,
          incomplete: bool, after: seq<Entry>)
    requires Took(before, taken, incomplete, after)
    ensures NoDot(done + Joined(part, before)) ==> NoDot(taken)
  {
    JoinedShape(part, before);
    if incomplete {
      JoinedShape(taken[|taken| - 1].files, after);
    }
    var all := done + Joined(part, before);
    forall i | 0 <= i < |taken| ensures i < |before| && all[|done| + i].dir == taken[i].dir {
      assert before[i].dir == taken[i].dir;
    }
  }

  lemma {:induction false} ChunkNoDot(done: seq<Entry>, part: seq<File>, taken: seq<Entry>, incomplete: bool,
          after: seq<Entry>, entries: seq<Entry>)
    requires NoDot(done) && NoDot(taken) && (incomplete ==> taken != [])
    requires entries == Joined(part, taken)[..Completed(taken, incomplete)]
    ensures NoDot(done + entries)
  {
    JoinedShape(part, taken);
  }

  lemma {:induction false} WalkNext(walk: seq<Entry>, n: nat)
    requires n < |walk| && Named(walk)
    ensures WithFiles(walk[..n + 1]) == WithFiles(walk[..n]) + WithFiles([walk[n]])
    ensures WithoutFiles(walk[..n + 1]) == WithoutFiles(walk[..n]) + IdleRow(walk[n])
    ensures Walk(WithFiles(walk[..n + 1])) && WithFiles(walk[..n + 1]) <= WithFiles(walk)
  {
    assert walk[..n + 1][..n] == walk[..n];
    OneWithFiles(walk[n]);
    NamedPrefix(walk, n + 1);
    WithFilesIsWalk(walk[..n + 1]);
    WithFilesPrefix(walk, n + 1);
  }

  lemma {:induction false} JoinedNext(part: seq<File>, pending: seq<Entry>, e: Entry)
    requires part != [] ==> pending != []
    ensures Joined(part, pending + [e]) == Joined(part, pending) + [e]
  {
  }

  /** What is pending is part of the walk. */
  lemma {:induction false} PendingIsWalk(done: seq<Entry>, part: seq<File>, pending: seq<Entry>)
    requires Walk(done + Joined(part, pending)) && forall i :: 0 <= i < |pending| ==> pending[i].files != []
    ensures Walk(pending)
  {
    JoinedShape(part, pending);
    var all, n := done + Joined(part, pending), |done|;
    forall i | 0 <= i < |pending| ensures NamedAt(pending, i) {
      assert NamedAt(all, n + i);
      assert forall f :: f in pending[i].files ==> f in all[n + i].files;
    }
    forall i, j | 0 <= i < j < |pending| ensures Apart(pending, i, j) {
      assert Apart(all, n + i, n + j);
    }
  }

  lemma {:induction false} FlatConcat(a: seq<Entry>, b: seq<Entry>)
    ensures Flat(a + b) == Flat(a) + Flat(b)
  {
    if b == [] {
      assert a + b == a;
    } else {
      assert (a + b)[..|a + b| - 1] == a + b[..|b| - 1];
      FlatConcat(a, b[..|b| - 1]);
    }
  }

  ghost predicate MappedAt(process: Process, results: map<Dir, Result>, r: map<Dir, Result>, fs: seq<File>, d: Dir) {
    d in results && d in r && r[d] == AddAll(process, results[d], FilesOf(fs, d))
  }

  /** The results of the files have been added to those of their directories. */
  ghost predicate Mapped(process: Process, results: map<Dir, Result>, r: map<Dir, Result>, fs: seq<File>) {
    && r.Keys == results.Keys
    && forall d {:trigger MappedAt(process, results, r, fs, d)} :: d in results ==> MappedAt(process, results, r, fs, d)
  }

  lemma {:induction false} MappedNothing(process: Process, results: map<Dir, Result>)
    ensures Mapped(process, results, results, [])
  {
    forall d | d in results ensures MappedAt(process, results, results, [], d) {
      assert FilesOf([], d) == [];
    }
  }

  lemma {:induction false} MappedNext(process: Process, results: map<Dir, Result>, r: map<Dir, Result>, fs: seq<File>,
          f: File)
    requires Mapped(process, results, r, fs) && f.dir in r
    ensures Mapped(process, results, r[f.dir := AddResults(r[f.dir], OfFile(process(f)))], fs + [f])
  {
    var r' := r[f.dir := AddResults(r[f.dir], OfFile(process(f)))];
    forall d | d in results ensures MappedAt(process, results, r', fs + [f], d) {
      assert MappedAt(process, results, r, fs, d);
      AddFileOf(process, results[d], fs, f, d);
    }
  }

  function AddOne(process: Process, r: Result, f: File, d: Dir): Result {
    if f.dir == d then AddResults(r, OfFile(process(f))) else r
  }

  lemma {:induction false} AddFileOf(process: Process, base: Result, fs: seq<File>, f: File, d: Dir)
    ensures AddAll(process, base, FilesOf(fs + [f], d)) == AddOne(process, AddAll(process, base, FilesOf(fs, d)), f, d)
  {
    assert (fs + [f])[..|fs|] == fs;
    var before := FilesOf(fs, d);
    if f.dir == d {
      assert (before + [f])[..|before|] == before;
    } else {
      assert before + [] == before;
    }
  }

  lemma {:induction false} Regrouped(a: seq<File>, b: seq<File>, c: seq<File>, d: seq<File>, e: seq<File>)
    requires b + c == d + e
    ensures (a + b) + c == (a + d) + e
  {
    assert (a + b) + c == a + (b + c);
    assert a + (d + e) == (a + d) + e;
  }

  lemma {:induction false} ChunkProcessed(done: seq<Entry>, part: seq<File>, taken: seq<Entry>, incomplete: bool,
          entries: seq<Entry>, part': seq<File>)
    requires (incomplete ==> taken != []) && (taken == [] ==> part == [])
    requires entries == Joined(part, taken)[..Completed(taken, incomplete)]
    requires part' == PartAfter(part, taken, incomplete)
    ensures (Flat(done) + part) + Flat(taken) == Flat(done + entries) + part'
  {
    FlatConcat(done, entries);
    if taken != [] {
      FlatJoined(part, taken, incomplete);
    } else {
      assert part + Flat(taken) == Flat(entries) + part';
    }
    Regrouped(Flat(done), part, Flat(taken), Flat(entries), part');
  }

  lemma {:induction false} ChunkLeft(done: seq<Entry>, part: seq<File>, before: seq<Entry>, taken: seq<Entry>,
          incomplete: bool, after: seq<Entry>, entries: seq<Entry>, part': seq<File>)
    requires Took(before, taken, incomplete, after) && Walk(taken) && (taken == [] ==> before == [])
    requires entries == Joined(part, taken)[..Completed(taken, incomplete)]
    requires part' == PartAfter(part, taken, incomplete)
    ensures done + Joined(part, before) == (done + entries) + Joined(part', after)
    ensures (part' != [] ==> after != []) && (incomplete <==> part' != [])
  {
    assert incomplete ==> taken[|taken| - 1].files != [];
    TookAll(part, before, taken, incomplete, after);
    GroupedLeft(done, Joined(part, before), entries, Joined(part', after));
  }

  lemma {:induction false} GroupedLeft(a: seq<Entry>, b: seq<Entry>, c: seq<Entry>, d: seq<Entry>)
    requires b == c + d
    ensures a + b == (a + c) + d
  {
  }

  /** A file's directory part is one of the directories taken, unless that is the current directory. */
  lemma {:induction false} ChunkFiles(taken: seq<Entry>, results: map<Dir, Result>, objs: seq<File>)
    requires Walk(taken) && objs == Flat(taken)
    requires results.Keys == Dirs(taken)
    ensures (forall f :: f in objs ==> f.dir in results) <==> NoDot(taken)
  {
    if NoDot(taken) {
      forall f | f in objs ensures f.dir in results {
        FlatMember(taken, f);
        var i :| 0 <= i < |taken| && f in taken[i].files;
        assert NamedAt(taken, i) && f.dir == taken[i].dir && taken[i] in taken;
      }
    } else {
      var i :| 0 <= i < |taken| && taken[i].dir == ".";
      var f := taken[i].files[0];
      FlatMember(taken, f);
      assert NamedAt(taken, i) && f in taken[i].files && f.dir == "";
      forall e | e in taken ensures e.dir != "" {
        var k :| 0 <= k < |taken| && taken[k] == e;
        assert NamedAt(taken, k);
      }
    }
  }

  /** Every directory's result is the sum over all its files taken so far. */
  lemma {:induction false} ChunkResults(process: Process, part: seq<File>, taken: seq<Entry>,
          results: map<Dir, Result>, mapped: map<Dir, Result>, objs: seq<File>)
    requires Walk(taken) && NoDot(taken) && objs == Flat(taken) && Based(Sum(process, part), taken, results)
    requires Mapped(process, results, mapped, objs)
    ensures forall i :: 0 <= i < |taken| ==> Summed(process, mapped, Joined(part, taken)[i])
  {
    JoinedShape(part, taken);
    forall i | 0 <= i < |taken|
      ensures Summed(process, mapped, Joined(part, taken)[i])
    {
      assert BasedAt(Sum(process, part), taken, results, i);
      assert MappedAt(process, results, mapped, objs, taken[i].dir);
      FilesOfEntry(taken, i);
      BaseCompleted(process, part, Sum(process, part), taken, i);
    }
  }

  /** Where the taking of a chunk stands. */
  ghost predicate Taking(start: Result, before: seq<Entry>, taken: seq<Entry>, incomplete: bool, pending: seq<Entry>,
          objs: seq<File>, results: map<Dir, Result>, orderedDirs: seq<Dir>, npending: int)
  {
    && Walk(before) && Took(before, taken, incomplete, pending) && Walk(taken) && objs == Flat(taken)
    && InOrder(orderedDirs, taken) && Based(start, taken, results)
    && npending == Count(pending) && npending + |objs| == Count(before) && Walk(pending) &&
         (npending > 0 <==> pending != []) && (taken == [] ==> pending == before)
  }

  lemma {:induction false} TakingGoesOn(start: Result, before: seq<Entry>, taken: seq<Entry>, pending: seq<Entry>,
          objs: seq<File>, results: map<Dir, Result>, orderedDirs: seq<Dir>, npending: int)
    requires Taking(start, before, taken, false, pending, objs, results, orderedDirs, npending) && npending > 0
    ensures pending != [] && pending[0].files != []
  {
  }

  lemma {:induction false} TakingStep(start: Result, before: seq<Entry>, taken: seq<Entry>, pending: seq<Entry>,
          objs: seq<File>, results: map<Dir, Result>, orderedDirs: seq<Dir>, npending: int, n: nat, re: Result,
          t: Entry, after: seq<Entry>)
    requires Taking(start, before, taken, false, pending, objs, results, orderedDirs, npending) && pending != []
    requires 0 < n <= |pending[0].files| && re == (if taken == [] then start else NOTHING)
    requires t == pending[0].(files := pending[0].files[..n]) && after == AfterTaking(pending, n)
    ensures Taking(start, before, taken + [t], n < |pending[0].files|, after, objs + t.files,
                   results[t.dir := re.(nfiles := re.nfiles + |t.files|)], orderedDirs + [t.dir], npending - n)
  {
    TakenStep(before, taken, pending, n, t, after);
    CountPositive(after);
    TakingNext(start, before, taken, n < |pending[0].files|, t, after, objs, results, orderedDirs, npending - n, re);
  }

  lemma {:induction false} TakingNext(start: Result, before: seq<Entry>, taken: seq<Entry>, incomplete: bool,
          t: Entry, after: seq<Entry>, objs: seq<File>, results: map<Dir, Result>, orderedDirs: seq<Dir>,
          npending: int, re: Result)
    requires Walk(before) && Took(before, taken + [t], incomplete, after) && Walk(taken + [t]) && Walk(after)
    requires npending == Count(after) && npending + |objs| + |t.files| == Count(before)
    requires (npending > 0 <==> after != [])
    requires objs == Flat(taken) && InOrder(orderedDirs, taken) && Based(start, taken, results)
    requires re == (if taken == [] then start else NOTHING) && forall i :: 0 <= i < |taken| ==> taken[i].dir != t.dir
    ensures Taking(start, before, taken + [t], incomplete, after, objs + t.files,
                   results[t.dir := re.(nfiles := re.nfiles + |t.files|)], orderedDirs + [t.dir], npending)
  {
    BasedNext(start, taken, results, t, re);
    FlatNext(taken, t);
    InOrderNext(orderedDirs, taken, t);
  }

  ghost predicate InOrder(dirs: seq<Dir>, entries: seq<Entry>) {
    |dirs| == |entries| && forall i :: 0 <= i < |entries| ==> dirs[i] == entries[i].dir
  }

  lemma {:induction false} InOrderNext(dirs: seq<Dir>, entries: seq<Entry>, e: Entry)
    requires InOrder(dirs, entries)
    ensures InOrder(dirs + [e.dir], entries + [e])
  {
  }

  lemma {:induction false} CountPositive(entries: seq<Entry>)
    requires Walk(entries)
    ensures Count(entries) > 0 <==> entries != []
  {
  }

  /** The pending directories after `n` files of the first have been taken. */
  function AfterTaking(pending: seq<Entry>, n: nat): seq<Entry>
    requires pending != [] && n <= |pending[0].files|
  {
    if n == |pending[0].files| then pending[1..] else [pending[0].(files := pending[0].files[n..])] + pending[1..]
  }

  /** One step of taking: `n` files of the first pending directory. */
  lemma {:induction false} TakenStep(before: seq<Entry>, taken: seq<Entry>, pending: seq<Entry>, n: nat, t: Entry,
          after: seq<Entry>)
    requires Took(before, taken, false, pending) && Walk(before) && Walk(taken) && Walk(pending) && pending != []
    requires 0 < n <= |pending[0].files|
    requires t == pending[0].(files := pending[0].files[..n]) && after == AfterTaking(pending, n)
    ensures Walk(taken + [t]) && Walk(after) && Count(after) == Count(pending) - n
    ensures Took(before, taken + [t], n < |pending[0].files|, after)
    ensures forall i :: 0 <= i < |taken| ==> taken[i].dir != t.dir
  {
    assert before[|taken|] == pending[0];
    forall i | 0 <= i < |taken| ensures taken[i].dir != t.dir {
      assert Apart(before, i, |taken|) && before[i] == taken[i];
    }
    PartNamed(pending, 0, t);
    WalkExtended(taken, t);
    AfterIsWalk(pending, n, after);
    if n == |pending[0].files| {
      assert t == pending[0];
      assert taken + pending == (taken + [t]) + after;
    } else {
      PartTaken(before, taken, pending, n, t, after);
    }
  }

  lemma {:induction false} PartNamed(entries: seq<Entry>, i: nat, e: Entry)
    requires Named(entries) && i < |entries| && e.dir == entries[i].dir
    requires forall f :: f in e.files ==> f in entries[i].files
    ensures NamedAt([e], 0)
  {
    assert NamedAt(entries, i);
  }

  /** What is left after taking is still part of a walk. */
  lemma {:induction false} AfterIsWalk(pending: seq<Entry>, n: nat, after: seq<Entry>)
    requires Walk(pending) && pending != [] && 0 < n <= |pending[0].files| && after == AfterTaking(pending, n)
    ensures Walk(after)
  {
    var k := |pending| - |after|;
    assert forall i :: 0 <= i < |after| ==> after[i].dir == pending[i + k].dir;
    forall i | 0 <= i < |after| ensures NamedAt(after, i) && after[i].files != [] {
      assert NamedAt(pending, i + k) && pending[i + k].files != [];
      assert i > 0 ==> after[i] == pending[i + k];
      assert forall f :: f in after[i].files ==> f in pending[i + k].files;
    }
    forall i, j | 0 <= i < j < |after| ensures Apart(after, i, j) {
      assert Apart(pending, i + k, j + k);
    }
  }

  lemma {:induction false} PartTaken(before: seq<Entry>, taken: seq<Entry>, pending: seq<Entry>, n: nat, t: Entry,
          after: seq<Entry>)
    requires Took(before, taken, false, pending) && pending != []
    requires 0 < n < |pending[0].files|
    requires t == pending[0].(files := pending[0].files[..n]) && after == AfterTaking(pending, n)
    ensures Count(after) == Count(pending) - n && Took(before, taken + [t], true, after)
  {
    assert after[1..] == pending[1..];
    assert (taken + [t])[..|taken|] == taken;
    assert t.files + after[0].files == pending[0].files;
    assert Joined(t.files, after) == pending;
  }

  lemma {:induction false} BasedNext(start: Result, taken: seq<Entry>, results: map<Dir, Result>, t: Entry, re: Result)
    requires Based(start, taken, results) && re == (if taken == [] then start else NOTHING)
    requires forall i :: 0 <= i < |taken| ==> taken[i].dir != t.dir
    ensures Based(start, taken + [t], results[t.dir := re.(nfiles := re.nfiles + |t.files|)])
  {
    var taken' := taken + [t];
    var results' := results[t.dir := re.(nfiles := re.nfiles + |t.files|)];
    assert Dirs(taken') == Dirs(taken) + {t.dir} by {
      assert forall e :: e in taken' <==> e in taken || e == t;
      assert t in taken';
    }
    forall i | 0 <= i < |taken'| ensures BasedAt(start, taken', results', i) {
      if i < |taken| {
        assert BasedAt(start, taken, results, i) && taken'[i] == taken[i];
      }
    }
  }
}
