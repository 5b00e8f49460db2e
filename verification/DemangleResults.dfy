/** Results of processing files, and how they add up. */
module DemangleResults {
  type Dir = string

  datatype File = File(dir: Dir, name: string)

  type Symbol = string

  datatype Result = Result(crashed: seq<File>, errors: set<Symbol>, nsymbols: int, nfiles: int)

  /** What the tool says about one file. */
  datatype Outcome = Outcome(crashed: seq<File>, errors: set<Symbol>, nsymbols: int)

  type Process = File -> Outcome

  /** A directory and its object files. */
  datatype Entry = Entry(dir: Dir, files: seq<File>)

  const NOTHING := Result([], {}, 0, 0)

  function OfFile(o: Outcome): Result {
    Result(o.crashed, o.errors, o.nsymbols, 0)
  }

  function AddResults(r: Result, s: Result): Result {
    Result(r.crashed + s.crashed, r.errors + s.errors, r.nsymbols + s.nsymbols, r.nfiles + s.nfiles)
  }

  /** The results of all files added to `r`. */
  function AddAll(process: Process, r: Result, fs: seq<File>): Result {
    if fs == [] then r else AddResults(AddAll(process, r, fs[..|fs| - 1]), OfFile(process(fs[|fs| - 1])))
  }

  /** The result for a list of files: the sum of their results, and their number. */
  function Sum(process: Process, fs: seq<File>): Result {
    AddAll(process, NOTHING, fs).(nfiles := |fs|)
  }

  lemma {:induction false} AddAllConcat(process: Process, r: Result, a: seq<File>, b: seq<File>)
    ensures AddAll(process, r, a + b) == AddAll(process, AddAll(process, r, a), b)
  {
    if b == [] {
      assert a + b == a;
    } else {
      assert (a + b)[..|a + b| - 1] == a + b[..|b| - 1];
      AddAllConcat(process, r, a, b[..|b| - 1]);
    }
  }

  lemma {:induction false} AddAllFrom(process: Process, r: Result, n: int, fs: seq<File>)
    ensures AddAll(process, r.(nfiles := n), fs) == AddAll(process, r, fs).(nfiles := n)
  {
    if fs != [] {
      AddAllFrom(process, r, n, fs[..|fs| - 1]);
    }
  }

  lemma {:induction false} SumOf(process: Process, part: seq<File>, more: seq<File>, r: Result)
    requires r == AddAll(process, NOTHING, part)
    ensures Sum(process, part + more) == AddAll(process, r, more).(nfiles := |part| + |more|)
  {
    AddAllConcat(process, NOTHING, part, more);
  }

  lemma {:induction false} Recounted(process: Process, r: Result, m: int, n: int, more: seq<File>)
    ensures AddAll(process, r.(nfiles := m).(nfiles := n), more) == AddAll(process, r, more).(nfiles := n)
  {
    assert r.(nfiles := m).(nfiles := n) == r.(nfiles := n);
    AddAllFrom(process, r, n, more);
  }

  /** A directory's result so far, with the number of files taken already counted, completed by their results. */
  lemma {:induction false} SumContinued(process: Process, part: seq<File>, more: seq<File>, r: Result, a: Result)
    requires a == AddAll(process, NOTHING, part) && r == a.(nfiles := |part|)
    ensures AddAll(process, r.(nfiles := |part| + |more|), more) == Sum(process, part + more)
  {
    Recounted(process, a, |part|, |part| + |more|, more);
    SumOf(process, part, more, a);
  }

  lemma {:induction false} AddAllNext(process: Process, r: Result, fs: seq<File>, f: File)
    ensures AddAll(process, r, fs + [f]) == AddResults(AddAll(process, r, fs), OfFile(process(f)))
  {
    assert (fs + [f])[..|fs|] == fs;
  }

  lemma {:induction false} SumConcat(process: Process, a: seq<File>, b: seq<File>)
    ensures Sum(process, a + b) == AddResults(Sum(process, a), Sum(process, b))
  {
    if b == [] {
      assert a + b == a;
    } else {
      var b', f := b[..|b| - 1], b[|b| - 1];
      assert a + b == (a + b') + [f] && b == b' + [f];
      SumConcat(process, a, b');
      AddAllNext(process, NOTHING, a + b', f);
      AddAllNext(process, NOTHING, b', f);
    }
  }

  // ---- what a sum contains ----

  function SymbolCount(process: Process, fs: seq<File>): int {
    if fs == [] then 0 else SymbolCount(process, fs[..|fs| - 1]) + process(fs[|fs| - 1]).nsymbols
  }

  function AllCrashed(process: Process, fs: seq<File>): seq<File> {
    if fs == [] then [] else AllCrashed(process, fs[..|fs| - 1]) + process(fs[|fs| - 1]).crashed
  }

  /** The result has the errors of all files, and no others, their symbols and their crashes in order. */
  ghost predicate Totals(process: Process, fs: seq<File>, r: Result) {
    && (forall x :: x in r.errors <==> exists f :: f in fs && x in process(f).errors)
    && r.nsymbols == SymbolCount(process, fs) && r.crashed == AllCrashed(process, fs) && r.nfiles == |fs|
  }

  lemma {:induction false} SumContains(process: Process, fs: seq<File>)
    ensures Totals(process, fs, Sum(process, fs))
  {
    if fs != [] {
      var before, last := fs[..|fs| - 1], fs[|fs| - 1];
      assert fs == before + [last];
      SumContains(process, before);
      var r := Sum(process, fs);
      forall x ensures x in r.errors <==> exists f :: f in fs && x in process(f).errors {
        assert x in r.errors <==> x in Sum(process, before).errors || x in process(last).errors;
        assert forall f :: f in fs <==> f in before || f == last;
      }
    }
  }

  // ---- files of a directory ----

  function FilesOf(fs: seq<File>, d: Dir): seq<File> {
    if fs == [] then [] else FilesOf(fs[..|fs| - 1], d) + if fs[|fs| - 1].dir == d then [fs[|fs| - 1]] else []
  }

  lemma {:induction false} FilesOfConcat(a: seq<File>, b: seq<File>, d: Dir)
    ensures FilesOf(a + b, d) == FilesOf(a, d) + FilesOf(b, d)
  {
    if b == [] {
      assert a + b == a;
    } else {
      assert (a + b)[..|a + b| - 1] == a + b[..|b| - 1];
      FilesOfConcat(a, b[..|b| - 1], d);
    }
  }

  lemma {:induction false} FilesOfOne(fs: seq<File>, e: Dir, d: Dir)
    requires forall f :: f in fs ==> f.dir == e
    ensures FilesOf(fs, d) == if d == e then fs else []
  {
    if fs != [] {
      var before, f := fs[..|fs| - 1], fs[|fs| - 1];
      assert fs == before + [f] && f in fs;
      assert forall g :: g in before ==> g in fs;
      FilesOfOne(before, e, d);
    }
  }

  // ---- entries ----

  function Flat(entries: seq<Entry>): seq<File> {
    if entries == [] then [] else Flat(entries[..|entries| - 1]) + entries[|entries| - 1].files
  }

  lemma {:induction false} FlatNext(entries: seq<Entry>, e: Entry)
    ensures Flat(entries + [e]) == Flat(entries) + e.files
  {
    assert (entries + [e])[..|entries|] == entries;
  }

  /** The directory part of a normalized path to a file: that of a file in the current directory is empty. */
  function DirName(d: Dir): Dir {
    if d == "." then "" else d
  }

  /** What a walk with normalized paths finds: no directory comes twice, and none is the empty path. */
  ghost predicate Named(entries: seq<Entry>) {
    && (forall i :: 0 <= i < |entries| ==> NamedAt(entries, i))
    && forall i, j :: 0 <= i < j < |entries| ==> Apart(entries, i, j)
  }

  ghost predicate NamedAt(entries: seq<Entry>, i: nat)
    requires i < |entries|
  {
    entries[i].dir != "" && forall f :: f in entries[i].files ==> f.dir == DirName(entries[i].dir)
  }

  ghost predicate Apart(entries: seq<Entry>, i: nat, j: nat)
    requires i < j < |entries|
  {
    entries[i].dir != entries[j].dir
  }

  lemma {:induction false} NamedPrefix(entries: seq<Entry>, n: nat)
    requires Named(entries) && n <= |entries|
    ensures Named(entries[..n])
  {
    forall i | 0 <= i < n ensures NamedAt(entries[..n], i) {
      assert NamedAt(entries, i);
    }
    forall i, j | 0 <= i < j < n ensures Apart(entries[..n], i, j) {
      assert Apart(entries, i, j);
    }
  }

  /** The part of a walk with object files. */
  ghost predicate Walk(entries: seq<Entry>) {
    (forall i :: 0 <= i < |entries| ==> entries[i].files != []) && Named(entries)
  }

  /** The current directory is not among the entries. */
  predicate NoDot(entries: seq<Entry>) {
    forall i :: 0 <= i < |entries| ==> entries[i].dir != "."
  }

  lemma {:induction false} FilesOfNext(before: seq<Entry>, e: Entry, d: Dir)
    requires forall f :: f in e.files ==> f.dir == DirName(e.dir)
    ensures d != DirName(e.dir) ==> FilesOf(Flat(before + [e]), d) == FilesOf(Flat(before), d)
    ensures d == DirName(e.dir) && FilesOf(Flat(before), d) == [] ==> FilesOf(Flat(before + [e]), d) == e.files
  {
    FlatNext(before, e);
    FilesOfConcat(Flat(before), e.files, d);
    FilesOfOne(e.files, DirName(e.dir), d);
  }

  lemma {:induction false} LastIsApart(entries: seq<Entry>, before: seq<Entry>)
    requires Named(entries) && entries != [] && before == entries[..|entries| - 1]
    ensures forall j :: 0 <= j < |before| ==> DirName(before[j].dir) != entries[|before|].dir
  {
    assert NamedAt(entries, |before|);
    forall j | 0 <= j < |before| ensures DirName(before[j].dir) != entries[|before|].dir {
      assert Apart(entries, j, |before|) && before[j] == entries[j];
    }
  }

  /** The files of a directory can be told from all others by their directory part. */
  lemma {:induction false} FilesOfEntry(entries: seq<Entry>, i: nat)
    requires Named(entries) && i < |entries| && entries[i].dir != "."
    ensures FilesOf(Flat(entries), entries[i].dir) == entries[i].files
  {
    var last, d := |entries| - 1, entries[i].dir;
    var before, e := entries[..last], entries[last];
    assert entries == before + [e];
    NamedPrefix(entries, last);
    assert NamedAt(entries, last) && NamedAt(entries, i);
    FilesOfNext(before, e, d);
    if i < last {
      assert Apart(entries, i, last) && before[i] == entries[i];
      FilesOfEntry(before, i);
    } else {
      LastIsApart(entries, before);
      FilesOfForeign(before, d);
    }
  }

  lemma {:induction false} FilesOfForeign(entries: seq<Entry>, d: Dir)
    requires Named(entries) && forall i :: 0 <= i < |entries| ==> DirName(entries[i].dir) != d
    ensures FilesOf(Flat(entries), d) == []
  {
    if entries != [] {
      var last := |entries| - 1;
      NamedPrefix(entries, last);
      assert NamedAt(entries, last) && entries == entries[..last] + [entries[last]];
      FilesOfForeign(entries[..last], d);
      FilesOfNext(entries[..last], entries[last], d);
    }
  }

  lemma {:induction false} FlatMember(entries: seq<Entry>, f: File)
    ensures f in Flat(entries) <==> exists i :: 0 <= i < |entries| && f in entries[i].files
  {
    if entries != [] {
      var last := |entries| - 1;
      FlatMember(entries[..last], f);
      if i :| 0 <= i < |entries| && f in entries[i].files {
        assert i < last ==> f in entries[..last][i].files;
      }
      if i :| 0 <= i < last && f in entries[..last][i].files {
        assert f in entries[i].files;
      }
    }
  }

  function Count(entries: seq<Entry>): nat {
    if entries == [] then 0 else |entries[0].files| + Count(entries[1..])
  }

  lemma {:induction false} CountConcat(a: seq<Entry>, b: seq<Entry>)
    ensures Count(a + b) == Count(a) + Count(b)
  {
    if a == [] {
      assert a + b == b;
    } else {
      assert (a + b)[1..] == a[1..] + b;
      CountConcat(a[1..], b);
    }
  }
}
