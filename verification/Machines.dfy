/** Deterministic machines given by a step function, and simulation between them. */
module Machines {

  function Run<S>(step: S -> S, s: S, n: nat): S
    decreases n
  {
    if n == 0 then s else Run(step, step(s), n - 1)
  }

  lemma {:induction false} RunAdd<S>(step: S -> S, s: S, m: nat, n: nat)
    ensures Run(step, s, m + n) == Run(step, Run(step, s, m), n)
    decreases m
  {
    if m > 0 {
      RunAdd(step, step(s), m - 1, n);
    }
  }

  lemma {:induction false} RunStopped<S>(step: S -> S, s: S, n: nat)
    requires step(s) == s
    ensures Run(step, s, n) == s
    decreases n
  {
    if n > 0 {
      RunStopped(step, s, n - 1);
    }
  }

  lemma {:induction false} RunOnce<S>(step: S -> S, s: S)
    ensures Run(step, s, 1) == step(s)
  {
    assert Run(step, step(s), 0) == step(s);
  }

  lemma {:induction false} RunLast<S>(step: S -> S, s: S, n: nat)
    ensures Run(step, s, n + 1) == step(Run(step, s, n))
  {
    RunAdd(step, s, n, 1);
    RunOnce(step, Run(step, s, n));
  }

  /** One step of `spec` from a pair in `related` is matched by at least one step of
      `impl`, unless it leads to a pair in `final`, where `spec` stays. */
  ghost predicate StepMatched<I(!new), S(!new)>(impl: I -> I, spec: S -> S, related: (I, S) -> bool,
          final: (I, S) -> bool, i: I, s: S)
  {
    exists k: nat ::
      k > 0 && (related(Run(impl, i, k), spec(s)) || (final(Run(impl, i, k), spec(s)) && spec(spec(s)) == spec(s)))
  }

  lemma {:induction false} Witness<I(!new), S(!new)>(impl: I -> I, spec: S -> S, related: (I, S) -> bool,
          final: (I, S) -> bool, i: I, s: S)
    returns (k: nat)
    requires StepMatched(impl, spec, related, final, i, s)
    ensures k > 0
    ensures related(Run(impl, i, k), spec(s)) || (final(Run(impl, i, k), spec(s)) && spec(spec(s)) == spec(s))
  {
    k :| k > 0 && (related(Run(impl, i, k), spec(s))
                   || (final(Run(impl, i, k), spec(s)) && spec(spec(s)) == spec(s)));
  }

  /** If every single step is matched, so is every run, and `impl` does not lag behind. */
  lemma {:induction false} RunMatched<I(!new), S(!new)>(impl: I -> I, spec: S -> S, related: (I, S) -> bool,
          final: (I, S) -> bool, i: I, s: S, n: nat)
    returns (k: nat)
    requires forall i', s' {:trigger StepMatched(impl, spec, related, final, i', s')} :: related(i', s') ==>
               StepMatched(impl, spec, related, final, i', s')
    requires related(i, s)
    ensures (k >= n && related(Run(impl, i, k), Run(spec, s, n))) || final(Run(impl, i, k), Run(spec, s, n))
    decreases n
  {
    k := 0;
    if n > 0 {
      var j := Witness(impl, spec, related, final, i, s);
      var i', s' := Run(impl, i, j), spec(s);
      if related(i', s') {
        var m := RunMatched(impl, spec, related, final, i', s', n - 1);
        RunAdd(impl, i, j, m);
        k := j + m;
      } else {
        RunStopped(spec, s', n - 1);
        k := j;
      }
    }
  }
}
