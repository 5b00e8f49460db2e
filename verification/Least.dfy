/** Least members of sets of numbers. */
module Least {
  predicate IsLeast(s: set<nat>, a: nat) {
    a in s && forall x :: x in s ==> a <= x
  }

  lemma {:induction false} LeastExists(s: set<nat>) returns (a: nat)
    requires s != {}
    ensures IsLeast(s, a)
  {
    var b :| b in s;
    a := b;
    var lower := set x | x in s && x < b;
    if lower != {} {
      assert b !in lower && lower <= s;
      a := LeastExists(lower);
    }
    forall x | x in s ensures a <= x {
      assert x in lower || b <= x;
    }
  }
}
