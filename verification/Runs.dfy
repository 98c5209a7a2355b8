/** Runs of a transition system: states reached from an initial state by any number of
    steps, and induction over them. */
module Runs {

  ghost predicate Reaches<S(!new)>(init: S -> bool, next: (S, S) -> bool, s: S, k: nat)
    decreases k
  {
    if k == 0 then init(s)
    else exists before :: Reaches(init, next, before, k - 1) && next(before, s)
  }

  ghost predicate Reachable<S(!new)>(init: S -> bool, next: (S, S) -> bool, s: S) {
    exists k: nat :: Reaches(init, next, s, k)
  }

  lemma {:induction false} InvariantIn<S(!new)>(init: S -> bool, next: (S, S) -> bool, inv: S -> bool, s: S, k: nat)
    requires forall x :: init(x) ==> inv(x)
    requires forall x, y :: inv(x) && next(x, y) ==> inv(y)
    requires Reaches(init, next, s, k)
    ensures inv(s)
  {
    if k > 0 {
      var before :| Reaches(init, next, before, k - 1) && next(before, s);
      InvariantIn(init, next, inv, before, k - 1);
    }
  }

  /** What holds at the start and is kept by every step holds in every reachable state. */
  lemma Invariant<S(!new)>(init: S -> bool, next: (S, S) -> bool, inv: S -> bool, s: S)
    requires forall x :: init(x) ==> inv(x)
    requires forall x, y :: inv(x) && next(x, y) ==> inv(y)
    requires Reachable(init, next, s)
    ensures inv(s)
  {
    var k: nat :| Reaches(init, next, s, k);
    InvariantIn(init, next, inv, s, k);
  }

  lemma Start<S(!new)>(init: S -> bool, next: (S, S) -> bool, s: S)
    requires init(s)
    ensures Reachable(init, next, s)
  {
    assert Reaches(init, next, s, 0);
  }

  lemma Extend<S(!new)>(init: S -> bool, next: (S, S) -> bool, s: S, s': S)
    requires Reachable(init, next, s) && next(s, s')
    ensures Reachable(init, next, s')
  {
    var k: nat :| Reaches(init, next, s, k);
    assert Reaches(init, next, s', k + 1);
  }

  // Deterministic runs

  ghost function Iterate<S>(f: S -> S, s: S, k: nat): S
    decreases k
  {
    if k == 0 then s else Iterate(f, f(s), k - 1)
  }

  lemma {:induction false} StaysFixed<S>(f: S -> S, s: S, k: nat)
    requires f(s) == s
    ensures Iterate(f, s, k) == s
  {
    if k > 0 { StaysFixed(f, s, k - 1); }
  }

  /** A machine whose every step settles it or brings its measure down is settled, for
      good, within one step more than the measure says. */
  lemma {:induction false} Settles<S(!new)>(f: S -> S, inv: S -> bool, settled: S -> bool, measure: S -> nat,
                                            s: S, more: nat) returns (k: nat)
    requires forall x :: inv(x) && !settled(x) ==> inv(f(x)) && (settled(f(x)) || measure(f(x)) < measure(x))
    requires forall x :: inv(x) && settled(x) ==> f(x) == x
    requires inv(s)
    ensures k <= measure(s) + 1 && settled(Iterate(f, s, k)) && Iterate(f, s, k + more) == Iterate(f, s, k)
    decreases measure(s)
  {
    if settled(s) {
      k := 0;
      StaysFixed(f, s, more);
    } else if settled(f(s)) {
      k := 1;
      StaysFixed(f, f(s), more);
    } else {
      var j := Settles(f, inv, settled, measure, f(s), more);
      k := j + 1;
    }
  }
}
