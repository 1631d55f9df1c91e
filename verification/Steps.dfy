/**
  Machines that move in atomic steps: a partial function gives the state after a
  step, and a step is possible where that function is defined.
 */
module Steps {

  ghost predicate Executes<S, A>(next: (S, A) --> S, s: S, steps: seq<A>)
    decreases |steps|
  {
    steps == [] || (next.requires(s, steps[0]) && Executes(next, next(s, steps[0]), steps[1..]))
  }

  ghost function Result<S, A>(next: (S, A) --> S, s: S, steps: seq<A>): S
    requires Executes(next, s, steps)
    decreases |steps|
  {
    if steps == [] then s else Result(next, next(s, steps[0]), steps[1..])
  }

  /** What every step keeps, every execution keeps. */
  lemma {:induction false} ExecutionKeeps<S(!new), A(!new)>(next: (S, A) --> S, inv: S -> bool, s: S, steps: seq<A>)
    requires inv(s) && Executes(next, s, steps)
    requires forall r: S, a: A :: inv(r) && next.requires(r, a) ==> inv(next(r, a))
    ensures inv(Result(next, s, steps))
    decreases |steps|
  {
    if steps == [] {
    } else {
      ExecutionKeeps(next, inv, next(s, steps[0]), steps[1..]);
    }
  }

  /** One step more at the end. */
  lemma {:induction false} ExecutionExtends<S, A>(next: (S, A) --> S, s: S, steps: seq<A>, a: A)
    ensures Executes(next, s, steps + [a]) <==> Executes(next, s, steps) && next.requires(Result(next, s, steps), a)
    ensures Executes(next, s, steps + [a]) ==> Result(next, s, steps + [a]) == next(Result(next, s, steps), a)
    decreases |steps|
  {
    if steps == [] {
      assert [] + [a] == [a] && [a][1..] == [];
    } else {
      assert (steps + [a])[0] == steps[0] && (steps + [a])[1..] == steps[1..] + [a];
      if next.requires(s, steps[0]) { ExecutionExtends(next, next(s, steps[0]), steps[1..], a); }
    }
  }

  /** `t` can follow `s` in some execution. */
  ghost predicate Reaches<S(!new), A(!new)>(next: (S, A) --> S, s: S, t: S) {
    exists steps: seq<A> :: Executes(next, s, steps) && Result(next, s, steps) == t
  }

  lemma ReachesSelf<S(!new), A(!new)>(next: (S, A) --> S, s: S)
    ensures Reaches(next, s, s)
  {
    var none: seq<A> := [];
    assert Executes(next, s, none) && Result(next, s, none) == s;
  }

  lemma ReachesBy<S(!new), A(!new)>(next: (S, A) --> S, s: S, a: A, t: S)
    requires next.requires(s, a) && Reaches(next, next(s, a), t)
    ensures Reaches(next, s, t)
  {
    var steps: seq<A> :| Executes(next, next(s, a), steps) && Result(next, next(s, a), steps) == t;
    var all := [a] + steps;
    assert all[1..] == steps;
    assert Executes(next, s, all) && Result(next, s, all) == t;
  }
}
