/** Runs of any transition relation: invariants, accumulated output, and exact conditions for agreement. */
module Traces {

  ghost predicate StepAt<S, A>(states: seq<S>, steps: seq<A>, next: (S, A, S) -> bool, i: nat)
    requires |states| == |steps| + 1 && i < |steps|
  {
    next(states[i], steps[i], states[i + 1])
  }

  ghost predicate Trace<S, A>(states: seq<S>, steps: seq<A>, next: (S, A, S) -> bool) {
    |states| == |steps| + 1 && forall i :: 0 <= i < |steps| ==> StepAt(states, steps, next, i)
  }

  lemma {:induction false} Induct<S(!new),
A(!new)>(states: seq<S>, steps: seq<A>, next: (S, A, S) -> bool, inv: S -> bool, n: nat)
    requires Trace(states, steps, next) && n <= |steps| && inv(states[0])
    requires forall s, a, s2 :: inv(s) && next(s, a, s2) ==> inv(s2)
    ensures inv(states[n])
  {
    if n > 0 {
      Induct(states, steps, next, inv, n - 1);
      assert StepAt(states, steps, next, n - 1);
    }
  }

  /** What has been gathered after `n` steps, `upd` telling what each step makes of it. */
  ghost function Folded<S, A, E>(states: seq<S>, steps: seq<A>, upd: (S, A, set<E>) -> set<E>, n: nat): set<E>
    requires |states| == |steps| + 1 && n <= |steps|
  {
    if n == 0 then {} else upd(states[n - 1], steps[n - 1], Folded(states, steps, upd, n - 1))
  }

  lemma {:induction false} InductFolded<S(!new), A(!new), E(!new)>(
      states: seq<S>, steps: seq<A>, next: (S, A, S) -> bool, inv: (S, set<E>) -> bool, upd: (S, A, set<E>) -> set<E>,
          n: nat)
    requires Trace(states, steps, next) && n <= |steps| && inv(states[0], {})
    requires forall s, a, s2, H :: inv(s, H) && next(s, a, s2) ==> inv(s2, upd(s, a, H))
    ensures inv(states[n], Folded(states, steps, upd, n))
  {
    if n > 0 {
      InductFolded(states, steps, next, inv, upd, n - 1);
      assert StepAt(states, steps, next, n - 1);
    }
  }

  ghost predicate AllFine<S, A>(states: seq<S>, steps: seq<A>, fine: (S, A) -> bool, n: nat)
    requires |states| == |steps| + 1 && n <= |steps|
  {
    forall i :: 0 <= i < n ==> fine(states[i], steps[i])
  }

  ghost predicate AllAgree<S, A, E>(states: seq<S>, steps: seq<A>, upd: (S, A, set<E>) -> set<E>,
                                    agree: (S, set<E>) -> bool, n: nat)
    requires |states| == |steps| + 1 && n <= |steps|
  {
    forall i :: 0 <= i <= n ==> agree(states[i], Folded(states, steps, upd, i))
  }

  lemma AllFineSnoc<S, A>(states: seq<S>, steps: seq<A>, fine: (S, A) -> bool, n: nat)
    requires |states| == |steps| + 1 && n < |steps|
    ensures AllFine(states, steps, fine, n + 1) <==> AllFine(states, steps, fine, n) && fine(states[n], steps[n])
  {
  }

  lemma AllAgreeSnoc<S, A, E>(states: seq<S>, steps: seq<A>, upd: (S, A, set<E>) -> set<E>,
                              agree: (S, set<E>) -> bool, n: nat)
    requires |states| == |steps| + 1 && n < |steps|
    ensures AllAgree(states, steps, upd, agree, n + 1)
       <==> AllAgree(states, steps, upd, agree, n) && agree(states[n + 1], Folded(states, steps, upd, n + 1))
  {
  }

  /**
   * If a step of the kind `held` keeps agreement exactly when it is fine, a run of such steps
   * agrees throughout exactly when all its steps are fine.
   */
  lemma {:induction false} AgreeIffFine<S(!new), A(!new), E(!new)>(
      states: seq<S>, steps: seq<A>, next: (S, A, S) -> bool, inv: (S, set<E>) -> bool, held: (S, A) -> bool,
      upd: (S, A, set<E>) -> set<E>, agree: (S, set<E>) -> bool, fine: (S, A) -> bool, n: nat)
    requires Trace(states, steps, next) && n <= |steps| && inv(states[0], {}) && agree(states[0], {})
    requires AllFine(states, steps, held, n)
    requires forall s, a, s2, H :: inv(s, H) && next(s, a, s2) ==> inv(s2, upd(s, a, H))
    requires forall s, a, s2, H :: inv(s, H) && agree(s, H) && next(s, a, s2) && held(s, a)
               ==> (fine(s, a) <==> agree(s2, upd(s, a, H)))
    ensures AllFine(states, steps, fine, n) <==> AllAgree(states, steps, upd, agree, n)
  {
    if n > 0 {
      var m := n - 1;
      AllFineSnoc(states, steps, held, m);
      AgreeIffFine(states, steps, next, inv, held, upd, agree, fine, m);
      InductFolded(states, steps, next, inv, upd, m);
      assert StepAt(states, steps, next, m);
      AllFineSnoc(states, steps, fine, m);
      AllAgreeSnoc(states, steps, upd, agree, m);
    }
  }
}
