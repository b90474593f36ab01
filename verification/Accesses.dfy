/** What the database answers, access by access: whether the i-th one succeeds, or finds the work not cancelled. */
module Accesses {
  /** All accesses beyond the end of the list succeed. */
  type Answers = seq<bool>

  predicate Succeeds(answers: Answers, i: nat) {
    i < |answers| ==> answers[i]
  }

  /** How many of the first n accesses failed or found a cancellation. */
  function Faults(answers: Answers, n: nat): nat {
    if n == 0 then 0 else Faults(answers, n - 1) + if Succeeds(answers, n - 1) then 0 else 1
  }

  /** Accesses `since` up to `now` were made, and the work was given up only if one of them failed. */
  ghost predicate Went(answers: Answers, since: nat, now: nat, ok: bool) {
    && since <= now
    && Faults(answers, since) <= Faults(answers, now)
    && (!ok ==> Faults(answers, since) < Faults(answers, now))
  }

  /** All of them succeeded. */
  ghost predicate Fine(answers: Answers, since: nat, now: nat) {
    forall i :: since <= i < now ==> Succeeds(answers, i)
  }

  lemma {:induction false} FineHasNoFaults(answers: Answers, since: nat, now: nat)
    requires since <= now && Fine(answers, since, now)
    ensures Faults(answers, now) == Faults(answers, since)
    decreases now
  {
    if since < now {
      FineHasNoFaults(answers, since, now - 1);
    }
  }

  /** What meets no fault is not given up. */
  lemma FineMeansOk(answers: Answers, since: nat, now: nat, ok: bool)
    requires Went(answers, since, now, ok)
    ensures Fine(answers, since, now) ==> ok
  {
    if Fine(answers, since, now) {
      FineHasNoFaults(answers, since, now);
    }
  }
}
