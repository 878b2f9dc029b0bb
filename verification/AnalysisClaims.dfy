/** What a claim gives its holder: protection for its lease, the way into the transaction, and a clean release. */
module AnalysisClaims {
  import opened Common
  import opened AnalysisStore
  import opened AnalysisRuns

  /** Nothing between a grant and event k has taken, released or overwritten the claim. */
  predicate Undisturbed(es: seq<Event>, j: nat, k: nat)
    requires j < k <= |es| && es[j].ClaimGranted?
  {
    forall m | j < m < k :: !es[m].ClaimGranted? && !es[m].SaveRow? && es[m] != Finish(es[j].token)
  }

  lemma {:induction false} ClaimStands(es: seq<Event>, j: nat)
    requires Feasible(es) && j < |es| && es[j].ClaimGranted? && Undisturbed(es, j, |es|)
    ensures After(es).db.claimToken == Some(es[j].token)
    ensures After(es).db.claimExpiresAt == Some(es[j].now + ANALYSIS_CLAIM_LEASE_MS)
  {
    var n := |es| - 1;
    if j == n {
    } else {
      assert es[..n][j] == es[j];
      ClaimStands(es[..n], j);
      StepOnClaim(After(es[..n]), es[n]);
    }
  }

  /**
   * PROTECTION. While a claim is held, not released and not overwritten by a save,
   * the next grant to anybody comes only after its whole lease, however the clock
   * moved in between: a running claim excludes every other attempt.
   */
  lemma ClaimProtectsItsLease(es: seq<Event>, j: nat, k: nat)
    requires Feasible(es) && j < k < |es| && es[j].ClaimGranted? && es[k].ClaimGranted?
    requires Undisturbed(es, j, k)
    ensures es[k].now > es[j].now + ANALYSIS_CLAIM_LEASE_MS
  {
    StepOf(es, k);
    assert es[..k][j] == es[j];
    assert Undisturbed(es[..k], j, k);
    ClaimStands(es[..k], j);
  }

  /**
   * CHECK AND WAIT. With its analysis ready, an attempt enters the transaction
   * exactly when the row is unlocked and still carries its token, and gives up
   * exactly when the row carries another or none; its release waits for the lock.
   */
  lemma CheckDecides(w: World, t: Token)
    requires t in w.attempts
    ensures Enabled(w, Fence(t)) <==> w.attempts[t].Analysed? && w.lock.None? && w.db.claimToken == Some(t)
    ensures Enabled(w, FenceLost(t)) <==> w.attempts[t].Analysed? && w.db.claimToken != Some(t)
    ensures Enabled(w, Finish(t)) <==>
            w.lock.None? && !(CanStillCommit(w, t) || w.attempts[t].Refused? || w.attempts[t].Finished? || w.attempts[t].Crashed?)
    ensures CanStillCommit(w, t) ==> !Enabled(w, Finish(t))
  {
  }

  /** RELEASE. Whoever finishes leaves no claim of its own behind; if it held the claim, any newcomer gets it at once. */
  lemma FinishFreesTheClaim(es: seq<Event>, t: Token, u: Token, now: int)
    requires Feasible(es) && Enabled(After(es), Finish(t)) && u !in After(es).attempts
    ensures Feasible(es + [Finish(t)])
    ensures After(es + [Finish(t)]).db.claimToken != Some(t)
    ensures After(es).db.claimToken == Some(t) ==> Feasible(es + [Finish(t)] + [ClaimGranted(u, now)])
    ensures After(es).db.claimToken != Some(t) ==>
              After(es + [Finish(t)]).db.claimToken == After(es).db.claimToken
              && After(es + [Finish(t)]).db.claimExpiresAt == After(es).db.claimExpiresAt
  {
    var finished := es + [Finish(t)];
    Extend(es, Finish(t));
    RunKeepsBasics(es);
    RunKeepsBasics(finished);
    assert (finished + [ClaimGranted(u, now)])[..|finished|] == finished;
  }

  /** A crashed transaction never keeps the row locked: the lock holder is always running, and failing or crashing frees it. */
  lemma LockHolderIsRunning(es: seq<Event>, t: Token)
    requires Feasible(es) && After(es).lock == Some(t)
    ensures Feasible(es + [Crash(t)]) && After(es + [Crash(t)]).lock.None?
    ensures Feasible(es + [Throw(t, true)]) && After(es + [Throw(t, true)]).lock.None?
  {
    RunKeepsBasics(es);
    Extend(es, Crash(t));
    Extend(es, Throw(t, true));
  }
}
