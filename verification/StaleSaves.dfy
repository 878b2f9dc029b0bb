/**
 * What a whole-row save of a stale copy does to the claim protocol: exactly when
 * it breaks fencing, and exactly when it costs a running attempt its analysis.
 */
module StaleSaves {
  import opened Common
  import opened AnalysisStore
  import opened AnalysisRuns

  /** Event i commits although somebody else was granted the claim after the attempt. */
  ghost predicate Unfenced(es: seq<Event>, i: nat)
    requires i < |es|
  {
    && es[i].CommitTransaction?
    && forall j | 0 <= j < i && es[j].ClaimGranted? && es[j].token == es[i].token :: !NoGrantBetween(es, j, i)
  }

  /** A continuation without further saves, ending in a commit of attempt t. */
  ghost predicate CommitsAfter(es: seq<Event>, more: seq<Event>, t: Token) {
    && NoSaves(more) && more != [] && Feasible(es + more)
    && more[|more| - 1].CommitTransaction? && more[|more| - 1].token == t
  }

  // ----- whoever holds the token can commit

  function FreshId(sessions: seq<Session>): (r: nat)
    ensures forall s | s in sessions :: s.id < r
  {
    if sessions == [] then 0
    else
      var rest := FreshId(sessions[1..]);
      if sessions[0].id < rest then rest else sessions[0].id + 1
  }

  /** Granted, and short of the transaction. */
  predicate StillBefore(phase: Phase) {
    phase.Claimed? || phase.LookedUp? || phase.Running? || phase.Analysed?
  }

  /** The steps a phase is away from the transaction. */
  function StepsLeft(phase: Phase): nat {
    if phase.Claimed? then 3 else if phase.LookedUp? then 2 else if phase.Running? then 1 else 0
  }

  function NextStep(phase: Phase, t: Token, analysis: Analysis): Event {
    if phase.Claimed? then LookUp(t)
    else if phase.LookedUp? then Start(t)
    else if phase.Running? then Analyse(t, analysis)
    else Fence(t)
  }

  /** The token is stored, the row unlocked, and the attempt on its way. */
  predicate Holds(w: World, t: Token) {
    w.lock.None? && w.db.claimToken == Some(t) && t in w.attempts && StillBefore(w.attempts[t])
  }

  lemma HolderSteps(w: World, t: Token, analysis: Analysis)
    requires Holds(w, t) && !w.attempts[t].Analysed?
    ensures var e := NextStep(w.attempts[t], t, analysis);
            && Enabled(w, e) && Holds(Apply(w, e), t)
            && StepsLeft(Apply(w, e).attempts[t]) < StepsLeft(w.attempts[t])
  {
  }

  lemma FenceAndCommit(es: seq<Event>, t: Token) returns (more: seq<Event>)
    requires Feasible(es) && Holds(After(es), t) && After(es).attempts[t].Analysed?
    ensures CommitsAfter(es, more, t) && NoGrants(more)
  {
    var commit := CommitTransaction(t, FreshId(After(es).db.sessions), 0);
    Extend(es, Fence(t));
    Extend(es + [Fence(t)], commit);
    more := [Fence(t), commit];
    assert es + more == es + [Fence(t)] + [commit];
  }

  predicate NoGrants(es: seq<Event>) {
    forall k | 0 <= k < |es| :: !es[k].ClaimGranted?
  }

  /** Whoever holds the token can commit, without any other event in between. */
  lemma HolderCommits(es: seq<Event>, t: Token, analysis: Analysis) returns (more: seq<Event>)
    requires Feasible(es) && Holds(After(es), t)
    ensures CommitsAfter(es, more, t) && NoGrants(more)
    decreases StepsLeft(After(es).attempts[t])
  {
    var w := After(es);
    if w.attempts[t].Analysed? {
      more := FenceAndCommit(es, t);
    } else {
      var e := NextStep(w.attempts[t], t, analysis);
      HolderSteps(w, t, analysis);
      Extend(es, e);
      var rest := HolderCommits(es + [e], t, analysis);
      more := [e] + rest;
      assert es + more == es + [e] + rest;
    }
  }

  // ----- fencing

  lemma {:induction false} GuardedOn(es: seq<Event>, more: seq<Event>)
    requires Guarded(es) && Feasible(es + more) && NoSaves(more)
    ensures Guarded(es + more)
  {
    if more == [] {
      assert es + more == es;
    } else {
      var n := |more| - 1;
      assert (es + more)[..|es + more| - 1] == es + more[..n];
      GuardedOn(es, more[..n]);
    }
  }

  /**
   * FENCING, EXACTLY. In a run guarded so far, a save makes an unfenced commit
   * possible exactly when it is harmful: the copy carries the token of an attempt
   * that somebody has overtaken and that has not given up. A harmless save keeps
   * the run guarded, so every theorem on guarded runs still holds after it.
   */
  lemma StaleSaveIsSafeIff(es: seq<Event>, r: nat)
    requires Guarded(es) && Enabled(After(es), SaveRow(r))
    ensures var saved := es + [SaveRow(r)];
            && Feasible(saved)
            && (Guarded(saved) <==> !Harmful(After(es), r))
            && ((exists more, t :: CommitsAfter(saved, more, t) && Unfenced(saved + more, |saved + more| - 1))
                <==> Harmful(After(es), r))
  {
    var saved := es + [SaveRow(r)];
    Extend(es, SaveRow(r));
    assert saved[..|es|] == es;
    if Harmful(After(es), r) {
      var t, more := HarmfulSaveUnfences(es, r);
    } else {
      forall more, t | CommitsAfter(saved, more, t) ensures !Unfenced(saved + more, |saved + more| - 1) {
        GuardedCommitIsFenced(saved, more, t);
      }
    }
  }

  lemma GuardedCommitIsFenced(es: seq<Event>, more: seq<Event>, t: Token)
    requires Guarded(es) && CommitsAfter(es, more, t)
    ensures !Unfenced(es + more, |es + more| - 1)
  {
    GuardedOn(es, more);
    var j := CommitIsFenced(es + more, |es + more| - 1);
  }

  lemma HarmfulSaveUnfences(es: seq<Event>, r: nat) returns (t: Token, more: seq<Event>)
    requires Feasible(es) && Enabled(After(es), SaveRow(r)) && Harmful(After(es), r)
    ensures var saved := es + [SaveRow(r)];
            CommitsAfter(saved, more, t) && Unfenced(saved + more, |saved + more| - 1)
  {
    t := After(es).copies[r].claimToken.value;
    Extend(es, SaveRow(r));
    RunKeepsBasics(es);
    more := HolderCommits(es + [SaveRow(r)], t, NOTHING);
    OvertakenCommit(es, SaveRow(r), more, t);
  }

  const NOTHING: Analysis := Analysis("", "", Impact(LOW, 0, 0, "", "", []), [])

  /** A commit of t after another claimant's grant, with no new grant in between, is unfenced. */
  lemma OvertakenCommit(es: seq<Event>, e: Event, more: seq<Event>, t: Token)
    requires Feasible(es) && After(es).claims != [] && LastClaim(After(es)) != Some(t)
    requires !e.ClaimGranted? && NoGrants(more) && more != []
    requires more[|more| - 1].CommitTransaction? && more[|more| - 1].token == t
    ensures Unfenced(es + [e] + more, |es + [e] + more| - 1)
  {
    var all := es + [e] + more;
    var last := LastGrant(es);
    assert forall k | |es| < k < |all| :: all[k] == more[k - |es| - 1];
    forall j | 0 <= j < |all| - 1 && all[j].ClaimGranted? && all[j].token == t
      ensures !NoGrantBetween(all, j, |all| - 1)
    {
      assert j < |es|;
      assert all[j] == es[j] && all[last] == es[last];
      assert j < last;
    }
  }

  /** The harmful copies, told by the run: granted, overtaken by a later grant, and short of its transaction. */
  lemma HarmfulMeans(es: seq<Event>, r: nat)
    requires Feasible(es) && Enabled(After(es), SaveRow(r))
    ensures Harmful(After(es), r) <==>
            exists j, k :: 0 <= j < k < |es| && es[j].ClaimGranted? && es[k].ClaimGranted?
              && After(es).copies[r].claimToken == Some(es[j].token)
              && es[j].token in After(es).attempts
              && StillBefore(After(es).attempts[es[j].token])
  {
    RunKeepsBasics(es);
    var w := After(es);
    if Harmful(w, r) {
      var t := w.copies[r].claimToken.value;
      var j := ColumnsFromGrant(es, Some(t), w.copies[r].claimExpiresAt.value);
      var k := LastGrant(es);
      assert j < k;
    }
    forall j, k | 0 <= j < k < |es| && es[j].ClaimGranted? && es[k].ClaimGranted?
      ensures LastClaim(w) != Some(es[j].token)
    {
      OvertakenIsNotLast(es, j, k);
    }
  }

  // ----- the attempt that loses its claim

  /** The copy is what the row held when it was read. */
  lemma {:induction false} CopyIsWhatWasRead(es: seq<Event>, i: nat, r: nat)
    requires Feasible(es) && i < |es| && es[i] == ReadRow(r) && NoSaves(es)
    ensures Feasible(es[..i]) && r in After(es).copies
    ensures After(es).copies[r] == Copy(After(es[..i]).db.claimToken, After(es[..i]).db.claimExpiresAt)
  {
    var n := |es| - 1;
    if i == n {
    } else {
      assert es[..n][..i] == es[..i];
      CopyIsWhatWasRead(es[..n], i, r);
    }
  }

  /** A claim held at the end by an attempt known earlier was held all the time in between. */
  lemma {:induction false} HeldSince(es: seq<Event>, i: nat, t: Token)
    requires Feasible(es) && NoSaves(es) && i <= |es| && Feasible(es[..i])
    requires t in After(es[..i]).attempts && After(es).db.claimToken == Some(t)
    ensures After(es[..i]).db.claimToken == Some(t)
  {
    if i == |es| {
      assert es[..i] == es;
    } else {
      var n := |es| - 1;
      assert es[..n][..i] == es[..i];
      KnownStays(es[..n], i, t);
      StepOnClaim(After(es[..n]), es[n]);
      HeldSince(es[..n], i, t);
    }
  }

  /** Without its token, and outside the transaction, an attempt never commits again. */
  lemma {:induction false} LostForGood(es: seq<Event>, more: seq<Event>, t: Token)
    requires Feasible(es) && Feasible(es + more) && NoSaves(more)
    requires t in After(es).attempts && !After(es).attempts[t].InTransaction? && After(es).db.claimToken != Some(t)
    ensures var w := After(es + more);
            t in w.attempts && !w.attempts[t].InTransaction? && w.db.claimToken != Some(t)
    ensures more != [] ==> !CommitsAfter(es, more, t)
  {
    if more == [] {
      assert es + more == es;
    } else {
      var n := |more| - 1;
      assert (es + more)[..|es + more| - 1] == es + more[..n];
      LostForGood(es, more[..n], t);
      StepOnClaim(After(es + more[..n]), more[n]);
    }
  }

  /**
   * LOST ANALYSIS, EXACTLY. A save, the first of the run, costs the attempt that
   * holds the claim its analysis exactly when the row was read before that attempt
   * was granted the claim.
   */
  lemma FirstSaveCostsTheAnalysisIff(es: seq<Event>, i: nat, r: nat, t: Token)
    requires Feasible(es) && NoSaves(es) && i < |es| && es[i] == ReadRow(r)
    requires Enabled(After(es), SaveRow(r))
    requires After(es).db.claimToken == Some(t) && CanStillCommit(After(es), t)
    ensures var saved := es + [SaveRow(r)];
            (exists more :: CommitsAfter(saved, more, t)) <==>
            (exists j :: 0 <= j < i && es[j].ClaimGranted? && es[j].token == t)
  {
    var saved := es + [SaveRow(r)];
    PrefixFeasible(es, i);
    RunKeepsBasics(es);
    RunKeepsBasics(es[..i]);
    Extend(es, SaveRow(r));
    CopyIsWhatWasRead(es, i, r);
    if t in After(es[..i]).attempts {
      HeldSince(es, i, t);
      var more := HolderCommits(saved, t, NOTHING);
      var j := ColumnsFromGrant(es[..i], Some(t), After(es[..i]).db.claimExpiresAt.value);
      assert es[..i][j] == es[j];
    } else {
      forall more | CommitsAfter(saved, more, t) ensures false {
        LostForGood(saved, more, t);
      }
      forall j | 0 <= j < i && es[j].ClaimGranted? ensures es[j].token != t {
        StepOf(es, j);
        assert es[..i][..j + 1] == es[..j + 1];
        KnownStays(es[..i], j + 1, es[j].token);
      }
    }
  }

  // ----- a run where fencing fails

  function OvertakenRun(analysis: Analysis): (r: seq<Event>)
    ensures |r| == 9
  {
    [ClaimGranted(1, 0), LookUp(1), Start(1), Analyse(1, analysis), ReadRow(0),
     ClaimGranted(2, ANALYSIS_CLAIM_LEASE_MS + 1), SaveRow(0), Fence(1), CommitTransaction(1, 0, 0)]
  }

  /** One more event of a run whose world is known. */
  lemma Reach(es: seq<Event>, k: nat, w: World)
    requires k < |es| && Feasible(es[..k]) && After(es[..k]) == w && Enabled(w, es[k])
    ensures Feasible(es[..k + 1]) && After(es[..k + 1]) == Apply(w, es[k])
  {
    assert es[..k] + [es[k]] == es[..k + 1];
    Extend(es[..k], es[k]);
  }

  const LEASE: Option<int> := Some(ANALYSIS_CLAIM_LEASE_MS)

  lemma ReachStart(es: seq<Event>, analysis: Analysis)
    requires |es| == 9 && es == OvertakenRun(analysis)
    ensures Feasible(es[..2])
    ensures After(es[..2]) == World(Db(Some(1), LEASE, [], None, None, [], []), map[1 := LookedUp(None)], [1], None, map[])
  {
    Reach(es, 0, INITIAL);
    Reach(es, 1, World(Db(Some(1), LEASE, [], None, None, [], []), map[1 := Claimed], [1], None, map[]));
  }

  lemma ReachAnalysis(es: seq<Event>, analysis: Analysis)
    requires |es| == 9 && es == OvertakenRun(analysis)
    ensures Feasible(es[..4])
    ensures After(es[..4]) == World(
      Db(Some(1), LEASE, [], None, None, [], [AnalysisStarted(1)]), map[1 := Analysed(None, analysis)], [1], None, map[])
  {
    ReachStart(es, analysis);
    Reach(es, 2, After(es[..2]));
    Reach(es, 3, World(
      Db(Some(1), LEASE, [], None, None, [], [AnalysisStarted(1)]), map[1 := Running(None)], [1], None, map[]));
  }

  lemma ReachTakeover(es: seq<Event>, analysis: Analysis)
    requires |es| == 9 && es == OvertakenRun(analysis)
    ensures Feasible(es[..6]) && !Enabled(After(es[..6]), Fence(1))
    ensures After(es[..6]).lock.None? && After(es[..6]).db.sessions == []
    ensures After(es[..6]).copies == map[0 := Copy(Some(1), LEASE)]
    ensures 1 in After(es[..6]).attempts && After(es[..6]).attempts[1] == Analysed(None, analysis)
  {
    ReachAnalysis(es, analysis);
    Reach(es, 4, After(es[..4]));
    Reach(es, 5, After(es[..5]));
  }

  /**
   * A run where it matters: attempt 1 is overtaken by attempt 2, a row read before
   * the takeover is saved after it, and attempt 1 commits under attempt 2's lease.
   */
  lemma StaleSaveBreaksFencing(analysis: Analysis)
    ensures var es := OvertakenRun(analysis);
            && Feasible(es) && Unfenced(es, 8)
            && Feasible(es[..6]) && !Enabled(After(es[..6]), Fence(1))
            && |After(es).db.sessions| == 1 && After(es).db.sessions[0].analysis == analysis
  {
    var es := OvertakenRun(analysis);
    ReachTakeover(es, analysis);
    ReachFence(es, analysis);
    Reach(es, 8, After(es[..8]));
    assert es[..9] == es;
    assert es[5].ClaimGranted?;
  }

  lemma ReachFence(es: seq<Event>, analysis: Analysis)
    requires |es| == 9 && es == OvertakenRun(analysis)
    ensures Feasible(es[..8]) && After(es[..8]).db.sessions == []
    ensures 1 in After(es[..8]).attempts && After(es[..8]).attempts[1] == InTransaction(None, analysis)
  {
    ReachTakeover(es, analysis);
    Reach(es, 6, After(es[..6]));
    Reach(es, 7, After(es[..7]));
  }
}
