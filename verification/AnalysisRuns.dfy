/**
 * Every interleaving of `AIOrchestrator.execute` on one situation: any number of
 * attempts claim, look up the latest version, call the provider, commit behind
 * the token check, release and crash, under a clock that may jump either way.
 *
 * The check (`SELECT ... FOR UPDATE`) locks the row until its transaction ends,
 * so claims and releases wait for it; every other statement of another attempt
 * may run in between. PATCH requests read the row and save it whole later.
 */
module AnalysisRuns {
  import opened Common
  import opened AnalysisStore

  /** How far an attempt has got. */
  datatype Phase =
    | Refused
    | Claimed
    | LookedUp(previous: Option<nat>)
    | Running(previous: Option<nat>)
    | Analysed(previous: Option<nat>, analysis: Analysis)
    | InTransaction(previous: Option<nat>, analysis: Analysis)
    | Committed
    | Lost
    | Failed
    | Finished
    | Crashed

  /** The claim columns of the row as some `update` request read them. */
  datatype Copy = Copy(claimToken: Option<Token>, claimExpiresAt: Option<int>)

  /**
   * `claims` lists the granted tokens in order; `lock` is the holder of the row
   * lock; `copies` are the rows read, and not saved yet, by `update` requests.
   */
  datatype World = World(
    db: Db, attempts: map<Token, Phase>, claims: seq<Token>, lock: Option<Token>, copies: map<nat, Copy>)

  /**
   * The last two are not steps of an attempt: `SituationsService.update` reads the
   * row without a lock and later saves the entity, which maps the claim columns too.
   */
  datatype Event =
    | ClaimGranted(token: Token, now: int)
    | ClaimRefused(token: Token, now: int)
    | LookUp(token: Token)
    | Start(token: Token)
    | Analyse(token: Token, analysis: Analysis)
    | Fence(token: Token)
    | FenceLost(token: Token)
    | CommitTransaction(token: Token, sessionId: nat, newAssessmentId: nat)
    | Throw(token: Token, logged: bool)
    | Finish(token: Token)
    | Crash(token: Token)
    | ReadRow(reader: nat)
    | SaveRow(reader: nat)

  const INITIAL: World := World(EMPTY, map[], [], None, map[])

  /** The event is a step of attempt t. */
  predicate StepBy(e: Event, t: Token) {
    !e.ReadRow? && !e.SaveRow? && e.token == t
  }

  predicate Enabled(w: World, e: Event) {
    match e
    case ClaimGranted(t, now) => t !in w.attempts && w.lock.None? && Claimable(w.db, now)
    case ClaimRefused(t, now) => t !in w.attempts && w.lock.None? && !Claimable(w.db, now)
    case ReadRow(r) => r !in w.copies
    case SaveRow(r) => r in w.copies && w.lock.None?
    case _ => e.token in w.attempts && EnabledIn(w, w.attempts[e.token], e)
  }

  /** What attempt `e.token`, being in `phase`, may do next. */
  predicate EnabledIn(w: World, phase: Phase, e: Event) {
    match e
    case LookUp(_) => phase.Claimed?
    case Start(_) => phase.LookedUp?
    case Analyse(_, _) => phase.Running?
    case Fence(t) => phase.Analysed? && w.lock.None? && w.db.claimToken == Some(t)
    case FenceLost(t) => phase.Analysed? && w.db.claimToken != Some(t)
    case CommitTransaction(_, id, _) => phase.InTransaction? && forall s | s in w.db.sessions :: s.id != id
    // Outside the inner try nothing is logged; inside it the failure entry may itself fail.
    case Throw(_, logged) =>
      || ((phase.Claimed? || phase.LookedUp?) && !logged)
      || phase.Running? || phase.Analysed? || phase.InTransaction? || phase.Committed?
    case Finish(_) => (phase.Committed? || phase.Lost? || phase.Failed?) && w.lock.None?
    case Crash(_) => !(phase.Refused? || phase.Finished? || phase.Crashed?)
    case _ => false
  }

  function Apply(w: World, e: Event): World
    requires Enabled(w, e)
  {
    match e
    case ClaimGranted(t, now) =>
      w.(db := Claim(w.db, t, now), attempts := w.attempts[t := Claimed], claims := w.claims + [t])
    case ClaimRefused(t, _) => w.(attempts := w.attempts[t := Refused])
    case LookUp(t) => w.(attempts := w.attempts[t := LookedUp(LatestVersion(w.db.sessions))])
    case Start(t) =>
      w.(db := Log(w.db, AnalysisStarted(t)), attempts := w.attempts[t := Running(w.attempts[t].previous)])
    case Analyse(t, analysis) => w.(attempts := w.attempts[t := Analysed(w.attempts[t].previous, analysis)])
    case Fence(t) =>
      var phase := w.attempts[t];
      w.(attempts := w.attempts[t := InTransaction(phase.previous, phase.analysis)], lock := Some(t))
    case FenceLost(t) => w.(attempts := w.attempts[t := Lost])
    case CommitTransaction(t, sessionId, newAssessmentId) =>
      var phase := w.attempts[t];
      w.(db := Commit(w.db, phase.previous, phase.analysis, sessionId, newAssessmentId),
         attempts := w.attempts[t := Committed], lock := None)
    case Throw(t, logged) =>
      w.(db := if logged then Log(w.db, AnalysisFailed(t)) else w.db,
         attempts := w.attempts[t := Failed], lock := if w.lock == Some(t) then None else w.lock)
    case Finish(t) => w.(db := Release(w.db, t), attempts := w.attempts[t := Finished])
    case Crash(t) =>
      w.(attempts := w.attempts[t := Crashed], lock := if w.lock == Some(t) then None else w.lock)
    case ReadRow(r) => w.(copies := w.copies[r := Copy(w.db.claimToken, w.db.claimExpiresAt)])
    case SaveRow(r) =>
      var copy := w.copies[r];
      w.(db := w.db.(claimToken := copy.claimToken, claimExpiresAt := copy.claimExpiresAt), copies := w.copies - {r})
  }

  // ----- runs

  function Run(es: seq<Event>): Option<World> {
    if es == [] then Some(INITIAL)
    else
      var before := Run(es[..|es| - 1]);
      if before.Some? && Enabled(before.value, es[|es| - 1])
      then Some(Apply(before.value, es[|es| - 1]))
      else None
  }

  predicate Feasible(es: seq<Event>) {
    Run(es).Some?
  }

  /** The world a feasible run leads to. */
  function After(es: seq<Event>): World
    requires Feasible(es)
  {
    Run(es).value
  }

  lemma {:induction false} PrefixFeasible(es: seq<Event>, i: nat)
    requires Feasible(es) && i <= |es|
    ensures Feasible(es[..i])
    decreases |es| - i
  {
    if i == |es| {
      assert es[..i] == es;
    } else {
      PrefixFeasible(es, i + 1);
      assert es[..i + 1][..i] == es[..i];
    }
  }

  /** Event i of a feasible run was enabled where it happened. */
  lemma StepOf(es: seq<Event>, i: nat)
    requires Feasible(es) && i < |es|
    ensures Feasible(es[..i]) && Feasible(es[..i + 1])
    ensures Enabled(After(es[..i]), es[i])
    ensures After(es[..i + 1]) == Apply(After(es[..i]), es[i])
  {
    PrefixFeasible(es, i + 1);
    PrefixFeasible(es, i);
    assert es[..i + 1][..i] == es[..i];
  }

  lemma Extend(es: seq<Event>, e: Event)
    requires Feasible(es) && Enabled(After(es), e)
    ensures Feasible(es + [e]) && After(es + [e]) == Apply(After(es), e)
  {
    assert (es + [e])[..|es|] == es;
  }

  // ----- whole-row saves

  /** The attempt may still reach its commit. */
  predicate CanStillCommit(w: World, t: Token) {
    t in w.attempts && var phase := w.attempts[t];
    phase.Claimed? || phase.LookedUp? || phase.Running? || phase.Analysed? || phase.InTransaction?
  }

  function LastClaim(w: World): Option<Token> {
    if w.claims == [] then None else Some(w.claims[|w.claims| - 1])
  }

  /** The copy carries the token of an attempt that was overtaken and has not given up. */
  predicate Harmful(w: World, reader: nat)
    requires reader in w.copies
  {
    var token := w.copies[reader].claimToken;
    token.Some? && token != LastClaim(w) && CanStillCommit(w, token.value)
  }

  /** A feasible run none of whose saves is harmful. */
  predicate Guarded(es: seq<Event>) {
    Feasible(es) &&
    (es == [] ||
     var n := |es| - 1;
     Guarded(es[..n]) && (es[n].SaveRow? ==> !Harmful(After(es[..n]), es[n].reader)))
  }

  predicate NoSaves(es: seq<Event>) {
    forall i | 0 <= i < |es| :: !es[i].SaveRow?
  }

  /** Without whole-row saves there is nothing to guard. */
  lemma {:induction false} NoSavesGuarded(es: seq<Event>)
    requires Feasible(es) && NoSaves(es)
    ensures Guarded(es)
  {
    if es == [] {
    } else {
      NoSavesGuarded(es[..|es| - 1]);
    }
  }

  lemma {:induction false} PrefixGuarded(es: seq<Event>, i: nat)
    requires Guarded(es) && i <= |es|
    ensures Guarded(es[..i])
    decreases |es| - i
  {
    if i == |es| {
      assert es[..i] == es;
    } else {
      PrefixGuarded(es, i + 1);
      assert es[..i + 1][..i] == es[..i];
    }
  }

  // ----- what holds in every run, whatever is saved

  ghost predicate LockHeld(w: World) {
    && (w.lock.Some? ==> w.db.claimToken == w.lock && w.lock.value in w.attempts
                         && w.attempts[w.lock.value].InTransaction?)
    && (forall t | t in w.attempts && w.attempts[t].InTransaction? :: w.lock == Some(t))
  }

  ghost predicate ClaimsKnown(w: World) {
    && (w.db.claimToken.Some? <==> w.db.claimExpiresAt.Some?)
    && (w.db.claimToken.Some? ==> w.db.claimToken.value in w.claims)
    && (forall t | t in w.claims :: t in w.attempts)
    && (forall r | r in w.copies ::
          && (w.copies[r].claimToken.Some? <==> w.copies[r].claimExpiresAt.Some?)
          && (w.copies[r].claimToken.Some? ==> w.copies[r].claimToken.value in w.claims))
  }

  /** The claim columns and the lock are touched by the events that own them only. */
  lemma StepOnClaim(w: World, e: Event)
    requires Enabled(w, e)
    ensures var after := Apply(w, e);
            && (!e.ClaimGranted? && !e.Finish? && !e.SaveRow? ==>
                  after.db.claimToken == w.db.claimToken && after.db.claimExpiresAt == w.db.claimExpiresAt)
            && (e.Finish? ==> after.db.claimToken == if w.db.claimToken == Some(e.token) then None else w.db.claimToken)
            && (!e.CommitTransaction? ==> after.db.sessions == w.db.sessions)
            && (!e.ClaimGranted? ==> after.claims == w.claims)
  {
  }

  lemma StepKeepsLock(w: World, e: Event)
    requires LockHeld(w) && Enabled(w, e)
    ensures LockHeld(Apply(w, e))
  {
    StepOnClaim(w, e);
  }

  lemma StepKeepsClaims(w: World, e: Event)
    requires ClaimsKnown(w) && Enabled(w, e)
    ensures ClaimsKnown(Apply(w, e))
  {
    StepOnClaim(w, e);
  }

  lemma {:induction false} RunKeepsBasics(es: seq<Event>)
    requires Feasible(es)
    ensures LockHeld(After(es)) && ClaimsKnown(After(es))
  {
    if es == [] {
    } else {
      RunKeepsBasics(es[..|es| - 1]);
      StepKeepsLock(After(es[..|es| - 1]), es[|es| - 1]);
      StepKeepsClaims(After(es[..|es| - 1]), es[|es| - 1]);
    }
  }

  /** A token drawn at some point of the run stays known. */
  lemma {:induction false} KnownStays(es: seq<Event>, i: nat, t: Token)
    requires Feasible(es) && i <= |es| && Feasible(es[..i]) && t in After(es[..i]).attempts
    ensures t in After(es).attempts
  {
    if i == |es| {
      assert es[..i] == es;
    } else {
      var n := |es| - 1;
      assert es[..n][..i] == es[..i];
      KnownStays(es[..n], i, t);
      StepKnows(After(es[..n]), es[n], t);
    }
  }

  lemma StepKnows(w: World, e: Event, t: Token)
    requires Enabled(w, e) && t in w.attempts
    ensures t in Apply(w, e).attempts
  {
  }

  /** Tokens are drawn once: two grants of one token are the same event. */
  lemma GrantedOnce(es: seq<Event>, i: nat, j: nat)
    requires Feasible(es) && i < |es| && j < |es|
    requires es[i].ClaimGranted? && es[j].ClaimGranted? && es[i].token == es[j].token
    ensures i == j
  {
    if i < j {
      StepOf(es, i);
      StepOf(es, j);
      assert es[..j][..i + 1] == es[..i + 1];
      KnownStays(es[..j], i + 1, es[i].token);
    } else if j < i {
      GrantedOnce(es, j, i);
    }
  }

  predicate NoGrantBetween(es: seq<Event>, low: nat, high: nat)
    requires high <= |es|
  {
    forall k | low < k < high :: !es[k].ClaimGranted?
  }

  /** The last granted token, and where in the run it was granted. */
  lemma {:induction false} LastGrant(es: seq<Event>) returns (j: nat)
    requires Feasible(es) && After(es).claims != []
    ensures j < |es| && es[j].ClaimGranted? && NoGrantBetween(es, j, |es|)
    ensures Some(es[j].token) == LastClaim(After(es))
  {
    var n := |es| - 1;
    if es[n].ClaimGranted? {
      j := n;
    } else {
      StepOnClaim(After(es[..n]), es[n]);
      j := LastGrant(es[..n]);
    }
  }

  // ----- the invariant of guarded runs

  predicate RemembersPrevious(phase: Phase) {
    phase.LookedUp? || phase.Running? || phase.Analysed? || phase.InTransaction?
  }

  /** The stored token is the last granted one, or belongs to an attempt that has given up. */
  ghost predicate HolderCurrent(w: World) {
    w.db.claimToken.Some? && CanStillCommit(w, w.db.claimToken.value) ==> w.db.claimToken == LastClaim(w)
  }

  /** The version the last claimant read before the slow call is still the latest. */
  ghost predicate PreviousCurrent(w: World) {
    LastClaim(w).Some? ==>
      var t := LastClaim(w).value;
      t in w.attempts && (RemembersPrevious(w.attempts[t]) ==>
        w.attempts[t].previous == LatestVersion(w.db.sessions))
  }

  ghost predicate Inv(w: World) {
    LockHeld(w) && ClaimsKnown(w) && HolderCurrent(w) && PreviousCurrent(w) && Consistent(w.db)
  }

  lemma LogKeepsConsistent(db: Db, entry: Entry)
    requires Consistent(db) && (entry.AnalysisStarted? || entry.AnalysisFailed?)
    ensures Consistent(Log(db, entry))
  {
    LoggedOne(db.timeline, entry);
  }

  lemma ClaimColumnsDoNotMatter(a: Db, b: Db)
    requires Consistent(a)
    requires b == a.(claimToken := b.claimToken, claimExpiresAt := b.claimExpiresAt)
    ensures Consistent(b)
  {
  }

  /** Whoever holds the lock is the last claimant and read the latest version. */
  lemma LockHolderIsCurrent(w: World, t: Token)
    requires Inv(w) && t in w.attempts && w.attempts[t].InTransaction?
    ensures LastClaim(w) == Some(t) && w.attempts[t].previous == LatestVersion(w.db.sessions)
  {
    assert CanStillCommit(w, t);
  }

  lemma StepKeepsConsistent(w: World, e: Event)
    requires Inv(w) && Enabled(w, e)
    ensures Consistent(Apply(w, e).db)
  {
    match e
    case ClaimGranted(_, _) => ClaimColumnsDoNotMatter(w.db, Apply(w, e).db);
    case Finish(_) => ClaimColumnsDoNotMatter(w.db, Apply(w, e).db);
    case SaveRow(_) => ClaimColumnsDoNotMatter(w.db, Apply(w, e).db);
    case Start(t) => LogKeepsConsistent(w.db, AnalysisStarted(t));
    case Throw(t, _) => LogKeepsConsistent(w.db, AnalysisFailed(t));
    case CommitTransaction(t, sessionId, newAssessmentId) =>
      var phase := w.attempts[t];
      LockHolderIsCurrent(w, t);
      CommitKeepsConsistent(w.db, phase.previous, phase.analysis, sessionId, newAssessmentId);
    case _ =>
  }

  lemma StepKeepsHolder(w: World, e: Event)
    requires Inv(w) && Enabled(w, e) && (e.SaveRow? ==> !Harmful(w, e.reader))
    ensures HolderCurrent(Apply(w, e))
  {
    StepOnClaim(w, e);
  }

  lemma StepKeepsPrevious(w: World, e: Event)
    requires Inv(w) && Enabled(w, e)
    ensures PreviousCurrent(Apply(w, e))
  {
    StepOnClaim(w, e);
    match e
    case CommitTransaction(t, _, _) => LockHolderIsCurrent(w, t);
    case ClaimGranted(t, _) => assert LastClaim(Apply(w, e)) == Some(t);
    case _ => assert LastClaim(Apply(w, e)) == LastClaim(w);
  }

  lemma StepKeepsInv(w: World, e: Event)
    requires Inv(w) && Enabled(w, e) && (e.SaveRow? ==> !Harmful(w, e.reader))
    ensures Inv(Apply(w, e))
  {
    StepKeepsLock(w, e);
    StepKeepsClaims(w, e);
    StepKeepsHolder(w, e);
    StepKeepsPrevious(w, e);
    StepKeepsConsistent(w, e);
  }

  lemma {:induction false} RunKeepsInv(es: seq<Event>)
    requires Guarded(es)
    ensures Inv(After(es))
  {
    if es == [] {
    } else {
      RunKeepsInv(es[..|es| - 1]);
      StepKeepsInv(After(es[..|es| - 1]), es[|es| - 1]);
    }
  }

  // ----- main results

  /**
   * FENCED COMMIT. Whenever an attempt commits, it had been granted the claim
   * and nobody else has been granted it since, whatever the clock did.
   */
  lemma CommitIsFenced(es: seq<Event>, i: nat) returns (j: nat)
    requires Guarded(es) && i < |es| && es[i].CommitTransaction?
    ensures j < i && es[j].ClaimGranted? && es[j].token == es[i].token && NoGrantBetween(es, j, i)
  {
    PrefixGuarded(es, i);
    StepOf(es, i);
    RunKeepsInv(es[..i]);
    LockHolderIsCurrent(After(es[..i]), es[i].token);
    j := LastGrant(es[..i]);
    assert forall k | j < k < i :: es[..i][k] == es[k];
  }

  /** What an overtaken attempt must not touch. */
  ghost predicate SameResults(a: Db, b: Db) {
    && a.sessions == b.sessions
    && a.record == b.record
    && a.assessment == b.assessment
    && a.recommendations == b.recommendations
    && VersionsLogged(a.timeline) == VersionsLogged(b.timeline)
    && Reanalyses(a.timeline) == Reanalyses(b.timeline)
  }

  ghost predicate SameClaim(a: Db, b: Db) {
    a.claimToken == b.claimToken && a.claimExpiresAt == b.claimExpiresAt
  }

  lemma WithoutLockNothingIsWritten(w: World, e: Event, t: Token)
    requires Enabled(w, e) && StepBy(e, t) && t in w.attempts && !w.attempts[t].InTransaction?
    ensures SameResults(w.db, Apply(w, e).db)
    ensures w.db.claimToken != Some(t) ==> SameClaim(w.db, Apply(w, e).db)
  {
    match e
    case Start(_) => LoggedOne(w.db.timeline, AnalysisStarted(t));
    case Throw(_, _) => LoggedOne(w.db.timeline, AnalysisFailed(t));
    case _ =>
  }

  /** Without whole-row saves the stored token is always the last granted one. */
  lemma {:induction false} HolderIsLastClaim(es: seq<Event>)
    requires Feasible(es) && NoSaves(es)
    ensures After(es).db.claimToken.Some? ==> After(es).db.claimToken == LastClaim(After(es))
  {
    if es == [] {
    } else {
      HolderIsLastClaim(es[..|es| - 1]);
      StepOnClaim(After(es[..|es| - 1]), es[|es| - 1]);
    }
  }

  /** A later grant (event k) means that attempt es[j].token is not the last claimant any more. */
  lemma OvertakenIsNotLast(es: seq<Event>, j: nat, k: nat)
    requires Feasible(es) && j < k < |es| && es[j].ClaimGranted? && es[k].ClaimGranted?
    ensures es[j].token in After(es).attempts && LastClaim(After(es)) != Some(es[j].token)
  {
    StepOf(es, j);
    KnownStays(es, j + 1, es[j].token);
    if After(es).claims != [] {
      var l := LastGrant(es);
      if es[l].token == es[j].token {
        GrantedOnce(es, l, j);
      }
    }
  }

  /**
   * OVERTAKEN. Once a later grant (event k) followed an attempt's own (event j),
   * nothing that attempt still does adds a session, record, assessment,
   * recommendation or version entry, and its late release never clears another
   * attempt's claim (nor any claim, unless a whole-row save put its own token back).
   */
  lemma OvertakenWritesNothing(es: seq<Event>, j: nat, k: nat, i: nat)
    requires Guarded(es) && j < k < i < |es|
    requires es[j].ClaimGranted? && es[k].ClaimGranted? && StepBy(es[i], es[j].token)
    ensures Feasible(es[..i]) && Feasible(es[..i + 1])
    ensures var before, after := After(es[..i]).db, After(es[..i + 1]).db;
            && SameResults(before, after)
            && (before.claimToken != Some(es[i].token) || NoSaves(es[..i]) ==> SameClaim(before, after))
  {
    PrefixGuarded(es, i);
    StepOf(es, i);
    RunKeepsInv(es[..i]);
    var w, t := After(es[..i]), es[i].token;
    assert es[..i][j] == es[j] && es[..i][k] == es[k];
    OvertakenIsNotLast(es[..i], j, k);
    if w.attempts[t].InTransaction? {
      LockHolderIsCurrent(w, t);
      assert false;
    }
    WithoutLockNothingIsWritten(w, es[i], t);
    if NoSaves(es[..i]) {
      HolderIsLastClaim(es[..i]);
    }
  }

  /**
   * VERSIONS AND CURRENT RESULT. In every reachable state the versions are 1..n
   * without gap or repeat, and the record, session n and the stored assessment
   * come from one and the same analysis.
   */
  lemma ResultsAgree(es: seq<Event>)
    requires Guarded(es)
    ensures Numbered(After(es).db.sessions) && FromOneAnalysis(After(es).db)
    ensures After(es).db.recommendations == AllTitles(After(es).db.sessions)
  {
    RunKeepsInv(es);
    ConsistentAgrees(After(es).db);
  }

  /** Record, last session and stored assessment come from one and the same analysis. */
  ghost predicate FromOneAnalysis(db: Db) {
    && (db.sessions == [] ==> db.record.None? && db.assessment.None?)
    && (db.sessions != [] ==>
         var last := db.sessions[|db.sessions| - 1];
         && db.record.Some? && db.assessment.Some?
         && db.record.value.currentSessionId == last.id
         && db.record.value.analysis == last.analysis
         && IsAssessmentOf(last.analysis.impact, db.assessment.value.impact)
         && last.version == |db.sessions|)
  }

  lemma ConsistentAgrees(db: Db)
    requires Consistent(db)
    ensures FromOneAnalysis(db)
  {
  }

  lemma {:induction false} SuccessionAt(n: nat, i: nat)
    requires i + 1 < n
    ensures |Successions(n)| == n - 1 && Successions(n)[i] == (i + 1, i + 2)
  {
    if n > 2 && i + 2 < n {
      SuccessionAt(n - 1, i);
    } else if n > 2 {
      SuccessionAt(n - 1, n - 3);
    }
  }

  /** The timeline announces version v once, and re-analyses v - 1 -> v once for v > 1. */
  ghost predicate AnnouncedOnce(db: Db, v: nat)
    requires 1 <= v <= |db.sessions|
  {
    && |VersionsLogged(db.timeline)| == |db.sessions|
    && VersionsLogged(db.timeline)[v - 1] == (v, db.sessions[v - 1].id)
    && |Reanalyses(db.timeline)| == |db.sessions| - 1
    && (v > 1 ==> Reanalyses(db.timeline)[v - 2] == (v - 1, v))
  }

  lemma ConsistentAnnounces(db: Db, v: nat)
    requires Consistent(db) && 1 <= v <= |db.sessions|
    ensures AnnouncedOnce(db, v)
  {
    var n := |db.sessions|;
    if v > 1 {
      SuccessionAt(n, v - 2);
    } else if n > 1 {
      SuccessionAt(n, 0);
    }
  }

  /**
   * HISTORY. The timeline announces version v exactly once, for v = 1..n, and
   * carries one re-analysis entry v -> v + 1 for each version after the first,
   * in order, although "previous" was read long before the commit.
   */
  lemma HistoryIsExact(es: seq<Event>, v: nat)
    requires Guarded(es) && 1 <= v <= |After(es).db.sessions|
    ensures AnnouncedOnce(After(es).db, v)
  {
    RunKeepsInv(es);
    ConsistentAnnounces(After(es).db, v);
  }

  function Commits(es: seq<Event>): nat {
    if es == [] then 0
    else Commits(es[..|es| - 1]) + if es[|es| - 1].CommitTransaction? then 1 else 0
  }

  /** Stored versions are never lost or rewritten, and there is one for each commit. */
  lemma {:induction false} SessionsOnlyGrow(es: seq<Event>, i: nat)
    requires Feasible(es) && i <= |es|
    ensures Feasible(es[..i]) && After(es[..i]).db.sessions <= After(es).db.sessions
    ensures |After(es).db.sessions| == Commits(es)
    decreases |es|
  {
    PrefixFeasible(es, i);
    if es != [] {
      var n := |es| - 1;
      if i == |es| {
        SessionsOnlyGrow(es[..n], 0);
        assert es[..i] == es;
      } else {
        assert es[..n][..i] == es[..i];
        SessionsOnlyGrow(es[..n], i);
      }
      StepOnClaim(After(es[..n]), es[n]);
    }
  }

  // ----- availability, whatever is saved

  ghost predicate ExpiryFromGrant(es: seq<Event>, j: nat)
    requires Feasible(es) && j < |es|
  {
    && es[j].ClaimGranted?
    && After(es).db.claimToken == Some(es[j].token)
    && After(es).db.claimExpiresAt == Some(es[j].now + ANALYSIS_CLAIM_LEASE_MS)
  }

  /** The stored columns, or some copy of them. */
  ghost predicate Carries(w: World, token: Option<Token>, expires: int) {
    || (w.db.claimToken == token && w.db.claimExpiresAt == Some(expires))
    || exists r :: r in w.copies && w.copies[r] == Copy(token, Some(expires))
  }

  lemma {:induction false} ColumnsFromGrant(es: seq<Event>, token: Option<Token>, expires: int) returns (j: nat)
    requires Feasible(es) && Carries(After(es), token, expires)
    ensures j < |es| && es[j].ClaimGranted?
    ensures token == Some(es[j].token) && expires == es[j].now + ANALYSIS_CLAIM_LEASE_MS
  {
    var n := |es| - 1;
    if es[n].ClaimGranted? && token == Some(es[n].token) && expires == es[n].now + ANALYSIS_CLAIM_LEASE_MS {
      j := n;
    } else {
      StepOnClaim(After(es[..n]), es[n]);
      j := ColumnsFromGrant(es[..n], token, expires);
    }
  }

  /** A stored expiry is one lease after the grant of the token stored with it. */
  lemma ExpiryIsOneLease(es: seq<Event>) returns (j: nat)
    requires Feasible(es) && After(es).db.claimExpiresAt.Some?
    ensures j < |es| && ExpiryFromGrant(es, j)
  {
    var db := After(es).db;
    j := ColumnsFromGrant(es, db.claimToken, db.claimExpiresAt.value);
  }

  /**
   * AVAILABILITY. From every reachable state, crashes included, a new attempt is
   * granted the claim exactly when the row is unlocked and the stored expiry (if
   * any) has passed; a refusal means that some attempt was granted the claim less
   * than or exactly one lease before. After the grant the newcomer may commit.
   */
  lemma BlockedAtMostOneLease(es: seq<Event>, t: Token, now: int) returns (j: nat)
    requires Feasible(es) && After(es).lock.None? && t !in After(es).attempts
    ensures var expires := After(es).db.claimExpiresAt;
            && (Feasible(es + [ClaimGranted(t, now)]) <==> expires.None? || expires.value < now)
            && (Feasible(es + [ClaimRefused(t, now)]) <==> expires.Some? && now <= expires.value)
    ensures Feasible(es + [ClaimRefused(t, now)]) ==>
              j < |es| && ExpiryFromGrant(es, j) && now <= es[j].now + ANALYSIS_CLAIM_LEASE_MS
    ensures Feasible(es + [ClaimGranted(t, now)]) ==>
              After(es + [ClaimGranted(t, now)]).db.claimToken == Some(t)
              && After(es + [ClaimGranted(t, now)]).db.claimExpiresAt == Some(now + ANALYSIS_CLAIM_LEASE_MS)
  {
    var granted, refused := es + [ClaimGranted(t, now)], es + [ClaimRefused(t, now)];
    assert granted[..|es|] == es && refused[..|es|] == es;
    j := 0;
    if !Claimable(After(es).db, now) {
      j := ExpiryIsOneLease(es);
    }
  }
}
