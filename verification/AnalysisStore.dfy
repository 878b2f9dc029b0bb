/**
 * What PostgreSQL stores about the AI analysis of one situation, and the
 * statements that `AIOrchestrator.execute` issues against it.
 *
 * `Db` is the stored value; the functions say what each statement does to it,
 * and the class `AnalysisRows` performs them on mutable fields.
 */
module AnalysisStore {
  import opened Common
  import opened Text

  /** Lease of a claim, in milliseconds. */
  const ANALYSIS_CLAIM_LEASE_MS: int := 150_000

  /** A claim token (`randomUUID()`), which also names the attempt that drew it. */
  type Token = nat

  datatype Affected = Affected(coordinationId: string, impactLevel: Severity, description: string)

  datatype Impact = Impact(
    operationalSeverity: Severity,
    confidence: int,
    estimatedDurationMinutes: int,
    summary: string,
    reasoning: string,
    affected: seq<Affected>)

  datatype Analysis = Analysis(provider: string, headline: string, impact: Impact, recommendations: seq<string>)

  datatype Session = Session(id: nat, version: nat, provider: string, analysis: Analysis)

  datatype Record = Record(currentSessionId: nat, provider: string, analysis: Analysis)

  datatype Assessment = Assessment(id: nat, impact: Impact)

  datatype Entry =
    | AnalysisStarted(token: Token)
    | AnalysisFailed(token: Token)
    | Analyzed(headline: string)
    | RecommendationGenerated(title: string)
    | VersionCreated(version: nat, sessionId: nat)
    | Reanalyzed(fromVersion: nat, toVersion: nat, toSessionId: nat)

  datatype Db = Db(
    claimToken: Option<Token>,
    claimExpiresAt: Option<int>,
    sessions: seq<Session>,
    record: Option<Record>,
    assessment: Option<Assessment>,
    recommendations: seq<string>,
    timeline: seq<Entry>)

  const EMPTY: Db := Db(None, None, [], None, None, [], [])

  // ----- claim columns

  predicate Claimable(db: Db, now: int) {
    db.claimExpiresAt.None? || db.claimExpiresAt.value < now
  }

  function Claim(db: Db, token: Token, now: int): Db {
    db.(claimToken := Some(token), claimExpiresAt := Some(now + ANALYSIS_CLAIM_LEASE_MS))
  }

  function Release(db: Db, token: Token): Db {
    if db.claimToken == Some(token) then db.(claimToken := None, claimExpiresAt := None) else db
  }

  function Log(db: Db, entry: Entry): Db {
    db.(timeline := db.timeline + [entry])
  }

  // ----- what an analysis must leave behind, said of the rows

  /** The stored assessment: figures as given, every text trimmed, affected coordinations one by one. */
  ghost predicate IsAssessmentOf(impact: Impact, stored: Impact) {
    && stored.operationalSeverity == impact.operationalSeverity
    && stored.confidence == impact.confidence
    && stored.estimatedDurationMinutes == impact.estimatedDurationMinutes
    && stored.summary == Trim(impact.summary)
    && stored.reasoning == Trim(impact.reasoning)
    && |stored.affected| == |impact.affected|
    && (forall i | 0 <= i < |impact.affected| ::
         && stored.affected[i].coordinationId == impact.affected[i].coordinationId
         && stored.affected[i].impactLevel == impact.affected[i].impactLevel
         && stored.affected[i].description == Trim(impact.affected[i].description))
  }

  /** One recommendation for each the analysis gives, at its place, trimmed. */
  ghost predicate AreTitles(analysis: Analysis, titles: seq<string>) {
    && |titles| == |analysis.recommendations|
    && (forall i | 0 <= i < |titles| :: titles[i] == Trim(analysis.recommendations[i]))
  }

  /** One entry for each recommendation, then one for the analysis. */
  ghost predicate AreEntries(analysis: Analysis, entries: seq<Entry>) {
    var n := |analysis.recommendations|;
    && |entries| == n + 1
    && (forall i | 0 <= i < n :: entries[i] == RecommendationGenerated(Trim(analysis.recommendations[i])))
    && entries[n] == Analyzed(analysis.headline)
  }

  /** What `persistAnalysis` adds to the rows; the assessment keeps its id. Claim, sessions and record are not its own. */
  ghost predicate Persisted(before: Db, after: Db, analysis: Analysis, newAssessmentId: nat) {
    && after.assessment.Some?
    && after.assessment.value.id == (if before.assessment.Some? then before.assessment.value.id else newAssessmentId)
    && IsAssessmentOf(analysis.impact, after.assessment.value.impact)
    && before.recommendations <= after.recommendations
    && AreTitles(analysis, after.recommendations[|before.recommendations|..])
    && before.timeline <= after.timeline
    && |after.timeline| > |before.timeline| + |analysis.recommendations|
    && AreEntries(analysis, after.timeline[|before.timeline|..|before.timeline| + |analysis.recommendations| + 1])
  }

  /** The last entries of a commit: the new version, and for a later one the version it follows. */
  ghost predicate Announced(before: Db, after: Db, previous: Option<nat>, analysis: Analysis, session: Session) {
    var n := |before.timeline| + |analysis.recommendations| + 1;
    && |after.timeline| == n + (if previous.Some? then 2 else 1)
    && after.timeline[n] == VersionCreated(session.version, session.id)
    && (previous.Some? ==> after.timeline[n + 1] == Reanalyzed(previous.value, session.version, session.id))
  }

  // ----- results of an analysis

  /** `ORDER BY version DESC LIMIT 1`. */
  function Latest(sessions: seq<Session>): (r: Option<Session>)
    ensures r.None? <==> sessions == []
    ensures r.Some? ==> r.value in sessions
    ensures r.Some? ==> forall s | s in sessions :: s.version <= r.value.version
  {
    if sessions == [] then None
    else
      var rest := Latest(sessions[1..]);
      if rest.Some? && rest.value.version >= sessions[0].version then rest else Some(sessions[0])
  }

  function LatestVersion(sessions: seq<Session>): Option<nat> {
    if Latest(sessions).None? then None else Some(Latest(sessions).value.version)
  }

  function Titles(analysis: Analysis): (r: seq<string>)
    ensures AreTitles(analysis, r)
  {
    seq(|analysis.recommendations|, i requires 0 <= i < |analysis.recommendations| => Trim(analysis.recommendations[i]))
  }

  function TitleEntries(titles: seq<string>): (r: seq<Entry>)
    ensures |r| == |titles|
  {
    seq(|titles|, i requires 0 <= i < |titles| => RecommendationGenerated(titles[i]))
  }

  function Stored(impact: Impact): (r: Impact)
    ensures IsAssessmentOf(impact, r)
  {
    impact.(
      summary := Trim(impact.summary),
      reasoning := Trim(impact.reasoning),
      affected := seq(|impact.affected|, i requires 0 <= i < |impact.affected| =>
        impact.affected[i].(description := Trim(impact.affected[i].description))))
  }

  /** The entries `persistAnalysis` appends: one per recommendation, then the analysis itself. */
  function PersistEntries(analysis: Analysis): seq<Entry> {
    TitleEntries(Titles(analysis)) + [Analyzed(analysis.headline)]
  }

  /** `persistAnalysis`: replace or save the assessment, then append recommendations and entries. */
  function Persist(db: Db, analysis: Analysis, newAssessmentId: nat): Db {
    var id := if db.assessment.Some? then db.assessment.value.id else newAssessmentId;
    db.(
      assessment := Some(Assessment(id, Stored(analysis.impact))),
      recommendations := db.recommendations + Titles(analysis),
      timeline := db.timeline + PersistEntries(analysis))
  }

  function NewSession(db: Db, analysis: Analysis, sessionId: nat): Session {
    var latest := LatestVersion(db.sessions);
    Session(sessionId, (if latest.Some? then latest.value else 0) + 1, analysis.provider, analysis)
  }

  function VersionEntries(previous: Option<nat>, session: Session): seq<Entry> {
    [VersionCreated(session.version, session.id)] +
    if previous.Some? then [Reanalyzed(previous.value, session.version, session.id)] else []
  }

  /** Everything the commit transaction writes once the claim check has passed. */
  function Commit(db: Db, previous: Option<nat>, analysis: Analysis, sessionId: nat, newAssessmentId: nat): Db {
    var persisted := Persist(db, analysis, newAssessmentId);
    var session := NewSession(db, analysis, sessionId);
    persisted.(
      sessions := db.sessions + [session],
      record := Some(Record(session.id, analysis.provider, analysis)),
      timeline := persisted.timeline + VersionEntries(previous, session))
  }

  // ----- consistency of the stored results

  /** The (version, session) pairs announced on the timeline. */
  function VersionsLogged(timeline: seq<Entry>): seq<(nat, nat)> {
    if timeline == [] then []
    else
      var n := |timeline| - 1;
      VersionsLogged(timeline[..n]) +
      (match timeline[n] case VersionCreated(v, s) => [(v, s)] case _ => [])
  }

  /** The (from, to) pairs of the re-analysis entries on the timeline. */
  function Reanalyses(timeline: seq<Entry>): seq<(nat, nat)> {
    if timeline == [] then []
    else
      var n := |timeline| - 1;
      Reanalyses(timeline[..n]) +
      (match timeline[n] case Reanalyzed(f, t, _) => [(f, t)] case _ => [])
  }

  /** `[(1, id of 1), ..., (n, id of n)]`. */
  function VersionPairs(sessions: seq<Session>): (r: seq<(nat, nat)>) {
    seq(|sessions|, i requires 0 <= i < |sessions| => (i + 1, sessions[i].id))
  }

  /** `[(1, 2), (2, 3), ..., (n - 1, n)]`. */
  function Successions(n: nat): (r: seq<(nat, nat)>) {
    if n <= 1 then [] else Successions(n - 1) + [(n - 1, n)]
  }

  function AllTitles(sessions: seq<Session>): seq<string> {
    if sessions == [] then []
    else AllTitles(sessions[..|sessions| - 1]) + Titles(sessions[|sessions| - 1].analysis)
  }

  /** Versions are 1..n in order, each with its own session. */
  ghost predicate Numbered(sessions: seq<Session>) {
    && (forall i | 0 <= i < |sessions| :: sessions[i].version == i + 1)
    && (forall i, j | 0 <= i < j < |sessions| :: sessions[i].id != sessions[j].id)
  }

  /** The current record and the assessment both come from the last session. */
  ghost predicate Current(db: Db) {
    if db.sessions == [] then db.record.None? && db.assessment.None?
    else
      var last := db.sessions[|db.sessions| - 1];
      && db.record == Some(Record(last.id, last.analysis.provider, last.analysis))
      && db.assessment.Some?
      && db.assessment.value.impact == Stored(last.analysis.impact)
  }

  ghost predicate Consistent(db: Db) {
    && Numbered(db.sessions)
    && Current(db)
    && db.recommendations == AllTitles(db.sessions)
    && VersionsLogged(db.timeline) == VersionPairs(db.sessions)
    && Reanalyses(db.timeline) == Successions(|db.sessions|)
  }

  lemma {:induction false} LatestOfNumbered(sessions: seq<Session>)
    requires Numbered(sessions)
    ensures LatestVersion(sessions) == if sessions == [] then None else Some(|sessions|)
  {
    if sessions == [] {
    } else {
      assert sessions[|sessions| - 1] in sessions;
    }
  }

  lemma LoggedOne(timeline: seq<Entry>, entry: Entry)
    ensures VersionsLogged(timeline + [entry]) ==
            VersionsLogged(timeline) + (match entry case VersionCreated(v, s) => [(v, s)] case _ => [])
    ensures Reanalyses(timeline + [entry]) ==
            Reanalyses(timeline) + (match entry case Reanalyzed(f, t, _) => [(f, t)] case _ => [])
  {
    assert (timeline + [entry])[..|timeline|] == timeline;
  }

  lemma {:induction false} LoggedTitles(timeline: seq<Entry>, titles: seq<string>)
    ensures VersionsLogged(timeline + TitleEntries(titles)) == VersionsLogged(timeline)
    ensures Reanalyses(timeline + TitleEntries(titles)) == Reanalyses(timeline)
  {
    if titles == [] {
      assert timeline + TitleEntries(titles) == timeline;
    } else {
      var n := |titles| - 1;
      LoggedTitles(timeline, titles[..n]);
      LoggedOne(timeline + TitleEntries(titles[..n]), RecommendationGenerated(titles[n]));
      assert timeline + TitleEntries(titles)
          == timeline + TitleEntries(titles[..n]) + [RecommendationGenerated(titles[n])];
    }
  }

  lemma LoggedPersist(timeline: seq<Entry>, analysis: Analysis)
    ensures VersionsLogged(timeline + PersistEntries(analysis)) == VersionsLogged(timeline)
    ensures Reanalyses(timeline + PersistEntries(analysis)) == Reanalyses(timeline)
  {
    LoggedTitles(timeline, Titles(analysis));
    LoggedOne(timeline + TitleEntries(Titles(analysis)), Analyzed(analysis.headline));
    assert timeline + PersistEntries(analysis)
        == timeline + TitleEntries(Titles(analysis)) + [Analyzed(analysis.headline)];
  }

  lemma LoggedVersion(timeline: seq<Entry>, previous: Option<nat>, session: Session)
    ensures var after := timeline + VersionEntries(previous, session);
            && VersionsLogged(after) == VersionsLogged(timeline) + [(session.version, session.id)]
            && Reanalyses(after) ==
               Reanalyses(timeline) + (if previous.Some? then [(previous.value, session.version)] else [])
  {
    var created := VersionCreated(session.version, session.id);
    LoggedOne(timeline, created);
    if previous.Some? {
      var again := Reanalyzed(previous.value, session.version, session.id);
      LoggedOne(timeline + [created], again);
      assert timeline + VersionEntries(previous, session) == timeline + [created] + [again];
    } else {
      assert timeline + VersionEntries(previous, session) == timeline + [created];
    }
  }

  lemma NumberedExtended(sessions: seq<Session>, analysis: Analysis, sessionId: nat)
    requires Numbered(sessions)
    requires forall s | s in sessions :: s.id != sessionId
    ensures Numbered(sessions + [Session(sessionId, |sessions| + 1, analysis.provider, analysis)])
  {
  }

  lemma AnnouncedExtended(db: Db, previous: Option<nat>, analysis: Analysis, session: Session)
    requires VersionsLogged(db.timeline) == VersionPairs(db.sessions)
    requires Reanalyses(db.timeline) == Successions(|db.sessions|)
    requires previous == if db.sessions == [] then None else Some(|db.sessions|)
    requires session.version == |db.sessions| + 1
    ensures var timeline := db.timeline + PersistEntries(analysis) + VersionEntries(previous, session);
            && VersionsLogged(timeline) == VersionPairs(db.sessions + [session])
            && Reanalyses(timeline) == Successions(|db.sessions| + 1)
  {
    LoggedPersist(db.timeline, analysis);
    LoggedVersion(db.timeline + PersistEntries(analysis), previous, session);
    assert VersionPairs(db.sessions + [session]) == VersionPairs(db.sessions) + [(session.version, session.id)];
  }

  /**
   * One commit: with the previous version read correctly, the results stay
   * consistent, exactly one version is added at the end, and the assessment
   * keeps its identity once it exists.
   */
  lemma CommitKeepsConsistent(db: Db, previous: Option<nat>, analysis: Analysis, sessionId: nat, newAssessmentId: nat)
    requires Consistent(db)
    requires previous == LatestVersion(db.sessions)
    requires forall s | s in db.sessions :: s.id != sessionId
    ensures var after := Commit(db, previous, analysis, sessionId, newAssessmentId);
            && Consistent(after)
            && after.sessions == db.sessions + [Session(sessionId, |db.sessions| + 1, analysis.provider, analysis)]
            && (db.assessment.Some? ==> after.assessment.value.id == db.assessment.value.id)
  {
    LatestOfNumbered(db.sessions);
    CommitNumbers(db, previous, analysis, sessionId, newAssessmentId);
    CommitAnnounces(db, previous, analysis, sessionId, newAssessmentId);
    CommitIsCurrent(db, previous, analysis, sessionId, newAssessmentId);
    CommitListsTitles(db, previous, analysis, sessionId, newAssessmentId);
  }

  lemma CommitNumbers(db: Db, previous: Option<nat>, analysis: Analysis, sessionId: nat, newAssessmentId: nat)
    requires Numbered(db.sessions)
    requires LatestVersion(db.sessions) == if db.sessions == [] then None else Some(|db.sessions|)
    requires forall s | s in db.sessions :: s.id != sessionId
    ensures var after := Commit(db, previous, analysis, sessionId, newAssessmentId);
            && Numbered(after.sessions)
            && after.sessions == db.sessions + [Session(sessionId, |db.sessions| + 1, analysis.provider, analysis)]
  {
    NumberedExtended(db.sessions, analysis, sessionId);
  }

  lemma CommitAnnounces(db: Db, previous: Option<nat>, analysis: Analysis, sessionId: nat, newAssessmentId: nat)
    requires VersionsLogged(db.timeline) == VersionPairs(db.sessions)
    requires Reanalyses(db.timeline) == Successions(|db.sessions|)
    requires previous == LatestVersion(db.sessions) == if db.sessions == [] then None else Some(|db.sessions|)
    ensures var after := Commit(db, previous, analysis, sessionId, newAssessmentId);
            && VersionsLogged(after.timeline) == VersionPairs(after.sessions)
            && Reanalyses(after.timeline) == Successions(|after.sessions|)
  {
    AnnouncedExtended(db, previous, analysis, NewSession(db, analysis, sessionId));
  }

  lemma CommitListsTitles(db: Db, previous: Option<nat>, analysis: Analysis, sessionId: nat, newAssessmentId: nat)
    requires db.recommendations == AllTitles(db.sessions)
    ensures var after := Commit(db, previous, analysis, sessionId, newAssessmentId);
            after.recommendations == AllTitles(after.sessions)
  {
    assert (db.sessions + [NewSession(db, analysis, sessionId)])[..|db.sessions|] == db.sessions;
  }

  lemma CommitIsCurrent(db: Db, previous: Option<nat>, analysis: Analysis, sessionId: nat, newAssessmentId: nat)
    ensures Current(Commit(db, previous, analysis, sessionId, newAssessmentId))
  {
    var session := NewSession(db, analysis, sessionId);
    assert (db.sessions + [session])[|db.sessions|] == session;
  }

  lemma EntriesOfPersist(analysis: Analysis)
    ensures AreEntries(analysis, PersistEntries(analysis))
  {
  }

  lemma PersistPersists(db: Db, analysis: Analysis, newAssessmentId: nat)
    ensures Persisted(db, Persist(db, analysis, newAssessmentId), analysis, newAssessmentId)
  {
    var after := Persist(db, analysis, newAssessmentId);
    EntriesOfPersist(analysis);
    assert after.recommendations[|db.recommendations|..] == Titles(analysis);
    assert after.timeline[|db.timeline|..|db.timeline| + |analysis.recommendations| + 1] == PersistEntries(analysis);
  }

  /** A commit persists the analysis, then announces the version. */
  lemma CommitPersists(db: Db, previous: Option<nat>, analysis: Analysis, sessionId: nat, newAssessmentId: nat)
    ensures var after := Commit(db, previous, analysis, sessionId, newAssessmentId);
            var session := NewSession(db, analysis, sessionId);
            && Persisted(db, after, analysis, newAssessmentId)
            && Announced(db, after, previous, analysis, session)
  {
    var after := Commit(db, previous, analysis, sessionId, newAssessmentId);
    EntriesOfPersist(analysis);
    assert after.recommendations[|db.recommendations|..] == Titles(analysis);
    assert after.timeline[|db.timeline|..|db.timeline| + |analysis.recommendations| + 1] == PersistEntries(analysis);
  }

  // ----- the statements on mutable rows

  class AnalysisRows {
    var claimToken: Option<Token>
    var claimExpiresAt: Option<int>
    var sessions: seq<Session>
    var record: Option<Record>
    var assessment: Option<Assessment>
    var recommendations: seq<string>
    var timeline: seq<Entry>

    function View(): Db
      reads this
    {
      Db(claimToken, claimExpiresAt, sessions, record, assessment, recommendations, timeline)
    }

    constructor ()
      ensures View() == EMPTY
    {
      claimToken, claimExpiresAt, sessions := None, None, [];
      record, assessment, recommendations, timeline := None, None, [], [];
    }

    /** One conditional UPDATE: two simultaneous attempts cannot both win. */
    method ClaimAnalysis(token: Token, now: int) returns (r: Result<Token>)
      modifies this
      ensures r == if old(claimExpiresAt).None? || old(claimExpiresAt).value < now then Ok(token) else Err(Conflict)
      ensures r.Ok? ==> claimToken == Some(token) && claimExpiresAt == Some(now + 150_000)
      ensures View() == if r.Ok? then Claim(old(View()), token, now) else old(View())
    {
      if claimExpiresAt.None? || claimExpiresAt.value < now {
        claimToken := Some(token);
        claimExpiresAt := Some(now + ANALYSIS_CLAIM_LEASE_MS);
        return Ok(token);
      }
      return Err(Conflict);
    }

    method ReleaseAnalysisClaim(token: Token)
      modifies this
      ensures old(claimToken) == Some(token) ==> claimToken.None? && claimExpiresAt.None?
      ensures old(claimToken) != Some(token) ==> claimToken == old(claimToken) && claimExpiresAt == old(claimExpiresAt)
      ensures View() == Release(old(View()), token)
    {
      if claimToken == Some(token) {
        claimToken := None;
        claimExpiresAt := None;
      }
    }

    method CreateEntry(entry: Entry)
      modifies this`timeline
      ensures timeline == old(timeline) + [entry]
      ensures View() == Log(old(View()), entry)
    {
      timeline := timeline + [entry];
    }

    method SaveAssessment(situationExists: bool, impact: Impact, newId: nat) returns (r: Result<nat>)
      modifies this`assessment
      ensures r == if !situationExists then Err(NotFound) else if old(assessment).Some? then Err(Conflict) else Ok(newId)
      ensures r.Ok? ==> assessment.Some? && assessment.value.id == newId && IsAssessmentOf(impact, assessment.value.impact)
      ensures assessment == if r.Ok? then Some(Assessment(newId, Stored(impact))) else old(assessment)
    {
      if !situationExists {
        return Err(NotFound);
      }
      if assessment.Some? {
        return Err(Conflict);
      }
      assessment := Some(Assessment(newId, Stored(impact)));
      return Ok(newId);
    }

    method ReplaceAssessment(situationExists: bool, impact: Impact) returns (r: Result<nat>)
      modifies this`assessment
      ensures r == if !situationExists || old(assessment).None? then Err(NotFound) else Ok(old(assessment).value.id)
      ensures r.Ok? ==> assessment.Some? && assessment.value.id == old(assessment).value.id
                        && IsAssessmentOf(impact, assessment.value.impact)
      ensures assessment == if r.Ok? then Some(Assessment(r.value, Stored(impact))) else old(assessment)
    {
      if !situationExists {
        return Err(NotFound);
      }
      if assessment.None? {
        return Err(NotFound);
      }
      var existing := assessment.value;
      existing := existing.(impact := existing.impact.(affected := []));
      existing := existing.(impact := existing.impact.(
        operationalSeverity := impact.operationalSeverity,
        confidence := impact.confidence,
        estimatedDurationMinutes := impact.estimatedDurationMinutes,
        summary := Trim(impact.summary),
        reasoning := Trim(impact.reasoning)));
      existing := existing.(impact := existing.impact.(affected := Stored(impact).affected));
      assessment := Some(existing);
      return Ok(existing.id);
    }

    /** Neither branch can fail here: the transaction holds the situation's row, and the lookup decides which of the two runs. */
    method PersistAnalysis(analysis: Analysis, newAssessmentId: nat) returns (r: Result<nat>)
      modifies this
      ensures r.Ok? && assessment.Some? && r.value == assessment.value.id
      ensures Persisted(old(View()), View(), analysis, newAssessmentId)
      ensures View() == Persist(old(View()), analysis, newAssessmentId)
    {
      if assessment.Some? {
        r := ReplaceAssessment(true, analysis.impact);
      } else {
        r := SaveAssessment(true, analysis.impact, newAssessmentId);
      }
      CreateRecommendations(analysis);
      CreateEntry(Analyzed(analysis.headline));
      assert timeline == old(timeline) + PersistEntries(analysis);
      PersistPersists(old(View()), analysis, newAssessmentId);
    }

    /** One recommendation and one entry for each, in order. */
    method CreateRecommendations(analysis: Analysis)
      modifies this`recommendations, this`timeline
      ensures recommendations == old(recommendations) + Titles(analysis)
      ensures timeline == old(timeline) + TitleEntries(Titles(analysis))
    {
      ghost var titles := Titles(analysis);
      for i := 0 to |analysis.recommendations|
        invariant recommendations == old(recommendations) + titles[..i]
        invariant timeline == old(timeline) + TitleEntries(titles[..i])
      {
        var title := Trim(analysis.recommendations[i]);
        assert titles[..i + 1] == titles[..i] + [title];
        assert TitleEntries(titles[..i + 1]) == TitleEntries(titles[..i]) + [RecommendationGenerated(title)];
        recommendations := recommendations + [title];
        CreateEntry(RecommendationGenerated(title));
      }
      assert titles[..|titles|] == titles;
    }

    method CreateSession(analysis: Analysis, sessionId: nat) returns (session: Session)
      modifies this`sessions
      ensures session.id == sessionId && session.provider == analysis.provider && session.analysis == analysis
      ensures old(sessions) == [] ==> session.version == 1
      ensures forall s | s in old(sessions) :: s.version < session.version
      ensures old(sessions) != [] ==> exists s :: s in old(sessions) && session.version == s.version + 1
      ensures session == NewSession(old(View()), analysis, sessionId)
      ensures sessions == old(sessions) + [session]
    {
      var latest := Latest(sessions);
      var version := (if latest.Some? then latest.value.version else 0) + 1;
      session := Session(sessionId, version, analysis.provider, analysis);
      sessions := sessions + [session];
    }

    method UpdateCurrentAnalysisRecord(analysis: Analysis, session: Session)
      modifies this`record
      ensures record == Some(Record(session.id, analysis.provider, analysis))
    {
      if record.Some? {
        var existing := record.value;
        existing := existing.(currentSessionId := session.id);
        existing := existing.(provider := analysis.provider);
        existing := existing.(analysis := analysis);
        record := Some(existing);
        return;
      }
      record := Some(Record(session.id, analysis.provider, analysis));
    }

    /**
     * The fenced transaction of `runClaimedAnalysis`. The first statement checks
     * the token and nothing else (an expired claim nobody has taken still commits).
     */
    method CommitAnalysis(token: Token, previous: Option<nat>, analysis: Analysis, sessionId: nat, newAssessmentId: nat)
      returns (r: Result<Session>)
      modifies this
      ensures r.Ok? <==> old(claimToken) == Some(token)
      ensures r.Err? ==> r.error == Conflict && View() == old(View())
      ensures r.Ok? ==> View() == Commit(old(View()), previous, analysis, sessionId, newAssessmentId)
      ensures r.Ok? ==>
                && Persisted(old(View()), View(), analysis, newAssessmentId)
                && Announced(old(View()), View(), previous, analysis, r.value)
                && sessions == old(sessions) + [r.value] && r.value.id == sessionId && r.value.analysis == analysis
      ensures r.Ok? ==> record == Some(Record(r.value.id, analysis.provider, analysis))
    {
      if claimToken != Some(token) {
        return Err(Conflict);
      }
      var session := WriteAnalysis(previous, analysis, sessionId, newAssessmentId);
      CommitPersists(old(View()), previous, analysis, sessionId, newAssessmentId);
      return Ok(session);
    }

    /** What the transaction writes behind the check, statement by statement. */
    method WriteAnalysis(previous: Option<nat>, analysis: Analysis, sessionId: nat, newAssessmentId: nat)
      returns (session: Session)
      modifies this
      ensures session == NewSession(old(View()), analysis, sessionId)
      ensures View() == Commit(old(View()), previous, analysis, sessionId, newAssessmentId)
    {
      var persisted := PersistAnalysis(analysis, newAssessmentId);
      session := CreateSession(analysis, sessionId);
      UpdateCurrentAnalysisRecord(analysis, session);
      CreateEntry(VersionCreated(session.version, session.id));
      if previous.Some? {
        CreateEntry(Reanalyzed(previous.value, session.version, session.id));
      }
      assert timeline == old(timeline) + PersistEntries(analysis) + VersionEntries(previous, session);
    }
  }
}
