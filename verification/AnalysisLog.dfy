/** What the timeline tells about the attempts, against what they did. */
module AnalysisLog {
  import opened Common
  import opened AnalysisStore
  import opened AnalysisRuns

  predicate TellsOfAttempt(entry: Entry) {
    entry.AnalysisStarted? || entry.AnalysisFailed?
  }

  /** The start and failure entries of a timeline, in order. */
  function AttemptEntries(timeline: seq<Entry>): seq<Entry> {
    if timeline == [] then []
    else
      var n := |timeline| - 1;
      AttemptEntries(timeline[..n]) + if TellsOfAttempt(timeline[n]) then [timeline[n]] else []
  }

  /** The entry an event calls for: a start and a logged failure have one. */
  function CallsFor(e: Event): seq<Entry> {
    match e
    case Start(t) => [AnalysisStarted(t)]
    case Throw(t, true) => [AnalysisFailed(t)]
    case _ => []
  }

  /** The starts and the logged failures of a run, in order, as the entries they call for. */
  function AttemptSteps(es: seq<Event>): seq<Entry> {
    if es == [] then [] else AttemptSteps(es[..|es| - 1]) + CallsFor(es[|es| - 1])
  }

  lemma OneEntry(timeline: seq<Entry>, entry: Entry)
    ensures AttemptEntries(timeline + [entry]) == AttemptEntries(timeline) + if TellsOfAttempt(entry) then [entry] else []
  {
    assert (timeline + [entry])[..|timeline|] == timeline;
  }

  lemma {:induction false} OtherEntries(timeline: seq<Entry>, more: seq<Entry>)
    requires forall entry | entry in more :: !TellsOfAttempt(entry)
    ensures AttemptEntries(timeline + more) == AttemptEntries(timeline)
  {
    if more == [] {
      assert timeline + more == timeline;
    } else {
      var n := |more| - 1;
      OtherEntries(timeline, more[..n]);
      OneEntry(timeline + more[..n], more[n]);
      assert timeline + more == timeline + more[..n] + [more[n]];
    }
  }

  lemma CommitTellsNothing(db: Db, previous: Option<nat>, analysis: Analysis, sessionId: nat, newAssessmentId: nat)
    ensures AttemptEntries(Commit(db, previous, analysis, sessionId, newAssessmentId).timeline) == AttemptEntries(db.timeline)
  {
    var session := NewSession(db, analysis, sessionId);
    EntriesOfPersist(analysis);
    OtherEntries(db.timeline, PersistEntries(analysis));
    OtherEntries(db.timeline + PersistEntries(analysis), VersionEntries(previous, session));
  }

  /** LOG. After every run the timeline tells exactly the starts and the logged failures that happened, in their order. */
  lemma {:induction false} TimelineTellsTheAttempts(es: seq<Event>)
    requires Feasible(es)
    ensures AttemptEntries(After(es).db.timeline) == AttemptSteps(es)
  {
    if es == [] {
    } else {
      TimelineTellsTheAttempts(es[..|es| - 1]);
      StepTells(After(es[..|es| - 1]), es[|es| - 1]);
    }
  }

  lemma StepTells(w: World, e: Event)
    requires Enabled(w, e)
    ensures AttemptEntries(Apply(w, e).db.timeline) == AttemptEntries(w.db.timeline) + CallsFor(e)
  {
    match e
    case Start(t) => OneEntry(w.db.timeline, AnalysisStarted(t));
    case Throw(t, _) => OneEntry(w.db.timeline, AnalysisFailed(t));
    case CommitTransaction(t, sessionId, newAssessmentId) =>
      CommitTellsNothing(w.db, w.attempts[t].previous, w.attempts[t].analysis, sessionId, newAssessmentId);
    case _ =>
  }
}
