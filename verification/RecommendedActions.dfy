/** Execution of the recommended actions of an interpretation. */
module RecommendedActions {
  import opened Common
  import opened Text

  datatype Status = PENDING | IN_PROGRESS | EXECUTED | NOT_EXECUTABLE

  datatype Action = Action(
    interpretationId: nat,
    actionIndex: nat,
    actionText: string,
    executionStatus: Status,
    statusNote: Option<string>,
    observation: Option<string>,
    assignedToUserId: Option<string>,
    assignedToUserName: Option<string>,
    startedAt: Option<int>,
    completedAt: Option<int>)

  datatype UpdateDto = UpdateDto(
    status: Status, note: Option<string>, observation: Option<string>, byUserId: Option<string>, byUserName: Option<string>)

  function AllowedTransitions(from: Status): set<Status> {
    match from
    case PENDING => {IN_PROGRESS, EXECUTED, NOT_EXECUTABLE}
    case IN_PROGRESS => {EXECUTED, NOT_EXECUTABLE, PENDING}
    case EXECUTED => {IN_PROGRESS}
    case NOT_EXECUTABLE => {PENDING, IN_PROGRESS}
  }

  /** `value?.trim() || null`. */
  function TrimOrNull(text: Option<string>): (r: Option<string>)
    ensures r.Some? ==> r.value != ""
  {
    if text.Some? && Trim(text.value) != "" then Some(Trim(text.value)) else None
  }

  predicate TransitionAllowed(from: Status, to: Status) {
    from == to || to in AllowedTransitions(from)
  }

  predicate NotesGiven(dto: UpdateDto) {
    dto.status == NOT_EXECUTABLE ==> TrimOrNull(dto.note).Some? && TrimOrNull(dto.observation).Some?
  }

  /** The row `updateStatus` saves, once accepted. */
  function Updated(a: Action, dto: UpdateDto, now: int): Action {
    var note, observation := TrimOrNull(dto.note), TrimOrNull(dto.observation);
    var name := TrimOrNull(dto.byUserName);
    var owned := a.(
      executionStatus := dto.status,
      assignedToUserId := TrimOrNull(dto.byUserId),
      assignedToUserName := Some(if name.Some? then name.value else "Usuario operacional"));
    var started := if a.startedAt.Some? then a.startedAt else Some(now);
    match dto.status
    case IN_PROGRESS =>
      owned.(startedAt := started, completedAt := None, statusNote := None,
                observation := if note.Some? then note else a.observation)
    case PENDING => owned.(startedAt := None, completedAt := None, statusNote := None, observation := None)
    case EXECUTED => owned.(startedAt := started, completedAt := Some(now), statusNote := None, observation := observation)
    case NOT_EXECUTABLE => owned.(completedAt := Some(now), statusNote := note, observation := observation)
  }

  function UpdateStatus(a: Action, dto: UpdateDto, now: int): Result<Action> {
    if !TransitionAllowed(a.executionStatus, dto.status) then Err(BadRequest)
    else if !NotesGiven(dto) then Err(BadRequest)
    else Ok(Updated(a, dto, now))
  }

  /** What each status says about times, note and observation. */
  predicate WellTimed(a: Action, now: int) {
    && (a.startedAt.Some? ==> a.startedAt.value <= now)
    && (a.completedAt.Some? ==> a.completedAt.value <= now)
    && (a.startedAt.Some? && a.completedAt.Some? ==> a.startedAt.value <= a.completedAt.value)
    && (a.statusNote.Some? ==> a.executionStatus == NOT_EXECUTABLE)
    && match a.executionStatus
       case PENDING => a.startedAt.None? && a.completedAt.None? && a.observation.None?
       case IN_PROGRESS => a.startedAt.Some? && a.completedAt.None?
       case EXECUTED => a.startedAt.Some? && a.completedAt.Some?
       case NOT_EXECUTABLE =>
         a.completedAt.Some? && a.statusNote.Some? && a.statusNote.value != ""
         && a.observation.Some? && a.observation.value != ""
  }

  /** The action itself stays; status and author are those of the request. */
  ghost predicate AssignedTo(a: Action, dto: UpdateDto, b: Action) {
    && b.interpretationId == a.interpretationId && b.actionIndex == a.actionIndex && b.actionText == a.actionText
    && b.executionStatus == dto.status
    && IsTrimmed(dto.byUserId, b.assignedToUserId)
    && (dto.byUserName.Some? && !Blank(dto.byUserName.value) ==> b.assignedToUserName == Some(Trim(dto.byUserName.value)))
    && (dto.byUserName.None? || Blank(dto.byUserName.value) ==> b.assignedToUserName == Some("Usuario operacional"))
  }

  /** When it started and ended. */
  ghost predicate TimedTo(a: Action, dto: UpdateDto, now: int, b: Action) {
    match dto.status
    case PENDING => b.startedAt.None? && b.completedAt.None?
    case IN_PROGRESS => b.startedAt == Some(if a.startedAt.Some? then a.startedAt.value else now) && b.completedAt.None?
    case EXECUTED => b.startedAt == Some(if a.startedAt.Some? then a.startedAt.value else now) && b.completedAt == Some(now)
    case NOT_EXECUTABLE => b.startedAt == a.startedAt && b.completedAt == Some(now)
  }

  /** What was noted about it. */
  ghost predicate NotedTo(a: Action, dto: UpdateDto, b: Action) {
    && (dto.status != NOT_EXECUTABLE ==> b.statusNote.None?)
    && (dto.status == NOT_EXECUTABLE ==> IsTrimmed(dto.note, b.statusNote))
    && (dto.status == PENDING ==> b.observation.None?)
    && (dto.status in {EXECUTED, NOT_EXECUTABLE} ==> IsTrimmed(dto.observation, b.observation))
    && (dto.status == IN_PROGRESS && dto.note.Some? && !Blank(dto.note.value) ==> b.observation == Some(Trim(dto.note.value)))
    && (dto.status == IN_PROGRESS && (dto.note.None? || Blank(dto.note.value)) ==> b.observation == a.observation)
  }

  /** Column by column, what an accepted request leaves. */
  ghost predicate UpdatedTo(a: Action, dto: UpdateDto, now: int, b: Action) {
    AssignedTo(a, dto, b) && TimedTo(a, dto, now, b) && NotedTo(a, dto, b)
  }

  /** The given text trimmed; blank or absent is none. */
  ghost predicate IsTrimmed(given: Option<string>, stored: Option<string>) {
    && (given.Some? && !Blank(given.value) ==> stored == Some(Trim(given.value)))
    && (given.None? || Blank(given.value) ==> stored.None?)
  }

  lemma TrimOrNullIs(text: Option<string>)
    ensures IsTrimmed(text, TrimOrNull(text))
  {
    if text.Some? {
      TrimEmptyIffBlank(text.value);
    }
  }

  lemma UpdatedAssigns(a: Action, dto: UpdateDto, now: int)
    ensures AssignedTo(a, dto, Updated(a, dto, now))
  {
    TrimOrNullIs(dto.byUserId);
    TrimOrNullIs(dto.byUserName);
  }

  lemma UpdatedTimes(a: Action, dto: UpdateDto, now: int)
    ensures TimedTo(a, dto, now, Updated(a, dto, now))
  {
  }

  lemma UpdatedNotes(a: Action, dto: UpdateDto, now: int)
    ensures NotedTo(a, dto, Updated(a, dto, now))
  {
    TrimOrNullIs(dto.note);
    TrimOrNullIs(dto.observation);
  }

  lemma UpdatedColumns(a: Action, dto: UpdateDto, now: int)
    ensures UpdatedTo(a, dto, now, Updated(a, dto, now))
  {
    UpdatedAssigns(a, dto, now);
    UpdatedTimes(a, dto, now);
    UpdatedNotes(a, dto, now);
  }

  /** UPDATE, EXACTLY: accepted unless it skips the table of transitions, or gives up on an action without saying why. */
  lemma UpdateOutcome(a: Action, dto: UpdateDto, now: int)
    ensures UpdateStatus(a, dto, now).Ok? <==>
            && (a.executionStatus, dto.status) !in {(EXECUTED, PENDING), (EXECUTED, NOT_EXECUTABLE), (NOT_EXECUTABLE, EXECUTED)}
            && (dto.status == NOT_EXECUTABLE ==>
                  dto.note.Some? && !Blank(dto.note.value) && dto.observation.Some? && !Blank(dto.observation.value))
    ensures UpdateStatus(a, dto, now).Err? ==> UpdateStatus(a, dto, now).error == BadRequest
    ensures UpdateStatus(a, dto, now).Ok? ==> UpdatedTo(a, dto, now, UpdateStatus(a, dto, now).value)
  {
    TrimOrNullIs(dto.note);
    TrimOrNullIs(dto.observation);
    UpdatedColumns(a, dto, now);
  }

  lemma UpdateKeepsWellTimed(a: Action, dto: UpdateDto, earlier: int, now: int)
    requires WellTimed(a, earlier) && earlier <= now && UpdateStatus(a, dto, now).Ok?
    ensures WellTimed(UpdateStatus(a, dto, now).value, now)
  {
  }

  datatype Request = Request(dto: UpdateDto, now: int)

  ghost predicate ClockForward(start: int, requests: seq<Request>) {
    && (forall i | 0 <= i < |requests| :: start <= requests[i].now)
    && (forall i, j | 0 <= i < j < |requests| :: requests[i].now <= requests[j].now)
  }

  /** A run of requests; a refused one leaves the action as it is. */
  function RunUpdates(a: Action, requests: seq<Request>): Action {
    if requests == [] then a
    else
      var before := RunUpdates(a, requests[..|requests| - 1]);
      var last := requests[|requests| - 1];
      var r := UpdateStatus(before, last.dto, last.now);
      if r.Ok? then r.value else before
  }

  function LastNow(start: int, requests: seq<Request>): int {
    if requests == [] then start else requests[|requests| - 1].now
  }

  lemma StepKeepsWellTimed(a: Action, request: Request, earlier: int)
    requires WellTimed(a, earlier) && earlier <= request.now
    ensures var r := UpdateStatus(a, request.dto, request.now);
            var b := if r.Ok? then r.value else a;
            && WellTimed(b, request.now)
            && b.interpretationId == a.interpretationId && b.actionIndex == a.actionIndex && b.actionText == a.actionText
  {
    if UpdateStatus(a, request.dto, request.now).Ok? {
      UpdateKeepsWellTimed(a, request.dto, earlier, request.now);
    }
  }

  /** RUNS. From a well-timed action, every sequence of requests under a forward clock keeps it so, and keeps its identity. */
  lemma {:induction false} RunKeepsWellTimed(a: Action, start: int, requests: seq<Request>)
    requires WellTimed(a, start) && ClockForward(start, requests)
    ensures var b := RunUpdates(a, requests);
            && WellTimed(b, LastNow(start, requests))
            && b.interpretationId == a.interpretationId && b.actionIndex == a.actionIndex && b.actionText == a.actionText
  {
    if requests == [] {
    } else {
      var n := |requests| - 1;
      RunKeepsWellTimed(a, start, requests[..n]);
      var before := RunUpdates(a, requests[..n]);
      var last := requests[n];
      assert LastNow(start, requests[..n]) <= last.now;
      StepKeepsWellTimed(before, last, LastNow(start, requests[..n]));
    }
  }

  /**
   * START. A start, once set, survives every run that never asks for PENDING, and
   * a start that appears is the instant of a request that started or executed it.
   */
  lemma {:induction false} FirstStartIsKept(a: Action, requests: seq<Request>)
    requires forall i | 0 <= i < |requests| :: requests[i].dto.status != PENDING
    ensures a.startedAt.Some? ==> RunUpdates(a, requests).startedAt == a.startedAt
    ensures a.startedAt.None? && RunUpdates(a, requests).startedAt.Some? ==>
              exists i :: 0 <= i < |requests| && requests[i].dto.status in {IN_PROGRESS, EXECUTED}
                          && RunUpdates(a, requests).startedAt == Some(requests[i].now)
  {
    if requests == [] {
    } else {
      var n := |requests| - 1;
      FirstStartIsKept(a, requests[..n]);
      var before := RunUpdates(a, requests[..n]);
      if a.startedAt.None? && before.startedAt.Some? {
        var i :| 0 <= i < n && requests[..n][i].dto.status in {IN_PROGRESS, EXECUTED}
                 && before.startedAt == Some(requests[..n][i].now);
        assert requests[i] == requests[..n][i];
      }
    }
  }

  // ----- materialising

  datatype Override = Override(
    status: Status, statusNote: Option<string>, observation: Option<string>,
    assignedToUserId: Option<string>, assignedToUserName: Option<string>, startedAt: Option<int>, completedAt: Option<int>)

  datatype Interpretation = Interpretation(id: nat, actions: seq<string>)

  type Rows = map<(nat, nat), Action>

  function New(interpretation: Interpretation, index: nat, override: Option<Override>, now: int): Action
    requires index < |interpretation.actions|
  {
    var status := if override.Some? then override.value.status else PENDING;
    Action(
      interpretation.id, index, interpretation.actions[index], status,
      if override.Some? then override.value.statusNote else None,
      if override.Some? then override.value.observation else None,
      if override.Some? then override.value.assignedToUserId else None,
      if override.Some? then override.value.assignedToUserName else None,
      if override.Some? && override.value.startedAt.Some? then override.value.startedAt
      else if status == IN_PROGRESS || status == EXECUTED then Some(now) else None,
      if override.Some? && override.value.completedAt.Some? then override.value.completedAt
      else if status == EXECUTED || status == NOT_EXECUTABLE then Some(now) else None)
  }

  /** Column by column, what a first materialisation saves: an override's values, or those the status calls for. */
  ghost predicate SeededAs(interpretation: Interpretation, index: nat, override: Option<Override>, now: int, a: Action)
    requires index < |interpretation.actions|
  {
    && a.interpretationId == interpretation.id && a.actionIndex == index && a.actionText == interpretation.actions[index]
    && (override.None? ==> a == Action(interpretation.id, index, interpretation.actions[index], PENDING,
                                       None, None, None, None, None, None))
    && (override.Some? ==>
         var o := override.value;
         && a.executionStatus == o.status && a.statusNote == o.statusNote && a.observation == o.observation
         && a.assignedToUserId == o.assignedToUserId && a.assignedToUserName == o.assignedToUserName
         && (o.startedAt.Some? ==> a.startedAt == o.startedAt)
         && (o.startedAt.None? ==> a.startedAt == if o.status in {IN_PROGRESS, EXECUTED} then Some(now) else None)
         && (o.completedAt.Some? ==> a.completedAt == o.completedAt)
         && (o.completedAt.None? ==> a.completedAt == if o.status in {EXECUTED, NOT_EXECUTABLE} then Some(now) else None))
  }

  lemma NewColumns(interpretation: Interpretation, index: nat, override: Option<Override>, now: int)
    requires index < |interpretation.actions|
    ensures SeededAs(interpretation, index, override, now, New(interpretation, index, override, now))
  {
  }

  /** When a seed override fits what later updates rely on. */
  predicate OverrideFits(o: Override, now: int) {
    && (o.startedAt.Some? ==> o.startedAt.value <= now)
    && (o.completedAt.Some? ==> o.completedAt.value <= now)
    && (o.statusNote.Some? ==> o.status == NOT_EXECUTABLE)
    && match o.status
       case PENDING => o.startedAt.None? && o.completedAt.None? && o.observation.None?
       case IN_PROGRESS => o.completedAt.None?
       case EXECUTED =>
         o.completedAt.Some? ==>
           if o.startedAt.Some? then o.startedAt.value <= o.completedAt.value else o.completedAt.value == now
       case NOT_EXECUTABLE =>
         && (o.startedAt.Some? && o.completedAt.Some? ==> o.startedAt.value <= o.completedAt.value)
         && o.statusNote.Some? && o.statusNote.value != "" && o.observation.Some? && o.observation.value != ""
  }

  /** Without an override a new action is well timed; with one, exactly when the override fits. */
  lemma NewIsWellTimedIff(interpretation: Interpretation, index: nat, override: Option<Override>, now: int)
    requires index < |interpretation.actions|
    ensures WellTimed(New(interpretation, index, override, now), now) <==>
            (override.Some? ==> OverrideFits(override.value, now))
  {
  }

  function OverrideAt(overrides: map<nat, Override>, index: nat): Option<Override> {
    if index in overrides then Some(overrides[index]) else None
  }

  /** The table after the first n actions were looked up or saved. */
  function Materialized(rows: Rows, interpretation: Interpretation, overrides: map<nat, Override>, now: int, n: nat): Rows
    requires n <= |interpretation.actions|
  {
    if n == 0 then rows
    else
      var before := Materialized(rows, interpretation, overrides, now, n - 1);
      var key := (interpretation.id, n - 1);
      if key in before then before
      else before[key := New(interpretation, n - 1, OverrideAt(overrides, n - 1), now)]
  }

  lemma {:induction false} MaterializedRows(
    rows: Rows, interpretation: Interpretation, overrides: map<nat, Override>, now: int, n: nat, i: nat)
    requires n <= |interpretation.actions|
    ensures var after := Materialized(rows, interpretation, overrides, now, n);
            && (forall key | key in rows :: key in after && after[key] == rows[key])
            && (forall key | key in after && key !in rows :: key.0 == interpretation.id && key.1 < n)
            && (i < n ==>
                 && (interpretation.id, i) in after
                 && after[(interpretation.id, i)] ==
                    if (interpretation.id, i) in rows then rows[(interpretation.id, i)]
                    else New(interpretation, i, OverrideAt(overrides, i), now))
  {
    if n == 0 {
    } else {
      MaterializedRows(rows, interpretation, overrides, now, n - 1, i);
    }
  }

  /** IDEMPOTENT. Materialising again, at any later time and with any overrides, saves nothing. */
  lemma {:induction false} MaterializingAgainSavesNothing(
    rows: Rows, interpretation: Interpretation, overrides: map<nat, Override>, now: int, n: nat)
    requires n <= |interpretation.actions|
    requires forall i | 0 <= i < n :: (interpretation.id, i) in rows
    ensures Materialized(rows, interpretation, overrides, now, n) == rows
  {
    if n == 0 {
    } else {
      MaterializingAgainSavesNothing(rows, interpretation, overrides, now, n - 1);
    }
  }

  ghost predicate IndexesMatch(rows: Rows) {
    forall key | key in rows :: rows[key].interpretationId == key.0 && rows[key].actionIndex == key.1
  }

  class ActionsTable {
    var rows: Rows

    constructor ()
      ensures rows == map[]
    {
      rows := map[];
    }

    /** One row for each action of the report, looked up by (interpretation, index) or saved. */
    method MaterializeFromInterpretation(interpretation: Interpretation, overrides: map<nat, Override>, now: int)
      returns (created: seq<Action>)
      requires IndexesMatch(rows)
      modifies this
      ensures IndexesMatch(rows)
      ensures rows == Materialized(old(rows), interpretation, overrides, now, |interpretation.actions|)
      ensures |created| == |interpretation.actions|
      ensures forall i | 0 <= i < |created| ::
                && (interpretation.id, i) in rows && created[i] == rows[(interpretation.id, i)]
                && created[i].actionIndex == i
      ensures forall i | 0 <= i < |created| && (interpretation.id, i) !in old(rows) ::
                SeededAs(interpretation, i, OverrideAt(overrides, i), now, created[i])
      ensures forall key | key in old(rows) :: key in rows && rows[key] == old(rows)[key]
      ensures (forall i | 0 <= i < |created| :: (interpretation.id, i) in old(rows)) ==> rows == old(rows)
      ensures forall i | 0 <= i < |created| && (interpretation.id, i) !in old(rows) && i !in overrides ::
                WellTimed(created[i], now)
    {
      created := [];
      for index := 0 to |interpretation.actions|
        invariant IndexesMatch(rows)
        invariant rows == Materialized(old(rows), interpretation, overrides, now, index)
        invariant |created| == index
        invariant forall i | 0 <= i < index ::
          (interpretation.id, i) in rows && created[i] == rows[(interpretation.id, i)]
      {
        var key := (interpretation.id, index);
        if key in rows {
          created := created + [rows[key]];
          continue;
        }
        var entity := New(interpretation, index, OverrideAt(overrides, index), now);
        rows := rows[key := entity];
        created := created + [entity];
      }
      if forall i | 0 <= i < |created| :: (interpretation.id, i) in old(rows) {
        MaterializingAgainSavesNothing(old(rows), interpretation, overrides, now, |created|);
      }
      forall i | 0 <= i < |created| && (interpretation.id, i) !in old(rows)
        ensures SeededAs(interpretation, i, OverrideAt(overrides, i), now, created[i])
        ensures i !in overrides ==> WellTimed(created[i], now)
      {
        MaterializedRows(old(rows), interpretation, overrides, now, |created|, i);
        NewColumns(interpretation, i, OverrideAt(overrides, i), now);
        NewIsWellTimedIff(interpretation, i, None, now);
      }
      MaterializedRows(old(rows), interpretation, overrides, now, |created|, |created|);
    }

    method UpdateActionStatus(key: (nat, nat), dto: UpdateDto, now: int) returns (r: Result<Action>)
      requires IndexesMatch(rows)
      modifies this
      ensures IndexesMatch(rows)
      ensures r.Ok? ==> key in old(rows) && key in rows && UpdatedTo(old(rows)[key], dto, now, rows[key])
      ensures r == if key in old(rows) then UpdateStatus(old(rows)[key], dto, now) else Err(NotFound)
      ensures rows == if r.Ok? then old(rows)[key := r.value] else old(rows)
    {
      if key !in rows {
        return Err(NotFound);
      }
      var action := rows[key];
      if action.executionStatus != dto.status && dto.status !in AllowedTransitions(action.executionStatus) {
        return Err(BadRequest);
      }
      var note, observation := TrimOrNull(dto.note), TrimOrNull(dto.observation);
      if dto.status == NOT_EXECUTABLE && (note.None? || observation.None?) {
        return Err(BadRequest);
      }
      var name := TrimOrNull(dto.byUserName);
      action := action.(executionStatus := dto.status);
      action := action.(assignedToUserId := TrimOrNull(dto.byUserId));
      action := action.(assignedToUserName := Some(if name.Some? then name.value else "Usuario operacional"));
      if dto.status == IN_PROGRESS {
        action := action.(startedAt := if action.startedAt.Some? then action.startedAt else Some(now));
        action := action.(completedAt := None, statusNote := None);
        if note.Some? {
          action := action.(observation := note);
        }
      }
      if dto.status == PENDING {
        action := action.(startedAt := None, completedAt := None, statusNote := None, observation := None);
      }
      if dto.status == EXECUTED {
        action := action.(startedAt := if action.startedAt.Some? then action.startedAt else Some(now));
        action := action.(completedAt := Some(now), observation := observation, statusNote := None);
      }
      if dto.status == NOT_EXECUTABLE {
        action := action.(completedAt := Some(now), statusNote := note, observation := observation);
      }
      UpdatedColumns(rows[key], dto, now);
      rows := rows[key := action];
      return Ok(action);
    }
  }
}
