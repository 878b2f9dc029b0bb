/**
 * A situation with the rows that belong to it, and the four operations on it:
 * create, PATCH, resolve and add a consequence.
 *
 * The functions say what one committed call does to the stored case; the class
 * `SituationRows` performs PATCH, resolve and add-consequence on mutable rows.
 */
module Situations {
  import opened Common
  import opened Text
  import opened Seqs

  datatype Status = OPEN | IN_PROGRESS | RESOLVED | CLOSED

  datatype Role = ANALISTA | COORDINADOR | OTHER

  datatype Permission = SITUATIONS_VIEW | SITUATIONS_CREATE | SITUATIONS_UPDATE | SITUATIONS_CLOSE

  datatype Actor = Actor(sub: string, role: Role, coordinationId: Option<string>, permissions: set<Permission>)

  datatype Situation = Situation(
    title: string,
    description: string,
    reportKind: ReportKind,
    coordinationId: Option<string>,
    affectedCoordinationId: Option<string>,
    affectedProcess: Option<string>,
    pendingDelivery: Option<string>,
    createdByUserId: string,
    categoryId: Option<string>,
    severity: Severity,
    reportedSeverity: Severity,
    status: Status,
    assignedUserId: Option<string>,
    lastStatusComment: Option<string>,
    resolvedAt: Option<int>,
    closedAt: Option<int>,
    createdAt: int,
    dueAt: int,
    occurredAt: int,
    related: seq<string>)

  datatype Consequence = Consequence(description: string, occurredAt: int, createdAt: int, createdByUserId: string)

  datatype Resolution = Resolution(learning: string, resolvedByUserId: string)

  datatype SeverityChange = Reported(severity: Severity, effectiveAt: int, actorUserId: string)

  datatype Entry =
    | Created
    | ConsequenceAdded(occurredAt: int)
    | StatusChanged(from: Status, to: Status)
    | Closed(from: Status)

  datatype Case = Case(
    row: Situation,
    resolution: Option<Resolution>,
    consequences: seq<Consequence>,
    history: seq<SeverityChange>,
    timeline: seq<Entry>)

  /** The catalogues an operation consults: active coordinations, categories, users. */
  datatype Catalog = Catalog(active: set<string>, categories: map<string, bool>, users: set<string>, general: Option<string>)

  // ----- policies

  /** The promised time, in milliseconds. */
  const PROMISED: map<Severity, int> := map[
    CRITICAL := 86_400_000, HIGH := 259_200_000, MEDIUM := 604_800_000, LOW := 1_209_600_000]

  /** How long before the end of it the case is at risk. */
  const FOREWARNED: map<Severity, int> := map[
    CRITICAL := 21_600_000, HIGH := 86_400_000, MEDIUM := 172_800_000, LOW := 259_200_000]

  function WindowMs(severity: Severity): (r: int)
    ensures r > 0
    ensures severity in PROMISED && r == PROMISED[severity]
  {
    match severity
    case CRITICAL => 24 * HOUR_MS
    case HIGH => 72 * HOUR_MS
    case MEDIUM => 7 * DAY_MS
    case LOW => 14 * DAY_MS
  }

  function WarningMs(severity: Severity): (r: int)
    ensures 0 < r < WindowMs(severity)
    ensures severity in FOREWARNED && r == FOREWARNED[severity]
  {
    match severity
    case CRITICAL => 6 * HOUR_MS
    case HIGH => 24 * HOUR_MS
    case MEDIUM => 48 * HOUR_MS
    case LOW => 72 * HOUR_MS
  }

  function ComputeDueAt(reportedSeverity: Severity, createdAt: int): int {
    createdAt + WindowMs(reportedSeverity)
  }

  function NextStatuses(from: Status): set<Status> {
    match from
    case OPEN => {IN_PROGRESS}
    case IN_PROGRESS => {CLOSED}
    case RESOLVED => {CLOSED}
    case CLOSED => {}
  }

  const RESOLVABLE_STATUSES: set<Status> := {OPEN, IN_PROGRESS, RESOLVED}
  const CONSEQUENCE_OPEN_STATUSES: set<Status> := {OPEN, IN_PROGRESS}

  /** JavaScript truthiness of an optional id. */
  predicate Present(id: Option<string>) {
    id.Some? && id.value != ""
  }

  predicate IsOwnArea(actor: Actor, row: Situation) {
    Present(actor.coordinationId) && row.coordinationId == actor.coordinationId
  }

  predicate CanOperateArea(actor: Actor, row: Situation, general: Option<string>) {
    match actor.role
    case ANALISTA => Present(general) && Present(row.coordinationId) && row.coordinationId == general
    case COORDINADOR => Present(actor.coordinationId) && Present(row.coordinationId) && row.coordinationId == actor.coordinationId
    case OTHER => false
  }

  predicate CanResolve(actor: Actor, row: Situation, general: Option<string>) {
    SITUATIONS_CLOSE in actor.permissions && CanOperateArea(actor, row, general)
  }

  predicate CanAdvance(actor: Actor, row: Situation, general: Option<string>) {
    SITUATIONS_UPDATE in actor.permissions && CanOperateArea(actor, row, general)
  }

  function CheckUpdate(actor: Actor, row: Situation): Option<Failure> {
    if SITUATIONS_UPDATE !in actor.permissions || SITUATIONS_VIEW !in actor.permissions then Some(Forbidden)
    else if actor.role == COORDINADOR && !IsOwnArea(actor, row) then Some(NotFound)
    else if row.createdByUserId != actor.sub && !(actor.role == COORDINADOR && IsOwnArea(actor, row)) then Some(Forbidden)
    else None
  }

  function CheckReadable(actor: Actor, row: Situation): Option<Failure> {
    if SITUATIONS_VIEW !in actor.permissions then Some(Forbidden)
    else if row.createdByUserId == actor.sub then None
    else if actor.role == COORDINADOR && Present(actor.coordinationId) && row.affectedCoordinationId == actor.coordinationId then None
    else if actor.role == COORDINADOR && !IsOwnArea(actor, row) then Some(NotFound)
    else None
  }

  predicate IsConsequenceParticipant(actor: Actor, row: Situation) {
    match actor.role
    case ANALISTA => row.createdByUserId == actor.sub
    case COORDINADOR => IsOwnArea(actor, row)
    case OTHER => false
  }

  // ----- create

  datatype CreateDto = CreateDto(
    title: string,
    description: string,
    reportKind: Option<ReportKind>,
    coordinationId: Option<string>,
    affectedCoordinationId: Option<string>,
    categoryId: Option<string>,
    severity: Severity,
    occurredAt: Option<int>,
    affectedProcess: Option<string>,
    pendingDelivery: Option<string>,
    relatedCoordinationIds: seq<string>,
    initialConsequence: Option<string>)

  function UniqueRelated(ids: seq<string>, origin: string): seq<string> {
    Filter((id: string) => id != "" && id != origin, Dedupe(Trimmed(ids)))
  }

  function ResolveRelated(ids: seq<string>, origin: string, catalog: Catalog): Result<seq<string>> {
    var unique := UniqueRelated(ids, origin);
    if forall id | id in unique :: id in catalog.active then Ok(unique) else Err(NotFound)
  }

  /** The instants of one creation: the clock and the end of its calendar day. */
  datatype Clock = Clock(now: int, endOfToday: int)

  function Create(dto: CreateDto, actor: Actor, catalog: Catalog, clock: Clock): Result<Case> {
    match dto.reportKind
    case Some(INTER_COORDINATION) => CreateInterCoordination(dto, actor, catalog, clock)
    case Some(INTERNAL) => CreateInternal(dto, actor, catalog, clock)
    case None => CreateLegacyContract(dto, actor, catalog, clock)
  }

  function CreateLegacyContract(dto: CreateDto, actor: Actor, catalog: Catalog, clock: Clock): Result<Case> {
    var usesCardsFields :=
      dto.affectedCoordinationId.Some? || dto.affectedProcess.Some? || dto.pendingDelivery.Some? || dto.initialConsequence.Some?;
    if usesCardsFields || !Present(dto.categoryId) then Err(BadRequest)
    else
      var coordinationId :=
        if actor.role != COORDINADOR then None
        else if dto.coordinationId.Some? then dto.coordinationId
        else actor.coordinationId;
      if !Present(coordinationId) then Err(BadRequest)
      else CreateInternal(dto.(reportKind := Some(INTERNAL), coordinationId := coordinationId), actor, catalog, clock)
  }

  function CreateInternal(dto: CreateDto, actor: Actor, catalog: Catalog, clock: Clock): Result<Case> {
    if !Present(dto.categoryId) then Err(BadRequest)
    else if SITUATIONS_CREATE !in actor.permissions then Err(Forbidden)
    else if !Present(dto.coordinationId) then Err(BadRequest)
    else if actor.role == COORDINADOR && (!Present(actor.coordinationId) || dto.coordinationId != actor.coordinationId) then Err(Forbidden)
    else if Present(dto.affectedCoordinationId) && dto.affectedCoordinationId != dto.coordinationId then Err(BadRequest)
    else if dto.coordinationId.value !in catalog.active then Err(NotFound)
    else if dto.categoryId.value !in catalog.categories then Err(NotFound)
    else if !catalog.categories[dto.categoryId.value] then Err(BadRequest)
    else
      var related := ResolveRelated(dto.relatedCoordinationIds, dto.coordinationId.value, catalog);
      if related.Err? then Err(related.error)
      else
        var first := if dto.initialConsequence.Some? then Trim(dto.initialConsequence.value) else "";
        Persist(dto, actor, INTERNAL, dto.coordinationId, dto.coordinationId, dto.categoryId, related.value,
                None, None, if first == "" then None else Some(first), clock)
  }

  function CreateInterCoordination(dto: CreateDto, actor: Actor, catalog: Catalog, clock: Clock): Result<Case> {
    if dto.initialConsequence.Some? then Err(BadRequest)
    else if !Present(dto.coordinationId) then Err(BadRequest)
    else if !Present(dto.affectedCoordinationId) then Err(BadRequest)
    else if dto.coordinationId == dto.affectedCoordinationId then Err(BadRequest)
    else
      var process := if dto.affectedProcess.Some? then Trim(dto.affectedProcess.value) else "";
      var delivery := if dto.pendingDelivery.Some? then Trim(dto.pendingDelivery.value) else "";
      if process == "" || delivery == "" then Err(BadRequest)
      else if SITUATIONS_CREATE !in actor.permissions then Err(Forbidden)
      else if dto.coordinationId.value !in catalog.active || dto.affectedCoordinationId.value !in catalog.active then Err(NotFound)
      else
        var related := ResolveRelated(dto.relatedCoordinationIds, dto.coordinationId.value, catalog);
        if related.Err? then Err(related.error)
        else
          Persist(dto, actor, INTER_COORDINATION, dto.coordinationId, dto.affectedCoordinationId, None, related.value,
                  Some(process), Some(delivery), None, clock)
  }

  /** One transaction and one instant for the row, its due date, its REPORTED change and its first consequence. */
  function Persist(
    dto: CreateDto, actor: Actor, kind: ReportKind, responsible: Option<string>, affected: Option<string>,
    categoryId: Option<string>, related: seq<string>, process: Option<string>, delivery: Option<string>,
    initialConsequence: Option<string>, clock: Clock): Result<Case>
  {
    if dto.occurredAt.None? then Err(BadRequest)
    else if dto.occurredAt.value > clock.endOfToday then Err(BadRequest)
    else
      var occurredAt := dto.occurredAt.value;
      Ok(Case(
        Situation(
          Trim(dto.title), Trim(dto.description), kind, responsible, affected, process, delivery, actor.sub, categoryId,
          dto.severity, dto.severity, OPEN, None, None, None, None, clock.now,
          ComputeDueAt(dto.severity, clock.now), occurredAt, related),
        None,
        if initialConsequence.None? then []
        else [Consequence(initialConsequence.value, occurredAt, clock.now, actor.sub)],
        [Reported(dto.severity, clock.now, actor.sub)],
        [Created] + if initialConsequence.None? then [] else [ConsequenceAdded(occurredAt)]))
  }

  // ----- PATCH

  datatype UpdateDto = UpdateDto(
    title: Option<string>,
    description: Option<string>,
    coordinationId: Option<string>,
    status: Option<Status>,
    statusComment: Option<string>,
    occurredAt: Option<Option<int>>)

  function CheckPatch(row: Situation, dto: UpdateDto, actor: Actor, catalog: Catalog, endOfToday: int): Option<Failure> {
    var access :=
      if dto.status == Some(IN_PROGRESS) && row.status == OPEN
      then (if CanAdvance(actor, row, catalog.general) then None else Some(Forbidden))
      else CheckUpdate(actor, row);
    if access.Some? then access
    else if dto.status == Some(CLOSED) then Some(Forbidden)
    else if row.status == CLOSED && dto.status.Some? then Some(BadRequest)
    else if dto.coordinationId.Some? && actor.role == COORDINADOR then Some(Forbidden)
    else if dto.coordinationId.Some? && dto.coordinationId.value !in catalog.active then Some(NotFound)
    else if dto.occurredAt.Some? && dto.occurredAt.value.None? then Some(BadRequest)
    else if dto.occurredAt.Some? && dto.occurredAt.value.value > endOfToday then Some(BadRequest)
    else if dto.status.Some? && dto.status.value != row.status && dto.status.value !in NextStatuses(row.status) then Some(BadRequest)
    else if dto.status == Some(IN_PROGRESS) && row.status != IN_PROGRESS && actor.sub !in catalog.users then Some(NotFound)
    else None
  }

  function CommentOf(text: Option<string>): Option<string> {
    if text.Some? && Trim(text.value) != "" then Some(Trim(text.value)) else None
  }

  /** The fields PATCH edits besides the status. */
  function Edited(row: Situation, dto: UpdateDto): Situation {
    row.(
      coordinationId := if dto.coordinationId.Some? then dto.coordinationId else row.coordinationId,
      affectedCoordinationId :=
        if dto.coordinationId.Some? && row.reportKind == INTERNAL then dto.coordinationId else row.affectedCoordinationId,
      title := if dto.title.Some? then Trim(dto.title.value) else row.title,
      description := if dto.description.Some? then Trim(dto.description.value) else row.description,
      occurredAt := if dto.occurredAt.Some? && dto.occurredAt.value.Some? then dto.occurredAt.value.value else row.occurredAt)
  }

  /** The row PATCH saves once nothing was refused. */
  function Patched(row: Situation, dto: UpdateDto, actor: Actor): Situation {
    var edited := Edited(row, dto);
    if dto.status.Some? && dto.status.value != row.status then
      edited.(
        status := dto.status.value,
        assignedUserId := if dto.status.value == IN_PROGRESS then Some(actor.sub) else row.assignedUserId,
        lastStatusComment := CommentOf(dto.statusComment))
    else if dto.statusComment.Some? then edited.(lastStatusComment := Some(Trim(dto.statusComment.value)))
    else edited
  }

  function Patch(c: Case, dto: UpdateDto, actor: Actor, catalog: Catalog, endOfToday: int): Result<Case> {
    var refused := CheckPatch(c.row, dto, actor, catalog, endOfToday);
    if refused.Some? then Err(refused.value)
    else
      var row := Patched(c.row, dto, actor);
      Ok(c.(
        row := row,
        timeline := c.timeline + if row.status != c.row.status then [StatusChanged(c.row.status, row.status)] else []))
  }

  // ----- resolve

  function ClosedRow(row: Situation, now: int): Situation {
    row.(
      status := CLOSED,
      closedAt := Some(now),
      resolvedAt := if row.resolvedAt.Some? then row.resolvedAt else Some(now),
      lastStatusComment := None)
  }

  function Resolve(c: Case, learning: string, actor: Actor, general: Option<string>, now: int): Result<Case> {
    if Trim(learning) == "" then Err(BadRequest)
    else if !CanResolve(actor, c.row, general) then Err(Forbidden)
    else if c.row.status !in RESOLVABLE_STATUSES then Err(Conflict)
    else if c.resolution.Some? then Err(Conflict)
    else
      Ok(c.(
        row := ClosedRow(c.row, now),
        resolution := Some(Resolution(Trim(learning), actor.sub)),
        timeline := c.timeline + [Closed(c.row.status)]))
  }

  // ----- add a consequence

  /** Checks made before the transaction, with the instant the request captured. */
  function CheckConsequenceInput(description: string, occurredAt: Option<Option<int>>, now: int): Option<Failure> {
    if Trim(description) == "" then Some(BadRequest)
    else if occurredAt.Some? && occurredAt.value.None? then Some(BadRequest)
    else if occurredAt.Some? && occurredAt.value.value > now then Some(BadRequest)
    else None
  }

  function OccurredAtOf(occurredAt: Option<Option<int>>, now: int): int {
    if occurredAt.Some? && occurredAt.value.Some? then occurredAt.value.value else now
  }

  function AddConsequence(
    c: Case, description: string, occurredAt: Option<Option<int>>, actor: Actor, now: int): Result<Case>
  {
    var input := CheckConsequenceInput(description, occurredAt, now);
    var when := OccurredAtOf(occurredAt, now);
    var readable := CheckReadable(actor, c.row);
    if input.Some? then Err(input.value)
    else if readable.Some? then Err(readable.value)
    else if c.row.reportKind != INTERNAL then Err(BadRequest)
    else if c.row.status !in CONSEQUENCE_OPEN_STATUSES then Err(Conflict)
    else if SITUATIONS_UPDATE !in actor.permissions || !IsConsequenceParticipant(actor, c.row) then Err(Forbidden)
    else if when < c.row.occurredAt then Err(BadRequest)
    else
      Ok(c.(
        consequences := c.consequences + [Consequence(Trim(description), when, now, actor.sub)],
        timeline := c.timeline + [ConsequenceAdded(when)]))
  }

  // ----- what the operations keep

  function ClosedEntries(timeline: seq<Entry>): nat {
    if timeline == [] then 0
    else ClosedEntries(timeline[..|timeline| - 1]) + if timeline[|timeline| - 1].Closed? then 1 else 0
  }

  function ConsequenceEntries(timeline: seq<Entry>): seq<int> {
    if timeline == [] then []
    else
      var n := |timeline| - 1;
      ConsequenceEntries(timeline[..n]) + if timeline[n].ConsequenceAdded? then [timeline[n].occurredAt] else []
  }

  function OccurrenceTimes(consequences: seq<Consequence>): seq<int> {
    seq(|consequences|, i requires 0 <= i < |consequences| => consequences[i].occurredAt)
  }

  /** Closing writes status, dates and learning together, and RESOLVED is never produced. */
  ghost predicate ClosedTogether(c: Case, now: int) {
    && c.row.status in {OPEN, IN_PROGRESS, CLOSED}
    && (c.row.status == CLOSED <==> c.row.closedAt.Some?)
    && (c.row.status == CLOSED <==> c.resolution.Some?)
    && c.row.resolvedAt == c.row.closedAt
    && (c.row.closedAt.Some? ==> c.row.createdAt <= c.row.closedAt.value <= now)
    && (c.resolution.Some? ==> !Blank(c.resolution.value.learning))
    && ClosedEntries(c.timeline) == (if c.row.status == CLOSED then 1 else 0)
    && (c.row.status == IN_PROGRESS ==> c.row.assignedUserId.Some?)
  }

  /** The promise made at creation: severity, due date and history. */
  ghost predicate PromiseKept(c: Case) {
    && c.row.severity == c.row.reportedSeverity
    && c.row.dueAt == c.row.createdAt + WindowMs(c.row.reportedSeverity)
    && c.history == [Reported(c.row.reportedSeverity, c.row.createdAt, c.row.createdByUserId)]
  }

  ghost predicate AreasAgree(c: Case) {
    && c.row.coordinationId.Some?
    && (c.row.reportKind == INTERNAL ==> c.row.affectedCoordinationId == c.row.coordinationId)
    && (c.row.reportKind == INTER_COORDINATION ==> c.consequences == [] && c.row.affectedCoordinationId.Some?)
  }

  ghost predicate ConsequencesDated(c: Case, now: int) {
    && (forall k | 0 <= k < |c.consequences| ::
         && c.row.createdAt <= c.consequences[k].createdAt <= now
         && (c.row.closedAt.Some? ==> c.consequences[k].createdAt <= c.row.closedAt.value)
         && !Blank(c.consequences[k].description))
    && ConsequenceEntries(c.timeline) == OccurrenceTimes(c.consequences)
  }

  ghost predicate Sound(c: Case, now: int) {
    && c.row.createdAt <= now
    && ClosedTogether(c, now)
    && PromiseKept(c)
    && AreasAgree(c)
    && ConsequencesDated(c, now)
  }

  function StatusRank(status: Status): nat {
    match status
    case OPEN => 0
    case IN_PROGRESS => 1
    case RESOLVED => 1
    case CLOSED => 2
  }

  /** What may happen to a case over time: forward only, append only, and frozen once closed. */
  ghost predicate Evolves(a: Case, b: Case) {
    && StatusRank(a.row.status) <= StatusRank(b.row.status)
    && a.row.createdAt == b.row.createdAt
    && a.row.createdByUserId == b.row.createdByUserId
    && a.row.reportKind == b.row.reportKind
    && a.row.categoryId == b.row.categoryId
    && a.row.reportedSeverity == b.row.reportedSeverity
    && a.row.dueAt == b.row.dueAt
    && a.row.related == b.row.related
    && a.history == b.history
    && a.consequences <= b.consequences
    && a.timeline <= b.timeline
    && (a.row.status == CLOSED ==>
         && b.row.status == CLOSED
         && a.row.closedAt == b.row.closedAt
         && a.row.resolvedAt == b.row.resolvedAt
         && a.consequences == b.consequences)
    && (a.resolution.Some? ==> a.resolution == b.resolution)
  }

  lemma EntryCounts(timeline: seq<Entry>, e: Entry)
    ensures ClosedEntries(timeline + [e]) == ClosedEntries(timeline) + if e.Closed? then 1 else 0
    ensures ConsequenceEntries(timeline + [e]) ==
            ConsequenceEntries(timeline) + if e.ConsequenceAdded? then [e.occurredAt] else []
  {
    assert (timeline + [e])[..|timeline|] == timeline;
  }

  lemma TrimNotBlank(s: string)
    requires Trim(s) != ""
    ensures !Blank(Trim(s))
  {
    assert !IsSpace(Trim(s)[|Trim(s)| - 1]);
  }

  /** Related coordinations: trimmed, distinct, not the origin, and nothing dropped. */
  lemma RelatedResolved(ids: seq<string>, origin: string)
    ensures Distinct(UniqueRelated(ids, origin))
    ensures forall id :: id in UniqueRelated(ids, origin) <==>
              id != "" && id != origin && exists k :: 0 <= k < |ids| && Trim(ids[k]) == id
  {
    DedupeDistinct(Trimmed(ids));
    FilterDistinct((id: string) => id != "" && id != origin, Dedupe(Trimmed(ids)));
    forall id
      ensures id in UniqueRelated(ids, origin) <==>
              id != "" && id != origin && exists k :: 0 <= k < |ids| && Trim(ids[k]) == id
    {
      if id in UniqueRelated(ids, origin) {
        var k :| 0 <= k < |Trimmed(ids)| && Trimmed(ids)[k] == id;
        assert Trim(ids[k]) == id;
      }
      if k :| 0 <= k < |ids| && Trim(ids[k]) == id {
        assert Trimmed(ids)[k] == id;
      }
    }
  }

  /** They keep the order in which they were first given. */
  lemma RelatedInOrder(ids: seq<string>, id: string, origin: string)
    ensures UniqueRelated(ids + [id], origin) ==
            UniqueRelated(ids, origin) +
            if Trim(id) in {"", origin} || Trim(id) in UniqueRelated(ids, origin) then [] else [Trim(id)]
  {
    var keep := (x: string) => x != "" && x != origin;
    assert Trimmed(ids + [id]) == Trimmed(ids) + [Trim(id)];
    assert (Trimmed(ids) + [Trim(id)])[..|ids|] == Trimmed(ids);
    FilterConcat(keep, Dedupe(Trimmed(ids)), if Trim(id) in Trimmed(ids) then [] else [Trim(id)]);
    assert Dedupe(Trimmed(ids)) + [] == Dedupe(Trimmed(ids));
  }

  /** Accepted only when all related coordinations are active, refused only for one that is not. */
  lemma RelatedAccepted(ids: seq<string>, origin: string, catalog: Catalog)
    ensures match ResolveRelated(ids, origin, catalog)
            case Ok(related) => related == UniqueRelated(ids, origin) && forall id | id in related :: id in catalog.active
            case Err(error) =>
              && error == NotFound
              && exists k :: 0 <= k < |ids| && Trim(ids[k]) !in {"", origin} && Trim(ids[k]) !in catalog.active
  {
    if ResolveRelated(ids, origin, catalog).Err? {
      var id :| id in UniqueRelated(ids, origin) && id !in catalog.active;
      RelatedResolved(ids, origin);
      var k :| 0 <= k < |ids| && Trim(ids[k]) == id;
    }
  }

  lemma PersistIsSound(
    dto: CreateDto, actor: Actor, kind: ReportKind, responsible: Option<string>, affected: Option<string>,
    categoryId: Option<string>, related: seq<string>, process: Option<string>, delivery: Option<string>,
    first: Option<string>, clock: Clock)
    requires Present(responsible) && Present(affected)
    requires kind == INTERNAL ==> affected == responsible
    requires kind == INTER_COORDINATION ==> first.None?
    requires first.Some? ==> !Blank(first.value)
    ensures var r := Persist(dto, actor, kind, responsible, affected, categoryId, related, process, delivery, first, clock);
            r.Ok? ==> Sound(r.value, clock.now)
  {
    var r := Persist(dto, actor, kind, responsible, affected, categoryId, related, process, delivery, first, clock);
    if r.Ok? {
      EntryCounts([], Created);
      assert [] + [Created] == [Created];
      if first.Some? {
        EntryCounts([Created], ConsequenceAdded(dto.occurredAt.value));
      } else {
        assert r.value.timeline == [Created];
      }
      assert ConsequenceEntries(r.value.timeline) == OccurrenceTimes(r.value.consequences);
    }
  }

  /** A created case starts OPEN and sound, whichever contract the request used. */
  lemma CreateIsSound(dto: CreateDto, actor: Actor, catalog: Catalog, clock: Clock)
    requires Create(dto, actor, catalog, clock).Ok?
    ensures var c := Create(dto, actor, catalog, clock).value;
            && Sound(c, clock.now)
            && c.row.status == OPEN
            && c.row.createdAt == clock.now
            && c.row.coordinationId.value in catalog.active
            && c.row.affectedCoordinationId.value in catalog.active
            && (c.row.reportKind == INTER_COORDINATION ==> c.row.affectedCoordinationId != c.row.coordinationId)
            && (c.row.reportKind == INTERNAL <==> c.row.categoryId.Some?)
            && (dto.reportKind.Some? ==> c.row.reportKind == dto.reportKind.value)
  {
    if dto.reportKind == Some(INTER_COORDINATION) {
      CreateInterIsSound(dto, actor, catalog, clock);
    } else if dto.reportKind == Some(INTERNAL) {
      CreateInternalIsSound(dto, actor, catalog, clock);
    } else {
      var coordinationId := if dto.coordinationId.Some? then dto.coordinationId else actor.coordinationId;
      CreateInternalIsSound(dto.(reportKind := Some(INTERNAL), coordinationId := coordinationId), actor, catalog, clock);
    }
  }

  lemma CreateInterIsSound(dto: CreateDto, actor: Actor, catalog: Catalog, clock: Clock)
    requires CreateInterCoordination(dto, actor, catalog, clock).Ok?
    ensures var c := CreateInterCoordination(dto, actor, catalog, clock).value;
            && Sound(c, clock.now)
            && c.row.status == OPEN
            && c.row.createdAt == clock.now
            && c.row.affectedCoordinationId.Some? && c.row.affectedCoordinationId != c.row.coordinationId
            && c.row.coordinationId.value in catalog.active && c.row.affectedCoordinationId.value in catalog.active
            && c.row.reportKind == INTER_COORDINATION && c.row.categoryId.None?
  {
    var related := ResolveRelated(dto.relatedCoordinationIds, dto.coordinationId.value, catalog);
    PersistIsSound(dto, actor, INTER_COORDINATION, dto.coordinationId, dto.affectedCoordinationId, None, related.value,
                   Some(Trim(dto.affectedProcess.value)), Some(Trim(dto.pendingDelivery.value)), None, clock);
  }

  lemma CreateInternalIsSound(dto: CreateDto, actor: Actor, catalog: Catalog, clock: Clock)
    requires CreateInternal(dto, actor, catalog, clock).Ok?
    ensures var c := CreateInternal(dto, actor, catalog, clock).value;
            && Sound(c, clock.now)
            && c.row.status == OPEN
            && c.row.createdAt == clock.now
            && c.row.coordinationId == c.row.affectedCoordinationId
            && c.row.coordinationId.value in catalog.active
            && c.row.reportKind == INTERNAL && c.row.categoryId.Some?
  {
    var related := ResolveRelated(dto.relatedCoordinationIds, dto.coordinationId.value, catalog);
    var first := if dto.initialConsequence.Some? then Trim(dto.initialConsequence.value) else "";
    if first != "" {
      TrimNotBlank(dto.initialConsequence.value);
    }
    PersistIsSound(dto, actor, INTERNAL, dto.coordinationId, dto.coordinationId, dto.categoryId, related.value,
                   None, None, if first == "" then None else Some(first), clock);
  }

  // ----- what a request creates, column by column

  /** The responsible coordination of a request: its own, or for the previous contract the author's when it gives none. */
  function ResponsibleOf(dto: CreateDto, actor: Actor): Option<string> {
    if dto.reportKind.None? && dto.coordinationId.None? then actor.coordinationId else dto.coordinationId
  }

  ghost predicate CreatedRow(dto: CreateDto, actor: Actor, clock: Clock, row: Situation) {
    && row.title == Trim(dto.title)
    && row.description == Trim(dto.description)
    && row.createdByUserId == actor.sub
    && row.severity == dto.severity && row.reportedSeverity == dto.severity
    && Some(row.occurredAt) == dto.occurredAt
    && row.createdAt == clock.now
    && row.dueAt == clock.now + WindowMs(dto.severity)
    && row.status == OPEN
    && row.assignedUserId.None? && row.lastStatusComment.None? && row.resolvedAt.None? && row.closedAt.None?
    && row.coordinationId == ResponsibleOf(dto, actor)
    && row.related == UniqueRelated(dto.relatedCoordinationIds, if row.coordinationId.Some? then row.coordinationId.value else "")
  }

  ghost predicate InterRow(dto: CreateDto, row: Situation) {
    && row.reportKind == INTER_COORDINATION
    && row.affectedCoordinationId == dto.affectedCoordinationId
    && row.categoryId.None?
    && dto.affectedProcess.Some? && row.affectedProcess == Some(Trim(dto.affectedProcess.value))
    && dto.pendingDelivery.Some? && row.pendingDelivery == Some(Trim(dto.pendingDelivery.value))
  }

  ghost predicate InternalRow(dto: CreateDto, row: Situation) {
    && row.reportKind == INTERNAL
    && row.affectedCoordinationId == row.coordinationId
    && row.categoryId == dto.categoryId
    && row.affectedProcess.None? && row.pendingDelivery.None?
  }

  /** The first consequence: the trimmed text the request gives, if not blank, dated like the case. */
  ghost predicate FirstConsequence(dto: CreateDto, actor: Actor, c: Case) {
    if dto.initialConsequence.Some? && !Blank(dto.initialConsequence.value) then
      && c.consequences ==
         [Consequence(Trim(dto.initialConsequence.value), c.row.occurredAt, c.row.createdAt, actor.sub)]
      && c.timeline == [Created, ConsequenceAdded(c.row.occurredAt)]
    else c.consequences == [] && c.timeline == [Created]
  }

  ghost predicate CreatedFrom(dto: CreateDto, actor: Actor, clock: Clock, c: Case) {
    && CreatedRow(dto, actor, clock, c.row)
    && (if dto.reportKind == Some(INTER_COORDINATION) then InterRow(dto, c.row) else InternalRow(dto, c.row))
    && FirstConsequence(dto, actor, c)
    && c.resolution.None?
    && c.history == [Reported(dto.severity, clock.now, actor.sub)]
  }

  ghost predicate RelatedActive(ids: seq<string>, origin: string, catalog: Catalog) {
    forall k | 0 <= k < |ids| :: Trim(ids[k]) in {"", origin} || Trim(ids[k]) in catalog.active
  }

  /** What every accepted request has. */
  ghost predicate Creatable(dto: CreateDto, responsible: Option<string>, actor: Actor, catalog: Catalog, clock: Clock) {
    && SITUATIONS_CREATE in actor.permissions
    && responsible.Some? && responsible.value != "" && responsible.value in catalog.active
    && RelatedActive(dto.relatedCoordinationIds, responsible.value, catalog)
    && dto.occurredAt.Some? && dto.occurredAt.value <= clock.endOfToday
  }

  /** An INTERNAL one also has a selectable category and no other affected area; a coordinator reports for its own. */
  ghost predicate CreatableInternal(dto: CreateDto, responsible: Option<string>, actor: Actor, catalog: Catalog) {
    && dto.categoryId.Some? && dto.categoryId.value != ""
    && dto.categoryId.value in catalog.categories && catalog.categories[dto.categoryId.value]
    && (actor.role == COORDINADOR ==> responsible == actor.coordinationId)
    && (dto.affectedCoordinationId in {None, Some(""), responsible})
  }

  /** An INTER one has a different active affected area, process and delivery, and no first consequence. */
  ghost predicate CreatableInter(dto: CreateDto, catalog: Catalog) {
    && dto.affectedCoordinationId.Some? && dto.affectedCoordinationId.value != ""
    && dto.affectedCoordinationId.value in catalog.active
    && dto.affectedCoordinationId != dto.coordinationId
    && dto.affectedProcess.Some? && !Blank(dto.affectedProcess.value)
    && dto.pendingDelivery.Some? && !Blank(dto.pendingDelivery.value)
    && dto.initialConsequence.None?
  }

  /** The previous contract knows no card field and is for coordinators. */
  ghost predicate LegacyShaped(dto: CreateDto, actor: Actor) {
    && dto.affectedCoordinationId.None? && dto.affectedProcess.None? && dto.pendingDelivery.None?
    && dto.initialConsequence.None?
    && actor.role == COORDINADOR
  }

  lemma RelatedAcceptedIff(ids: seq<string>, origin: string, catalog: Catalog)
    ensures ResolveRelated(ids, origin, catalog).Ok? <==> RelatedActive(ids, origin, catalog)
  {
    RelatedResolved(ids, origin);
    RelatedAccepted(ids, origin, catalog);
    if ResolveRelated(ids, origin, catalog).Ok? {
      forall k | 0 <= k < |ids| ensures Trim(ids[k]) in {"", origin} || Trim(ids[k]) in catalog.active {
        assert Trim(ids[k]) !in {"", origin} ==> Trim(ids[k]) in UniqueRelated(ids, origin);
      }
    }
  }

  lemma InternalOutcome(dto: CreateDto, actor: Actor, catalog: Catalog, clock: Clock)
    requires dto.reportKind == Some(INTERNAL)
    ensures var r := CreateInternal(dto, actor, catalog, clock);
            && (r.Ok? <==> Creatable(dto, dto.coordinationId, actor, catalog, clock)
                           && CreatableInternal(dto, dto.coordinationId, actor, catalog))
            && (r.Ok? ==> CreatedFrom(dto, actor, clock, r.value))
  {
    if dto.coordinationId.Some? {
      RelatedAcceptedIff(dto.relatedCoordinationIds, dto.coordinationId.value, catalog);
    }
    if dto.initialConsequence.Some? {
      TrimEmptyIffBlank(dto.initialConsequence.value);
    }
  }

  lemma InterOutcome(dto: CreateDto, actor: Actor, catalog: Catalog, clock: Clock)
    requires dto.reportKind == Some(INTER_COORDINATION)
    ensures var r := CreateInterCoordination(dto, actor, catalog, clock);
            && (r.Ok? <==> Creatable(dto, dto.coordinationId, actor, catalog, clock) && CreatableInter(dto, catalog))
            && (r.Ok? ==> CreatedFrom(dto, actor, clock, r.value))
  {
    if dto.coordinationId.Some? {
      RelatedAcceptedIff(dto.relatedCoordinationIds, dto.coordinationId.value, catalog);
    }
    if dto.affectedProcess.Some? {
      TrimEmptyIffBlank(dto.affectedProcess.value);
    }
    if dto.pendingDelivery.Some? {
      TrimEmptyIffBlank(dto.pendingDelivery.value);
    }
  }

  /** CREATE, EXACTLY: which requests are accepted under each contract, and every column of what they leave. */
  lemma CreateOutcome(dto: CreateDto, actor: Actor, catalog: Catalog, clock: Clock)
    ensures var r := Create(dto, actor, catalog, clock);
            var responsible := ResponsibleOf(dto, actor);
            && (r.Ok? <==>
                && Creatable(dto, responsible, actor, catalog, clock)
                && (match dto.reportKind
                    case Some(INTER_COORDINATION) => CreatableInter(dto, catalog)
                    case Some(INTERNAL) => CreatableInternal(dto, responsible, actor, catalog)
                    case None => LegacyShaped(dto, actor) && CreatableInternal(dto, responsible, actor, catalog)))
            && (r.Ok? ==> CreatedFrom(dto, actor, clock, r.value))
  {
    match dto.reportKind
    case Some(INTER_COORDINATION) => InterOutcome(dto, actor, catalog, clock);
    case Some(INTERNAL) => InternalOutcome(dto, actor, catalog, clock);
    case None =>
      InternalOutcome(
        dto.(reportKind := Some(INTERNAL), coordinationId := ResponsibleOf(dto, actor)), actor, catalog, clock);
  }

  /** Columns PATCH never writes. */
  ghost predicate SameIdentity(a: Situation, b: Situation) {
    && a.reportKind == b.reportKind
    && a.createdByUserId == b.createdByUserId
    && a.categoryId == b.categoryId
    && a.severity == b.severity
    && a.reportedSeverity == b.reportedSeverity
    && a.resolvedAt == b.resolvedAt
    && a.closedAt == b.closedAt
    && a.createdAt == b.createdAt
    && a.dueAt == b.dueAt
    && a.related == b.related
  }

  /** The value a column takes: the given text, trimmed, or what it was. */
  ghost predicate TextColumn(given: Option<string>, before: string, after: string) {
    (given.Some? ==> after == Trim(given.value)) && (given.None? ==> after == before)
  }

  /** Column by column, what PATCH leaves in the row for what the request gives. */
  ghost predicate EditedTo(row: Situation, dto: UpdateDto, after: Situation) {
    && SameIdentity(row, after)
    && after.affectedProcess == row.affectedProcess && after.pendingDelivery == row.pendingDelivery
    && TextColumn(dto.title, row.title, after.title)
    && TextColumn(dto.description, row.description, after.description)
    && (dto.coordinationId.Some? ==> after.coordinationId == dto.coordinationId)
    && (dto.coordinationId.None? ==> after.coordinationId == row.coordinationId)
    && (dto.coordinationId.Some? && row.reportKind == INTERNAL ==> after.affectedCoordinationId == dto.coordinationId)
    && (dto.coordinationId.None? || row.reportKind != INTERNAL ==> after.affectedCoordinationId == row.affectedCoordinationId)
    && (dto.occurredAt.Some? && dto.occurredAt.value.Some? ==> after.occurredAt == dto.occurredAt.value.value)
    && (dto.occurredAt.None? || dto.occurredAt.value.None? ==> after.occurredAt == row.occurredAt)
  }

  /** Status, assignment and comment: a change of status takes its comment with it, blank meaning none. */
  ghost predicate MovedTo(row: Situation, dto: UpdateDto, actor: Actor, after: Situation) {
    && (dto.status.None? ==> after.status == row.status)
    && (dto.status.Some? ==> after.status == dto.status.value)
    && (after.status == row.status || after.status != IN_PROGRESS ==> after.assignedUserId == row.assignedUserId)
    && (after.status != row.status && after.status == IN_PROGRESS ==> after.assignedUserId == Some(actor.sub))
    && (after.status == row.status && dto.statusComment.None? ==> after.lastStatusComment == row.lastStatusComment)
    && (after.status == row.status && dto.statusComment.Some? ==>
          after.lastStatusComment == Some(Trim(dto.statusComment.value)))
    && (after.status != row.status && (dto.statusComment.None? || Blank(dto.statusComment.value)) ==>
          after.lastStatusComment.None?)
    && (after.status != row.status && dto.statusComment.Some? && !Blank(dto.statusComment.value) ==>
          after.lastStatusComment == Some(Trim(dto.statusComment.value)))
  }

  lemma EditedColumns(row: Situation, dto: UpdateDto)
    ensures EditedTo(row, dto, Edited(row, dto))
    ensures var after := Edited(row, dto);
            after.status == row.status && after.assignedUserId == row.assignedUserId
            && after.lastStatusComment == row.lastStatusComment
  {
  }

  /** Status, assignment and comment are no edited columns. */
  lemma MovingKeepsEdits(row: Situation, dto: UpdateDto, edited: Situation, after: Situation)
    requires EditedTo(row, dto, edited)
    requires after == edited.(
               status := after.status, assignedUserId := after.assignedUserId, lastStatusComment := after.lastStatusComment)
    ensures EditedTo(row, dto, after)
  {
  }

  lemma PatchedMoves(row: Situation, dto: UpdateDto, actor: Actor)
    ensures MovedTo(row, dto, actor, Patched(row, dto, actor))
  {
    EditedColumns(row, dto);
    if dto.statusComment.Some? {
      TrimEmptyIffBlank(dto.statusComment.value);
    }
  }

  lemma PatchedColumns(row: Situation, dto: UpdateDto, actor: Actor)
    ensures EditedTo(row, dto, Patched(row, dto, actor)) && MovedTo(row, dto, actor, Patched(row, dto, actor))
  {
    EditedColumns(row, dto);
    MovingKeepsEdits(row, dto, Edited(row, dto), Patched(row, dto, actor));
    PatchedMoves(row, dto, actor);
  }

  lemma PatchedRow(row: Situation, dto: UpdateDto, actor: Actor, catalog: Catalog, endOfToday: int)
    requires CheckPatch(row, dto, actor, catalog, endOfToday).None?
    ensures var after := Patched(row, dto, actor);
            && EditedTo(row, dto, after) && MovedTo(row, dto, actor, after)
            && (row.reportKind == INTERNAL && row.affectedCoordinationId == row.coordinationId ==>
                  after.affectedCoordinationId == after.coordinationId)
            && (row.reportKind != INTERNAL ==> after.affectedCoordinationId == row.affectedCoordinationId)
            && (row.coordinationId.Some? ==> after.coordinationId.Some?)
            && ((after.status == row.status && after.assignedUserId == row.assignedUserId)
                || (row.status == OPEN && after.status == IN_PROGRESS && after.assignedUserId == Some(actor.sub)))
  {
    PatchedColumns(row, dto, actor);
  }

  /** INDEPENDENT COLUMNS. Two requests on one row that agree on a field leave the same value in its column. */
  lemma SameFieldSameValue(row: Situation, a: UpdateDto, b: UpdateDto, actor: Actor)
    ensures var x, y := Patched(row, a, actor), Patched(row, b, actor);
            && (a.title == b.title ==> x.title == y.title)
            && (a.description == b.description ==> x.description == y.description)
            && (a.coordinationId == b.coordinationId ==>
                  x.coordinationId == y.coordinationId && x.affectedCoordinationId == y.affectedCoordinationId)
            && (a.occurredAt == b.occurredAt ==> x.occurredAt == y.occurredAt)
            && (a.status == b.status ==> x.status == y.status && x.assignedUserId == y.assignedUserId)
            && (a.status == b.status && a.statusComment == b.statusComment ==> x.lastStatusComment == y.lastStatusComment)
  {
    PatchedColumns(row, a, actor);
    PatchedColumns(row, b, actor);
    SameColumns(row, a, b, actor, Patched(row, a, actor), Patched(row, b, actor));
  }

  lemma SameColumns(row: Situation, a: UpdateDto, b: UpdateDto, actor: Actor, x: Situation, y: Situation)
    requires EditedTo(row, a, x) && MovedTo(row, a, actor, x)
    requires EditedTo(row, b, y) && MovedTo(row, b, actor, y)
    ensures && (a.title == b.title ==> x.title == y.title)
            && (a.description == b.description ==> x.description == y.description)
            && (a.coordinationId == b.coordinationId ==>
                  x.coordinationId == y.coordinationId && x.affectedCoordinationId == y.affectedCoordinationId)
            && (a.occurredAt == b.occurredAt ==> x.occurredAt == y.occurredAt)
            && (a.status == b.status ==> x.status == y.status && x.assignedUserId == y.assignedUserId)
            && (a.status == b.status && a.statusComment == b.statusComment ==> x.lastStatusComment == y.lastStatusComment)
  {
  }

  // ----- who may do what

  /** The analyst of the general coordination, or the coordinator of the responsible one. */
  lemma WhoOperates(actor: Actor, row: Situation, general: Option<string>)
    ensures CanOperateArea(actor, row, general) <==>
            && row.coordinationId.Some? && row.coordinationId.value != ""
            && (|| (actor.role == ANALISTA && general == row.coordinationId)
                || (actor.role == COORDINADOR && actor.coordinationId == row.coordinationId))
    ensures CanResolve(actor, row, general) <==> SITUATIONS_CLOSE in actor.permissions && CanOperateArea(actor, row, general)
    ensures CanAdvance(actor, row, general) <==> SITUATIONS_UPDATE in actor.permissions && CanOperateArea(actor, row, general)
  {
  }

  /** Edits: an author, unless a coordinator of another area, or the coordinator of the responsible area. */
  lemma WhoEdits(actor: Actor, row: Situation)
    ensures CheckUpdate(actor, row).None? <==>
            && {SITUATIONS_VIEW, SITUATIONS_UPDATE} <= actor.permissions
            && (if actor.role == COORDINADOR
                then row.coordinationId.Some? && row.coordinationId.value != "" && actor.coordinationId == row.coordinationId
                else row.createdByUserId == actor.sub)
    ensures CheckUpdate(actor, row) == Some(NotFound) <==>
            && {SITUATIONS_VIEW, SITUATIONS_UPDATE} <= actor.permissions
            && actor.role == COORDINADOR
            && !(row.coordinationId.Some? && row.coordinationId.value != "" && actor.coordinationId == row.coordinationId)
    ensures CheckUpdate(actor, row) in {None, Some(NotFound), Some(Forbidden)}
  {
  }

  /** Only the author (analyst) or the responsible coordinator adds consequences; both can read the case. */
  lemma WhoAddsConsequences(actor: Actor, row: Situation)
    ensures IsConsequenceParticipant(actor, row) <==>
            || (actor.role == ANALISTA && row.createdByUserId == actor.sub)
            || (actor.role == COORDINADOR && row.coordinationId.Some? && row.coordinationId.value != ""
                && actor.coordinationId == row.coordinationId)
    ensures SITUATIONS_VIEW in actor.permissions && IsConsequenceParticipant(actor, row) ==> CheckReadable(actor, row).None?
    ensures CheckReadable(actor, row) == Some(Forbidden) <==> SITUATIONS_VIEW !in actor.permissions
    ensures CheckReadable(actor, row) == Some(NotFound) <==>
            && SITUATIONS_VIEW in actor.permissions && row.createdByUserId != actor.sub && actor.role == COORDINADOR
            && (actor.coordinationId.None? || actor.coordinationId.value == ""
                || (actor.coordinationId != row.coordinationId && actor.coordinationId != row.affectedCoordinationId))
    ensures CheckReadable(actor, row) in {None, Some(NotFound), Some(Forbidden)}
  {
  }

  /**
   * A repeated PATCH saves the same row again, except in one case: a status change
   * that came with a blank comment clears the comment, and its repetition, being
   * no status change any more, stores the empty text.
   */
  lemma PatchAgainSavesTheSameIff(row: Situation, dto: UpdateDto, actor: Actor)
    ensures Patched(Patched(row, dto, actor), dto, actor) == Patched(row, dto, actor) <==>
            !(dto.status.Some? && dto.status.value != row.status
              && dto.statusComment.Some? && Blank(dto.statusComment.value))
  {
    if dto.statusComment.Some? {
      TrimEmptyIffBlank(dto.statusComment.value);
    }
    var once := Patched(row, dto, actor);
    assert Edited(once, dto) == once;
  }

  lemma PatchKeepsSound(c: Case, dto: UpdateDto, actor: Actor, catalog: Catalog, endOfToday: int, now: int)
    requires Sound(c, now) && Patch(c, dto, actor, catalog, endOfToday).Ok?
    ensures Sound(Patch(c, dto, actor, catalog, endOfToday).value, now)
    ensures Evolves(c, Patch(c, dto, actor, catalog, endOfToday).value)
  {
    var d := Patch(c, dto, actor, catalog, endOfToday).value;
    PatchedRow(c.row, dto, actor, catalog, endOfToday);
    PatchedKeepsSound(c, d, now);
  }

  /** Any change of the row that keeps what PATCH keeps leaves the case sound. */
  lemma PatchedKeepsSound(c: Case, d: Case, now: int)
    requires Sound(c, now) && SameIdentity(c.row, d.row)
    requires d == c.(row := d.row, timeline := d.timeline)
    requires d.timeline == c.timeline + if d.row.status != c.row.status then [StatusChanged(c.row.status, d.row.status)] else []
    requires c.row.reportKind == INTERNAL ==> d.row.affectedCoordinationId == d.row.coordinationId
    requires c.row.reportKind != INTERNAL ==> d.row.affectedCoordinationId == c.row.affectedCoordinationId
    requires d.row.coordinationId.Some?
    requires || (d.row.status == c.row.status && d.row.assignedUserId == c.row.assignedUserId)
             || (c.row.status == OPEN && d.row.status == IN_PROGRESS && d.row.assignedUserId.Some?)
    ensures Sound(d, now) && Evolves(c, d)
  {
    if d.row.status != c.row.status {
      EntryCounts(c.timeline, StatusChanged(c.row.status, d.row.status));
    } else {
      assert d.timeline == c.timeline;
    }
  }

  lemma ResolveKeepsSound(c: Case, learning: string, actor: Actor, general: Option<string>, now: int)
    requires Sound(c, now) && Resolve(c, learning, actor, general, now).Ok?
    ensures Sound(Resolve(c, learning, actor, general, now).value, now)
    ensures Evolves(c, Resolve(c, learning, actor, general, now).value)
  {
    TrimNotBlank(learning);
    EntryCounts(c.timeline, Closed(c.row.status));
  }

  /** The status a PATCH may ask for: none, the same (unless closed), or IN_PROGRESS on an OPEN case. */
  ghost predicate StatusAskable(row: Situation, dto: UpdateDto, actor: Actor, catalog: Catalog) {
    || dto.status.None?
    || (dto.status.value == row.status && row.status != CLOSED)
    || (row.status == OPEN && dto.status.value == IN_PROGRESS && actor.sub in catalog.users)
  }

  ghost predicate PatchAuthorised(row: Situation, dto: UpdateDto, actor: Actor, catalog: Catalog) {
    if row.status == OPEN && dto.status == Some(IN_PROGRESS) then CanAdvance(actor, row, catalog.general)
    else CheckUpdate(actor, row).None?
  }

  ghost predicate FieldsAcceptable(dto: UpdateDto, actor: Actor, catalog: Catalog, endOfToday: int) {
    && (dto.coordinationId.Some? ==> actor.role != COORDINADOR && dto.coordinationId.value in catalog.active)
    && (dto.occurredAt.Some? ==> dto.occurredAt.value.Some? && dto.occurredAt.value.value <= endOfToday)
  }

  /** PATCH, EXACTLY: accepted when, refused why, and what it leaves beside the row. */
  lemma PatchOutcome(c: Case, dto: UpdateDto, actor: Actor, catalog: Catalog, endOfToday: int)
    ensures Patch(c, dto, actor, catalog, endOfToday).Ok? <==>
            && PatchAuthorised(c.row, dto, actor, catalog)
            && FieldsAcceptable(dto, actor, catalog, endOfToday)
            && StatusAskable(c.row, dto, actor, catalog)
    ensures PatchAuthorised(c.row, dto, actor, catalog) && dto.status == Some(CLOSED) ==>
              Patch(c, dto, actor, catalog, endOfToday) == Err(Forbidden)
    ensures PatchAuthorised(c.row, dto, actor, catalog) && c.row.status == CLOSED && dto.status !in {None, Some(CLOSED)} ==>
              Patch(c, dto, actor, catalog, endOfToday) == Err(BadRequest)
    ensures match Patch(c, dto, actor, catalog, endOfToday)
            case Ok(d) =>
              && EditedTo(c.row, dto, d.row) && MovedTo(c.row, dto, actor, d.row)
              && d.resolution == c.resolution && d.consequences == c.consequences && d.history == c.history
              && d.timeline == c.timeline + (if d.row.status == c.row.status then [] else [StatusChanged(c.row.status, d.row.status)])
            case Err(Forbidden) =>
              || !PatchAuthorised(c.row, dto, actor, catalog) || dto.status == Some(CLOSED)
              || (dto.coordinationId.Some? && actor.role == COORDINADOR)
            case Err(NotFound) =>
              || CheckUpdate(actor, c.row) == Some(NotFound)
              || (dto.coordinationId.Some? && dto.coordinationId.value !in catalog.active)
              || (dto.status == Some(IN_PROGRESS) && actor.sub !in catalog.users)
            case Err(BadRequest) =>
              || !FieldsAcceptable(dto, actor, catalog, endOfToday) || !StatusAskable(c.row, dto, actor, catalog)
            case Err(_) => false
  {
    PatchChecks(c.row, dto, actor, catalog, endOfToday);
    PatchedColumns(c.row, dto, actor);
  }

  lemma PatchChecks(row: Situation, dto: UpdateDto, actor: Actor, catalog: Catalog, endOfToday: int)
    ensures CheckPatch(row, dto, actor, catalog, endOfToday).None? <==>
            && PatchAuthorised(row, dto, actor, catalog)
            && FieldsAcceptable(dto, actor, catalog, endOfToday)
            && StatusAskable(row, dto, actor, catalog)
    ensures match CheckPatch(row, dto, actor, catalog, endOfToday)
            case None => true
            case Some(Forbidden) =>
              || !PatchAuthorised(row, dto, actor, catalog) || dto.status == Some(CLOSED)
              || (dto.coordinationId.Some? && actor.role == COORDINADOR)
            case Some(NotFound) =>
              || CheckUpdate(actor, row) == Some(NotFound)
              || (dto.coordinationId.Some? && dto.coordinationId.value !in catalog.active)
              || (dto.status == Some(IN_PROGRESS) && actor.sub !in catalog.users)
            case Some(BadRequest) => !FieldsAcceptable(dto, actor, catalog, endOfToday) || !StatusAskable(row, dto, actor, catalog)
            case Some(_) => false
  {
    WhoEdits(actor, row);
  }

  /** What a resolution leaves: closed at its instant with its trimmed learning and its author, the rest untouched. */
  ghost predicate ResolvedInto(c: Case, d: Case, learning: string, actor: Actor, now: int) {
    && d.row.status == CLOSED && d.row.closedAt == Some(now)
    && (c.row.resolvedAt.Some? ==> d.row.resolvedAt == c.row.resolvedAt)
    && (c.row.resolvedAt.None? ==> d.row.resolvedAt == Some(now))
    && d.row.lastStatusComment.None?
    && d.row == c.row.(status := d.row.status, closedAt := d.row.closedAt, resolvedAt := d.row.resolvedAt, lastStatusComment := None)
    && d.resolution == Some(Resolution(Trim(learning), actor.sub))
    && d.consequences == c.consequences && d.history == c.history
    && d.timeline == c.timeline + [Closed(c.row.status)]
  }

  /** RESOLVE, EXACTLY: accepted when, refused why, and what it leaves. */
  lemma ResolveOutcome(c: Case, learning: string, actor: Actor, general: Option<string>, now: int)
    ensures match Resolve(c, learning, actor, general, now)
            case Ok(d) =>
              && !Blank(learning) && c.row.status != CLOSED && c.resolution.None? && CanResolve(actor, c.row, general)
              && ResolvedInto(c, d, learning, actor, now)
            case Err(BadRequest) => Blank(learning)
            case Err(Forbidden) => !Blank(learning) && !CanResolve(actor, c.row, general)
            case Err(Conflict) =>
              && !Blank(learning) && CanResolve(actor, c.row, general)
              && (c.row.status == CLOSED || c.resolution.Some?)
            case Err(_) => false
  {
    TrimEmptyIffBlank(learning);
  }

  /** The date of a consequence: as given, or the captured instant when none was given. */
  ghost predicate DatedAs(occurredAt: Option<Option<int>>, captured: int, when: int) {
    (occurredAt.None? ==> when == captured) && (occurredAt.Some? ==> occurredAt.value == Some(when))
  }

  /** What an accepted consequence leaves: one row and one entry, dated alike, between the case's own date and the captured instant. */
  ghost predicate ConsequenceInto(
    c: Case, d: Case, description: string, occurredAt: Option<Option<int>>, actor: Actor, captured: int)
  {
    && |d.consequences| == |c.consequences| + 1 && c.consequences <= d.consequences
    && var added := d.consequences[|c.consequences|];
       && added.description == Trim(description)
       && DatedAs(occurredAt, captured, added.occurredAt)
       && c.row.occurredAt <= added.occurredAt <= captured
       && added.createdAt == captured
       && added.createdByUserId == actor.sub
       && d.timeline == c.timeline + [ConsequenceAdded(added.occurredAt)]
       && d.row == c.row && d.resolution == c.resolution && d.history == c.history
  }

  /** ADD CONSEQUENCE, EXACTLY: accepted when, refused why, and what it leaves. */
  lemma ConsequenceOutcome(
    c: Case, description: string, occurredAt: Option<Option<int>>, actor: Actor, captured: int)
    ensures match AddConsequence(c, description, occurredAt, actor, captured)
            case Ok(d) =>
              && !Blank(description) && c.row.reportKind == INTERNAL && c.row.status in {OPEN, IN_PROGRESS}
              && {SITUATIONS_VIEW, SITUATIONS_UPDATE} <= actor.permissions && IsConsequenceParticipant(actor, c.row)
              && ConsequenceInto(c, d, description, occurredAt, actor, captured)
            case Err(BadRequest) =>
              || Blank(description) || c.row.reportKind != INTERNAL
              || (forall when | DatedAs(occurredAt, captured, when) :: when < c.row.occurredAt || captured < when)
            case Err(NotFound) => CheckReadable(actor, c.row) == Some(NotFound)
            case Err(Conflict) => c.row.status !in {OPEN, IN_PROGRESS}
            case Err(Forbidden) =>
              !({SITUATIONS_VIEW, SITUATIONS_UPDATE} <= actor.permissions && IsConsequenceParticipant(actor, c.row))
            case Err(Unprocessable) => false
  {
    TrimEmptyIffBlank(description);
    WhoAddsConsequences(actor, c.row);
  }

  /** A request that meets every condition is accepted. */
  lemma ConsequenceAccepted(
    c: Case, description: string, occurredAt: Option<Option<int>>, actor: Actor, captured: int, when: int)
    requires !Blank(description) && c.row.reportKind == INTERNAL && c.row.status in {OPEN, IN_PROGRESS}
    requires {SITUATIONS_VIEW, SITUATIONS_UPDATE} <= actor.permissions && IsConsequenceParticipant(actor, c.row)
    requires DatedAs(occurredAt, captured, when) && c.row.occurredAt <= when <= captured
    ensures AddConsequence(c, description, occurredAt, actor, captured).Ok?
  {
    TrimEmptyIffBlank(description);
    WhoAddsConsequences(actor, c.row);
  }

  /** The consequence carries an instant captured earlier (`then`), at or before the clock `now`. */
  lemma AddConsequenceKeepsSound(
    c: Case, description: string, occurredAt: Option<Option<int>>, actor: Actor, captured: int, now: int)
    requires Sound(c, now) && c.row.createdAt <= captured <= now
    requires AddConsequence(c, description, occurredAt, actor, captured).Ok?
    ensures Sound(AddConsequence(c, description, occurredAt, actor, captured).value, now)
    ensures Evolves(c, AddConsequence(c, description, occurredAt, actor, captured).value)
  {
    var d := AddConsequence(c, description, occurredAt, actor, captured).value;
    TrimNotBlank(description);
    EntryCounts(c.timeline, ConsequenceAdded(OccurredAtOf(occurredAt, captured)));
    assert OccurrenceTimes(d.consequences) == OccurrenceTimes(c.consequences) + [OccurredAtOf(occurredAt, captured)];
  }

  lemma EvolvesTransitive(a: Case, b: Case, c: Case)
    requires Evolves(a, b) && Evolves(b, c)
    ensures Evolves(a, c)
  {
  }

  // ----- SLA

  datatype SlaHealth = OnTrack | AtRisk | Overdue | ClosedHealth

  function ComputeSlaHealth(dueAt: Option<int>, status: Status, now: int, reportedSeverity: Severity): SlaHealth {
    if status == CLOSED then ClosedHealth
    else if dueAt.None? then OnTrack
    else if now > dueAt.value then Overdue
    else if now >= dueAt.value - WarningMs(reportedSeverity) then AtRisk
    else OnTrack
  }

  /** The four verdicts exclude one another and are told by the instants: the last promised one is still in time. */
  lemma HealthByInstants(dueAt: Option<int>, status: Status, now: int, reported: Severity, closedAt: Option<int>)
    ensures var h := ComputeSlaHealth(dueAt, status, now, reported);
            && (h == ClosedHealth <==> status == CLOSED)
            && (h == Overdue <==> status != CLOSED && dueAt.Some? && dueAt.value < now)
            && (h == AtRisk <==> status != CLOSED && dueAt.Some? && now <= dueAt.value <= now + WarningMs(reported))
            && (h == OnTrack <==> status != CLOSED && (dueAt.None? || now + WarningMs(reported) < dueAt.value))
    ensures WasClosedOnTime(dueAt, closedAt).Some? <==> dueAt.Some? && closedAt.Some?
    ensures dueAt.Some? && closedAt.Some? ==> WasClosedOnTime(dueAt, closedAt) == Some(!(dueAt.value < closedAt.value))
  {
  }

  function WasClosedOnTime(dueAt: Option<int>, closedAt: Option<int>): Option<bool> {
    if dueAt.None? || closedAt.None? then None else Some(closedAt.value <= dueAt.value)
  }

  function HealthRank(h: SlaHealth): nat {
    match h
    case OnTrack => 0
    case AtRisk => 1
    case Overdue => 2
    case ClosedHealth => 3
  }

  /**
   * The health shown while a case was alive and the verdict recorded when it was
   * closed agree: it was closed on time exactly when it was not overdue at that
   * instant. While alive, health only worsens, and a new case is on track.
   */
  lemma SlaVerdictAgreesWithHealth(
    c: Case, learning: string, actor: Actor, general: Option<string>, earlier: int, now: int)
    requires Sound(c, earlier) && earlier <= now
    requires Resolve(c, learning, actor, general, now).Ok?
    ensures var d := Resolve(c, learning, actor, general, now).value;
            && (WasClosedOnTime(Some(d.row.dueAt), d.row.closedAt) == Some(true) <==>
                ComputeSlaHealth(Some(c.row.dueAt), c.row.status, now, c.row.reportedSeverity) != Overdue)
            && HealthRank(ComputeSlaHealth(Some(c.row.dueAt), c.row.status, earlier, c.row.reportedSeverity))
               <= HealthRank(ComputeSlaHealth(Some(c.row.dueAt), c.row.status, now, c.row.reportedSeverity))
            && ComputeSlaHealth(Some(c.row.dueAt), c.row.status, c.row.createdAt, c.row.reportedSeverity) == OnTrack
  {
  }

  // ----- the operations on mutable rows

  class SituationRows {
    var row: Situation
    var resolution: Option<Resolution>
    var consequences: seq<Consequence>
    var history: seq<SeverityChange>
    var timeline: seq<Entry>

    function View(): Case
      reads this
    {
      Case(row, resolution, consequences, history, timeline)
    }

    constructor (created: Case)
      ensures View() == created
    {
      row, resolution, consequences := created.row, created.resolution, created.consequences;
      history, timeline := created.history, created.timeline;
    }

    /** Writes the target status with everything that goes with it. */
    static method ApplyStatusTransition(
      situation: Situation, next: Status, comment: Option<string>, actorId: string, users: set<string>, now: int)
      returns (r: Result<Situation>)
      ensures r.Err? <==> next == IN_PROGRESS && actorId !in users
      ensures r.Ok? ==> r.value.status == next && r.value.lastStatusComment == comment
      ensures r.Ok? && next == IN_PROGRESS ==>
                r.value == situation.(status := next, lastStatusComment := comment, assignedUserId := Some(actorId))
      ensures r.Ok? && next == RESOLVED ==>
                r.value == situation.(status := next, lastStatusComment := comment, resolvedAt := Some(now))
      ensures r.Ok? && next == CLOSED ==>
                r.value == situation.(status := next, lastStatusComment := comment, closedAt := Some(now),
                                      resolvedAt := if situation.resolvedAt.Some? then situation.resolvedAt else Some(now))
      ensures r.Ok? && next == OPEN ==> r.value == situation.(status := next, lastStatusComment := comment)
      ensures r.Err? ==> r.error == NotFound
    {
      var s := situation.(status := next, lastStatusComment := comment);
      if next == IN_PROGRESS {
        if actorId !in users {
          return Err(NotFound);
        }
        s := s.(assignedUserId := Some(actorId));
      }
      if next == RESOLVED {
        s := s.(resolvedAt := Some(now));
      }
      if next == CLOSED {
        s := s.(closedAt := Some(now));
        if s.resolvedAt.None? {
          s := s.(resolvedAt := s.closedAt);
        }
      }
      return Ok(s);
    }

    static method EditFields(row: Situation, dto: UpdateDto, actor: Actor, catalog: Catalog, endOfToday: int)
      returns (r: Result<Situation>)
      ensures r.Ok? ==> EditedTo(row, dto, r.value)
      ensures r.Ok? ==> r.value == Edited(row, dto)
      ensures r.Ok? <==>
                && (dto.coordinationId.Some? ==> actor.role != COORDINADOR && dto.coordinationId.value in catalog.active)
                && (dto.occurredAt.Some? ==> dto.occurredAt.value.Some? && dto.occurredAt.value.value <= endOfToday)
      ensures r.Err? ==>
                r.error == (if dto.coordinationId.Some? && actor.role == COORDINADOR then Forbidden
                            else if dto.coordinationId.Some? && dto.coordinationId.value !in catalog.active then NotFound
                            else BadRequest)
    {
      var situation := row;
      if dto.coordinationId.Some? {
        if actor.role == COORDINADOR {
          return Err(Forbidden);
        }
        if dto.coordinationId.value !in catalog.active {
          return Err(NotFound);
        }
        situation := situation.(coordinationId := dto.coordinationId);
        if situation.reportKind == INTERNAL {
          situation := situation.(affectedCoordinationId := dto.coordinationId);
        }
      }
      if dto.title.Some? {
        situation := situation.(title := Trim(dto.title.value));
      }
      if dto.description.Some? {
        situation := situation.(description := Trim(dto.description.value));
      }
      if dto.occurredAt.Some? {
        if dto.occurredAt.value.None? || dto.occurredAt.value.value > endOfToday {
          return Err(BadRequest);
        }
        situation := situation.(occurredAt := dto.occurredAt.value.value);
      }
      return Ok(situation);
    }

    method Update(dto: UpdateDto, actor: Actor, catalog: Catalog, endOfToday: int, now: int) returns (r: Result<Case>)
      modifies this
      ensures r.Ok? ==>
                && EditedTo(old(row), dto, row) && MovedTo(old(row), dto, actor, row)
                && resolution == old(resolution) && consequences == old(consequences) && history == old(history)
                && timeline == old(timeline) +
                   (if row.status == old(row.status) then [] else [StatusChanged(old(row.status), row.status)])
      ensures r == Patch(old(View()), dto, actor, catalog, endOfToday)
      ensures View() == if r.Ok? then r.value else old(View())
    {
      if dto.status == Some(IN_PROGRESS) && row.status == OPEN {
        if !CanAdvance(actor, row, catalog.general) {
          return Err(Forbidden);
        }
      } else {
        var refused := CheckUpdate(actor, row);
        if refused.Some? {
          return Err(refused.value);
        }
      }
      if dto.status == Some(CLOSED) {
        return Err(Forbidden);
      }
      if row.status == CLOSED && dto.status.Some? {
        return Err(BadRequest);
      }
      var fields := EditFields(row, dto, actor, catalog, endOfToday);
      if fields.Err? {
        return Err(fields.error);
      }
      var situation := fields.value;
      var previous := situation.status;
      if dto.status.Some? && dto.status.value != previous {
        if dto.status.value !in NextStatuses(previous) {
          return Err(BadRequest);
        }
        var moved := ApplyStatusTransition(
          situation, dto.status.value, CommentOf(dto.statusComment), actor.sub, catalog.users, now);
        if moved.Err? {
          return Err(moved.error);
        }
        situation := moved.value;
      } else if dto.statusComment.Some? {
        situation := situation.(lastStatusComment := Some(Trim(dto.statusComment.value)));
      }
      assert situation == Patched(row, dto, actor);
      PatchedColumns(row, dto, actor);
      row := situation;
      if situation.status != previous {
        timeline := timeline + [StatusChanged(previous, situation.status)];
      }
      assert timeline == old(timeline) + if situation.status != previous then [StatusChanged(previous, situation.status)] else [];
      return Ok(View());
    }

    method ResolveSituation(learning: string, actor: Actor, general: Option<string>, now: int) returns (r: Result<Case>)
      modifies this
      ensures r.Ok? ==> ResolvedInto(old(View()), View(), learning, actor, now)
      ensures r == Resolve(old(View()), learning, actor, general, now)
      ensures View() == if r.Ok? then r.value else old(View())
    {
      var text := Trim(learning);
      if text == "" {
        return Err(BadRequest);
      }
      var situation := row;
      if !CanResolve(actor, situation, general) {
        return Err(Forbidden);
      }
      if situation.status !in RESOLVABLE_STATUSES {
        return Err(Conflict);
      }
      var before := situation.status;
      situation := situation.(status := CLOSED);
      situation := situation.(closedAt := Some(now));
      if situation.resolvedAt.None? {
        situation := situation.(resolvedAt := Some(now));
      }
      situation := situation.(lastStatusComment := None);
      if resolution.Some? {
        // Primary key violation: the transaction rolls back, the row included.
        return Err(Conflict);
      }
      row := situation;
      resolution := Some(Resolution(text, actor.sub));
      timeline := timeline + [Closed(before)];
      return Ok(View());
    }

    method AddSituationConsequence(description: string, occurredAt: Option<Option<int>>, actor: Actor, now: int)
      returns (r: Result<Case>)
      modifies this
      ensures r.Ok? ==> ConsequenceInto(old(View()), View(), description, occurredAt, actor, now)
      ensures r == AddConsequence(old(View()), description, occurredAt, actor, now)
      ensures View() == if r.Ok? then r.value else old(View())
    {
      var text := Trim(description);
      if text == "" {
        return Err(BadRequest);
      }
      if occurredAt.Some? && (occurredAt.value.None? || occurredAt.value.value > now) {
        return Err(BadRequest);
      }
      var when := OccurredAtOf(occurredAt, now);
      var readable := CheckReadable(actor, row);
      if readable.Some? {
        return Err(readable.value);
      }
      if row.reportKind != INTERNAL {
        return Err(BadRequest);
      }
      if row.status !in CONSEQUENCE_OPEN_STATUSES {
        return Err(Conflict);
      }
      if SITUATIONS_UPDATE !in actor.permissions || !IsConsequenceParticipant(actor, row) {
        return Err(Forbidden);
      }
      if when < row.occurredAt {
        return Err(BadRequest);
      }
      consequences := consequences + [Consequence(text, when, now, actor.sub)];
      timeline := timeline + [ConsequenceAdded(when)];
      return Ok(View());
    }
  }
}
