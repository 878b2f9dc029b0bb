/**
 * Every interleaving of PATCH, resolve and add-consequence on one situation.
 *
 * Resolve and add-consequence are transactions in steps: begin (a consequence
 * captures its instant here), lock the row, check and write, commit or roll back.
 * PATCH reads the row without a lock, decides on what it read, and later saves the
 * whole row; the save waits while a transaction holds the lock.
 */
module SituationRuns {
  import opened Common
  import opened Text
  import opened Situations

  datatype Request =
    | ResolveRequest(learning: string, actor: Actor)
    | ConsequenceRequest(description: string, occurredAt: Option<Option<int>>, actor: Actor, captured: int)

  datatype Transaction =
    | Waiting(request: Request)
    | Holding(request: Request, read: Case)
    | Written(request: Request, pending: Case)
    | Done(request: Request)
    | Rejected(request: Request, error: Failure)
    | RolledBack(request: Request)

  /**
   * `stored` is what other transactions can read; `lock` is the holder of the row
   * lock; `copies` are the cases that PATCH requests have read and not saved yet.
   */
  datatype World = World(
    stored: Case, transactions: map<nat, Transaction>, lock: Option<nat>, copies: map<nat, Case>, clock: int)

  datatype Event =
    | Tick(now: int)
    | ReadPatch(p: nat)
    | SavePatch(p: nat, dto: UpdateDto, actor: Actor, catalog: Catalog, endOfToday: int)
    | BeginResolve(id: nat, learning: string, actor: Actor)
    | BeginConsequence(id: nat, description: string, occurredAt: Option<Option<int>>, actor: Actor)
    | LockRow(id: nat)
    | CheckAndWrite(id: nat, general: Option<string>)
    | Commit(id: nat)
    | RollBack(id: nat)

  function Start(created: Case): World {
    World(created, map[], None, map[], created.row.createdAt)
  }

  /** What the transaction decides on the row it has locked. */
  function Decide(c: Case, request: Request, general: Option<string>, clock: int): Result<Case> {
    match request
    case ResolveRequest(learning, actor) => Resolve(c, learning, actor, general, clock)
    case ConsequenceRequest(description, occurredAt, actor, captured) =>
      AddConsequence(c, description, occurredAt, actor, captured)
  }

  /** The whole row is saved as it was read and patched, over whatever is stored by then. */
  function Saved(stored: Case, read: Situation, dto: UpdateDto, actor: Actor): Case {
    var row := Patched(read, dto, actor);
    stored.(
      row := row,
      timeline := stored.timeline + if row.status != read.status then [StatusChanged(read.status, row.status)] else [])
  }

  predicate Enabled(w: World, e: Event) {
    match e
    case Tick(now) => w.clock <= now
    case ReadPatch(p) => p !in w.copies
    case SavePatch(p, _, _, _, _) => p in w.copies && w.lock.None?
    case BeginResolve(id, learning, _) => id !in w.transactions && Trim(learning) != ""
    case BeginConsequence(id, description, occurredAt, _) =>
      id !in w.transactions && CheckConsequenceInput(description, occurredAt, w.clock).None?
    case LockRow(id) => id in w.transactions && w.transactions[id].Waiting? && w.lock.None?
    case CheckAndWrite(id, _) => id in w.transactions && w.transactions[id].Holding?
    case Commit(id) => id in w.transactions && w.transactions[id].Written?
    case RollBack(id) =>
      id in w.transactions &&
      (w.transactions[id].Waiting? || w.transactions[id].Holding? || w.transactions[id].Written?)
  }

  function Apply(w: World, e: Event): World
    requires Enabled(w, e)
  {
    match e
    case Tick(now) => w.(clock := now)
    case ReadPatch(p) => w.(copies := w.copies[p := w.stored])
    case SavePatch(p, dto, actor, catalog, endOfToday) =>
      var read := w.copies[p].row;
      if CheckPatch(read, dto, actor, catalog, endOfToday).Some? then w.(copies := w.copies - {p})
      else w.(stored := Saved(w.stored, read, dto, actor), copies := w.copies - {p})
    case BeginResolve(id, learning, actor) =>
      w.(transactions := w.transactions[id := Waiting(ResolveRequest(learning, actor))])
    case BeginConsequence(id, description, occurredAt, actor) =>
      w.(transactions := w.transactions[id := Waiting(ConsequenceRequest(description, occurredAt, actor, w.clock))])
    case LockRow(id) =>
      w.(transactions := w.transactions[id := Holding(w.transactions[id].request, w.stored)], lock := Some(id))
    case CheckAndWrite(id, general) =>
      var t := w.transactions[id];
      var r := Decide(t.read, t.request, general, w.clock);
      if r.Ok? then w.(transactions := w.transactions[id := Written(t.request, r.value)])
      else w.(transactions := w.transactions[id := Rejected(t.request, r.error)], lock := None)
    case Commit(id) =>
      var t := w.transactions[id];
      w.(stored := t.pending, transactions := w.transactions[id := Done(t.request)], lock := None)
    case RollBack(id) =>
      w.(transactions := w.transactions[id := RolledBack(w.transactions[id].request)],
         lock := if w.lock == Some(id) then None else w.lock)
  }

  function Run(created: Case, es: seq<Event>): Option<World> {
    if es == [] then Some(Start(created))
    else
      var before := Run(created, es[..|es| - 1]);
      if before.Some? && Enabled(before.value, es[|es| - 1])
      then Some(Apply(before.value, es[|es| - 1]))
      else None
  }

  predicate Feasible(created: Case, es: seq<Event>) {
    Run(created, es).Some?
  }

  function After(created: Case, es: seq<Event>): World
    requires Feasible(created, es)
  {
    Run(created, es).value
  }

  /** The case a request was given by `create`: sound and not yet closed. */
  ghost predicate Fresh(created: Case) {
    Sound(created, created.row.createdAt) && created.row.status != CLOSED
  }

  // ----- saves that go back

  /** The accepted PATCH would store a status behind the stored one. */
  predicate GoesBack(w: World, e: Event)
    requires Enabled(w, e) && e.SavePatch?
  {
    var read := w.copies[e.p].row;
    && CheckPatch(read, e.dto, e.actor, e.catalog, e.endOfToday).None?
    && StatusRank(Patched(read, e.dto, e.actor).status) < StatusRank(w.stored.row.status)
  }

  /** A feasible run in which no PATCH stores a status behind the stored one. */
  predicate Guarded(created: Case, es: seq<Event>) {
    Feasible(created, es) &&
    (es == [] ||
     var n := |es| - 1;
     Guarded(created, es[..n]) && (es[n].SavePatch? ==> !GoesBack(After(created, es[..n]), es[n])))
  }

  /** A PATCH saved before anything else happens is the one-step PATCH, and never goes back. */
  lemma PromptPatch(w: World, p: nat, dto: UpdateDto, actor: Actor, catalog: Catalog, endOfToday: int)
    requires p !in w.copies && w.lock.None?
    ensures var e := SavePatch(p, dto, actor, catalog, endOfToday);
            var after := Apply(w, ReadPatch(p));
            && Enabled(after, e) && !GoesBack(after, e)
            && Apply(after, e).stored ==
               var r := Patch(w.stored, dto, actor, catalog, endOfToday); if r.Ok? then r.value else w.stored
  {
    if CheckPatch(w.stored.row, dto, actor, catalog, endOfToday).None? {
      PatchedRow(w.stored.row, dto, actor, catalog, endOfToday);
    }
  }

  // ----- the invariant

  predicate Active(t: Transaction) {
    t.Holding? || t.Written?
  }

  ghost predicate OneHolder(w: World) {
    && (forall id | id in w.transactions && Active(w.transactions[id]) :: w.lock == Some(id))
    && (w.lock.Some? ==> w.lock.value in w.transactions && Active(w.transactions[w.lock.value]))
  }

  /** What a written but uncommitted transaction is about to do to the stored case. */
  ghost predicate Effect(c: Case, request: Request, after: Case) {
    && Evolves(c, after)
    && match request
       case ResolveRequest(learning, actor) =>
         && c.row.status != CLOSED && after.row.closedAt.Some?
         && ResolvedInto(c, after, learning, actor, after.row.closedAt.value)
       case ConsequenceRequest(description, occurredAt, actor, captured) =>
         c.row.status != CLOSED && ConsequenceInto(c, after, description, occurredAt, actor, captured)
  }

  /** A stored consequence is the one a request asked for. */
  ghost predicate AnswersTo(q: Consequence, request: Request)
    requires request.ConsequenceRequest?
  {
    && q.description == Trim(request.description)
    && DatedAs(request.occurredAt, request.captured, q.occurredAt)
    && q.occurredAt <= request.captured
    && q.createdAt == request.captured
    && q.createdByUserId == request.actor.sub
  }

  ghost predicate TransactionOk(stored: Case, clock: int, t: Transaction) {
    && (t.request.ConsequenceRequest? ==> stored.row.createdAt <= t.request.captured <= clock)
    && (t.Holding? ==> t.read == stored)
    && (t.Written? ==> Sound(t.pending, clock) && Effect(stored, t.request, t.pending))
    && (t.Done? && t.request.ResolveRequest? ==>
         stored.resolution == Some(Resolution(Trim(t.request.learning), t.request.actor.sub)))
    && (t.Done? && t.request.ConsequenceRequest? ==>
         exists q :: q in stored.consequences && AnswersTo(q, t.request))
  }

  predicate Resolved(w: World, id: nat) {
    id in w.transactions && w.transactions[id].Done? && w.transactions[id].request.ResolveRequest?
  }

  ghost predicate OneResolution(w: World) {
    && (forall x, y | Resolved(w, x) && Resolved(w, y) :: x == y)
    && (w.stored.row.status == CLOSED <==> exists x :: Resolved(w, x))
  }

  ghost predicate Inv(w: World) {
    && Sound(w.stored, w.clock)
    && OneHolder(w)
    && (forall id | id in w.transactions :: TransactionOk(w.stored, w.clock, w.transactions[id]))
    && OneResolution(w)
    && CopiesBehind(w)
  }

  /** What PATCH requests have read is an earlier stage of the stored case. */
  ghost predicate CopiesBehind(w: World) {
    forall p | p in w.copies :: Sound(w.copies[p], w.clock) && Evolves(w.copies[p], w.stored)
  }

  lemma CopiesStayBehind(w: World, stored: Case)
    requires CopiesBehind(w) && Evolves(w.stored, stored)
    ensures forall p | p in w.copies :: Sound(w.copies[p], w.clock) && Evolves(w.copies[p], stored)
  {
    forall p | p in w.copies ensures Evolves(w.copies[p], stored) {
      EvolvesTransitive(w.copies[p], w.stored, stored);
    }
  }

  lemma SoundLater(c: Case, now: int, later: int)
    requires Sound(c, now) && now <= later
    ensures Sound(c, later)
  {
  }

  lemma DecisionHasEffect(c: Case, request: Request, general: Option<string>, clock: int)
    requires Sound(c, clock)
    requires request.ConsequenceRequest? ==> c.row.createdAt <= request.captured <= clock
    requires Decide(c, request, general, clock).Ok?
    ensures Sound(Decide(c, request, general, clock).value, clock)
    ensures Effect(c, request, Decide(c, request, general, clock).value)
  {
    match request
    case ResolveRequest(learning, actor) =>
      ResolveKeepsSound(c, learning, actor, general, clock);
      ResolveOutcome(c, learning, actor, general, clock);
    case ConsequenceRequest(description, occurredAt, actor, captured) =>
      ConsequenceOutcome(c, description, occurredAt, actor, captured);
      AddConsequenceKeepsSound(c, description, occurredAt, actor, captured, clock);
  }

  lemma TickKeepsInv(w: World, e: Event)
    requires Inv(w) && Enabled(w, e) && e.Tick?
    ensures Inv(Apply(w, e))
  {
    var after := Apply(w, e);
    SoundLater(w.stored, w.clock, e.now);
    forall id | id in after.transactions ensures TransactionOk(after.stored, after.clock, after.transactions[id]) {
      assert TransactionOk(w.stored, w.clock, w.transactions[id]);
      if after.transactions[id].Written? {
        SoundLater(after.transactions[id].pending, w.clock, e.now);
      }
    }
    assert forall x :: Resolved(after, x) <==> Resolved(w, x);
  }

  /** A PATCH announces no close and no consequence. */
  lemma SavedTimeline(stored: Case, read: Situation, dto: UpdateDto, actor: Actor)
    requires Patched(read, dto, actor).status == read.status || Patched(read, dto, actor).status == IN_PROGRESS
    ensures var saved := Saved(stored, read, dto, actor);
            && ClosedEntries(saved.timeline) == ClosedEntries(stored.timeline)
            && ConsequenceEntries(saved.timeline) == ConsequenceEntries(stored.timeline)
            && stored.timeline <= saved.timeline
            && (saved.row.status == read.status ==> saved.timeline == stored.timeline)
            && (saved.row.status != read.status ==>
                  saved.timeline == stored.timeline + [StatusChanged(read.status, saved.row.status)])
  {
    var row := Patched(read, dto, actor);
    if row.status != read.status {
      EntryCounts(stored.timeline, StatusChanged(read.status, row.status));
    } else {
      assert stored.timeline + [] == stored.timeline;
    }
  }

  /** Any row of the same identity and of an open or the read status, saved over a later stage. */
  lemma RowSavedIff(read: Case, stored: Case, saved: Case, now: int)
    requires Sound(read, now) && Sound(stored, now) && Evolves(read, stored)
    requires saved == stored.(row := saved.row, timeline := saved.timeline)
    requires ClosedEntries(saved.timeline) == ClosedEntries(stored.timeline)
    requires ConsequenceEntries(saved.timeline) == ConsequenceEntries(stored.timeline)
    requires SameIdentity(read.row, saved.row) && AreasAgree(read.(row := saved.row))
    requires saved.row.status == read.row.status || (read.row.status == OPEN && saved.row.status == IN_PROGRESS)
    requires saved.row.status == IN_PROGRESS ==> saved.row.assignedUserId.Some?
    ensures Sound(saved, now) <==> (stored.row.status == CLOSED ==> read.row.status == CLOSED)
  {
  }

  /** Saving the patched copy over a later stage is sound exactly when the case was not closed in between. */
  lemma SavedSoundIff(
    read: Case, stored: Case, dto: UpdateDto, actor: Actor, catalog: Catalog, endOfToday: int, now: int)
    requires Sound(read, now) && Sound(stored, now) && Evolves(read, stored)
    requires CheckPatch(read.row, dto, actor, catalog, endOfToday).None?
    ensures var saved := Saved(stored, read.row, dto, actor);
            && (Sound(saved, now) <==> (stored.row.status == CLOSED ==> read.row.status == CLOSED))
            && (saved.row.status == CLOSED <==> read.row.status == CLOSED)
            && stored.timeline <= saved.timeline && SameIdentity(read.row, saved.row)
  {
    PatchedRow(read.row, dto, actor, catalog, endOfToday);
    SavedTimeline(stored, read.row, dto, actor);
    RowSavedIff(read, stored, Saved(stored, read.row, dto, actor), now);
  }

  /** It is sound and a step forward exactly when the status does not go back. */
  lemma SavedForwardIff(
    read: Case, stored: Case, dto: UpdateDto, actor: Actor, catalog: Catalog, endOfToday: int, now: int)
    requires Sound(read, now) && Sound(stored, now) && Evolves(read, stored)
    requires CheckPatch(read.row, dto, actor, catalog, endOfToday).None?
    ensures var saved := Saved(stored, read.row, dto, actor);
            Sound(saved, now) && Evolves(stored, saved) <==>
            StatusRank(stored.row.status) <= StatusRank(saved.row.status)
  {
    SavedSoundIff(read, stored, dto, actor, catalog, endOfToday, now);
  }

  lemma SaveKeepsInv(w: World, e: Event)
    requires Inv(w) && Enabled(w, e) && e.SavePatch? && !GoesBack(w, e)
    ensures Inv(Apply(w, e)) && Evolves(w.stored, Apply(w, e).stored)
  {
    var after, read := Apply(w, e), w.copies[e.p];
    if CheckPatch(read.row, e.dto, e.actor, e.catalog, e.endOfToday).None? {
      SavedSoundIff(read, w.stored, e.dto, e.actor, e.catalog, e.endOfToday, w.clock);
      SavedForwardIff(read, w.stored, e.dto, e.actor, e.catalog, e.endOfToday, w.clock);
    }
    CopiesStayBehind(w, after.stored);
    forall id | id in after.transactions ensures TransactionOk(after.stored, after.clock, after.transactions[id]) {
      assert TransactionOk(w.stored, w.clock, w.transactions[id]);
      assert !Active(w.transactions[id]);
    }
    assert forall x :: Resolved(after, x) <==> Resolved(w, x);
  }

  lemma ReadKeepsInv(w: World, e: Event)
    requires Inv(w) && Enabled(w, e) && e.ReadPatch?
    ensures Inv(Apply(w, e))
  {
    var after := Apply(w, e);
    forall id | id in after.transactions ensures TransactionOk(after.stored, after.clock, after.transactions[id]) {
      assert TransactionOk(w.stored, w.clock, w.transactions[id]);
    }
    assert forall x :: Resolved(after, x) <==> Resolved(w, x);
  }

  lemma BeginKeepsInv(w: World, e: Event)
    requires Inv(w) && Enabled(w, e) && (e.BeginResolve? || e.BeginConsequence?)
    ensures Inv(Apply(w, e))
  {
    var after := Apply(w, e);
    forall id | id in after.transactions ensures TransactionOk(after.stored, after.clock, after.transactions[id]) {
      if id != e.id {
        assert TransactionOk(w.stored, w.clock, w.transactions[id]);
      }
    }
    assert forall x :: Resolved(after, x) <==> Resolved(w, x);
  }

  lemma LockKeepsInv(w: World, e: Event)
    requires Inv(w) && Enabled(w, e) && e.LockRow?
    ensures Inv(Apply(w, e))
  {
    var after := Apply(w, e);
    forall id | id in after.transactions ensures TransactionOk(after.stored, after.clock, after.transactions[id]) {
      assert TransactionOk(w.stored, w.clock, w.transactions[id]);
    }
    assert forall x :: Resolved(after, x) <==> Resolved(w, x);
  }

  lemma RollBackKeepsInv(w: World, e: Event)
    requires Inv(w) && Enabled(w, e) && e.RollBack?
    ensures Inv(Apply(w, e))
  {
    var after := Apply(w, e);
    forall id | id in after.transactions ensures TransactionOk(after.stored, after.clock, after.transactions[id]) {
      assert TransactionOk(w.stored, w.clock, w.transactions[id]);
    }
    assert forall x :: Resolved(after, x) <==> Resolved(w, x);
  }

  lemma WriteKeepsInv(w: World, e: Event)
    requires Inv(w) && Enabled(w, e) && e.CheckAndWrite?
    ensures Inv(Apply(w, e))
  {
    var after := Apply(w, e);
    var t := w.transactions[e.id];
    assert TransactionOk(w.stored, w.clock, t);
    if Decide(t.read, t.request, e.general, w.clock).Ok? {
      DecisionHasEffect(w.stored, t.request, e.general, w.clock);
    }
    forall id | id in after.transactions ensures TransactionOk(after.stored, after.clock, after.transactions[id]) {
      assert TransactionOk(w.stored, w.clock, w.transactions[id]);
    }
    assert forall x :: Resolved(after, x) <==> Resolved(w, x);
  }

  lemma CommitKeepsTransactions(w: World, e: Event)
    requires Inv(w) && Enabled(w, e) && e.Commit?
    ensures forall id | id in Apply(w, e).transactions :: TransactionOk(Apply(w, e).stored, Apply(w, e).clock, Apply(w, e).transactions[id])
    ensures OneHolder(Apply(w, e)) && Sound(Apply(w, e).stored, w.clock) && Evolves(w.stored, Apply(w, e).stored)
  {
    var after := Apply(w, e);
    assert TransactionOk(w.stored, w.clock, w.transactions[e.id]);
    assert Active(w.transactions[e.id]);
    assert forall id | id in w.transactions && id != e.id :: !Active(w.transactions[id]);
    assert forall q | q in w.stored.consequences :: q in after.stored.consequences;
    if w.transactions[e.id].request.ConsequenceRequest? {
      OwnConsequence(w.stored, w.transactions[e.id].request, after.stored);
    }
    forall id | id in after.transactions ensures TransactionOk(after.stored, after.clock, after.transactions[id]) {
      assert TransactionOk(w.stored, w.clock, w.transactions[id]);
    }
  }

  lemma OwnConsequence(c: Case, request: Request, after: Case)
    requires request.ConsequenceRequest? && Effect(c, request, after)
    ensures exists q :: q in after.consequences && AnswersTo(q, request)
  {
    assert AnswersTo(after.consequences[|c.consequences|], request);
  }

  lemma CommitKeepsOneResolution(w: World, e: Event)
    requires OneResolution(w) && Enabled(w, e) && e.Commit?
    requires Effect(w.stored, w.transactions[e.id].request, w.transactions[e.id].pending)
    ensures OneResolution(Apply(w, e))
  {
    var after := Apply(w, e);
    if w.transactions[e.id].request.ResolveRequest? {
      assert Resolved(after, e.id);
      forall x | Resolved(after, x) ensures x == e.id {
        assert !Resolved(w, x);
      }
    } else {
      assert forall x :: Resolved(after, x) <==> Resolved(w, x);
    }
  }

  lemma CommitKeepsInv(w: World, e: Event)
    requires Inv(w) && Enabled(w, e) && e.Commit?
    ensures Inv(Apply(w, e)) && Evolves(w.stored, Apply(w, e).stored)
  {
    CommitKeepsTransactions(w, e);
    assert TransactionOk(w.stored, w.clock, w.transactions[e.id]);
    CommitKeepsOneResolution(w, e);
    CopiesStayBehind(w, Apply(w, e).stored);
  }

  lemma StepKeepsInv(w: World, e: Event)
    requires Inv(w) && Enabled(w, e) && (e.SavePatch? ==> !GoesBack(w, e))
    ensures Inv(Apply(w, e)) && Evolves(w.stored, Apply(w, e).stored)
  {
    match e
    case Tick(_) => TickKeepsInv(w, e);
    case SavePatch(_, _, _, _, _) => SaveKeepsInv(w, e);
    case CheckAndWrite(_, _) => WriteKeepsInv(w, e);
    case Commit(_) => CommitKeepsInv(w, e);
    case ReadPatch(_) => ReadKeepsInv(w, e);
    case LockRow(_) => LockKeepsInv(w, e);
    case RollBack(_) => RollBackKeepsInv(w, e);
    case _ => BeginKeepsInv(w, e);
  }

  lemma {:induction false} RunKeepsInv(created: Case, es: seq<Event>)
    requires Fresh(created) && Guarded(created, es)
    ensures Inv(After(created, es))
  {
    if es == [] {
    } else {
      RunKeepsInv(created, es[..|es| - 1]);
      StepKeepsInv(After(created, es[..|es| - 1]), es[|es| - 1]);
    }
  }

  // ----- main results

  /**
   * LIFECYCLE. Every run from a created case keeps it sound: the status is OPEN,
   * IN_PROGRESS or CLOSED; CLOSED, closedAt and the resolution come together;
   * createdAt <= closedAt = resolvedAt; the due date is the original promise;
   * INTERNAL keeps affected = responsible; INTER has no consequences; and each
   * consequence was dated before the close although it was dated before the lock.
   */
  lemma LifecycleIsSound(dto: CreateDto, actor: Actor, catalog: Catalog, clock: Clock, es: seq<Event>)
    requires Create(dto, actor, catalog, clock).Ok?
    requires Guarded(Create(dto, actor, catalog, clock).value, es)
    ensures var w := After(Create(dto, actor, catalog, clock).value, es); Sound(w.stored, w.clock)
  {
    CreateIsSound(dto, actor, catalog, clock);
    RunKeepsInv(Create(dto, actor, catalog, clock).value, es);
  }

  /**
   * EVOLUTION. Between any two points of a run the case only moves forward:
   * closing freezes status, dates, consequences and learning for good.
   */
  lemma {:induction false} CaseOnlyMovesForward(created: Case, es: seq<Event>, i: nat)
    requires Fresh(created) && Guarded(created, es) && i <= |es|
    ensures Feasible(created, es[..i])
    ensures Evolves(After(created, es[..i]).stored, After(created, es).stored)
    decreases |es|
  {
    if i == |es| {
      assert es[..i] == es;
    } else {
      var n := |es| - 1;
      assert es[..n][..i] == es[..i];
      CaseOnlyMovesForward(created, es[..n], i);
      RunKeepsInv(created, es[..n]);
      StepKeepsInv(After(created, es[..n]), es[n]);
      EvolvesTransitive(After(created, es[..i]).stored, After(created, es[..n]).stored, After(created, es).stored);
    }
  }

  /**
   * ONE RESOLUTION. However many resolutions compete, at most one commits; the
   * case is closed exactly when one has, with that request's learning and author.
   */
  lemma AtMostOneResolution(created: Case, es: seq<Event>, x: nat, y: nat)
    requires Fresh(created) && Guarded(created, es)
    ensures var w := After(created, es);
            && (Resolved(w, x) && Resolved(w, y) ==> x == y)
            && (w.stored.row.status == CLOSED <==> exists z :: Resolved(w, z))
            && (Resolved(w, x) ==>
                 var request := w.transactions[x].request;
                 w.stored.resolution == Some(Resolution(Trim(request.learning), request.actor.sub)))
  {
    RunKeepsInv(created, es);
    var w := After(created, es);
    if Resolved(w, x) {
      assert TransactionOk(w.stored, w.clock, w.transactions[x]);
    }
  }

  /**
   * NO LOST UPDATE. What a transaction decided under the lock it decides again on
   * the row as it is when it commits: nothing slipped in between.
   */
  lemma DecidedOnTheStoredCase(created: Case, es: seq<Event>, id: nat, general: Option<string>)
    requires Fresh(created) && Guarded(created, es + [CheckAndWrite(id, general)])
    ensures Feasible(created, es)
    ensures var w, v := After(created, es), After(created, es + [CheckAndWrite(id, general)]);
            var t := w.transactions[id];
            && t.read == w.stored
            && (v.transactions[id].Written? ==>
                 Decide(w.stored, t.request, general, w.clock) == Ok(v.transactions[id].pending))
            && (w.stored.row.status == CLOSED ==> v.transactions[id].Rejected?)
  {
    assert (es + [CheckAndWrite(id, general)])[..|es|] == es;
    RunKeepsInv(created, es);
    var w := After(created, es);
    assert TransactionOk(w.stored, w.clock, w.transactions[id]);
  }

  /**
   * Every accepted consequence is stored as asked: its text, its given date (or the
   * captured instant), its author; it is on the timeline with the same date, and
   * was captured no later than the close.
   */
  lemma AcceptedConsequenceIsStored(created: Case, es: seq<Event>, id: nat)
    requires Fresh(created) && Guarded(created, es)
    requires id in After(created, es).transactions && After(created, es).transactions[id].Done?
    requires After(created, es).transactions[id].request.ConsequenceRequest?
    ensures var w := After(created, es);
            var request := w.transactions[id].request;
            && (exists q :: q in w.stored.consequences && AnswersTo(q, request)
                            && ConsequenceAdded(q.occurredAt) in w.stored.timeline)
            && (w.stored.row.closedAt.Some? ==> request.captured <= w.stored.row.closedAt.value)
  {
    RunKeepsInv(created, es);
    var w := After(created, es);
    assert TransactionOk(w.stored, w.clock, w.transactions[id]);
    var q :| q in w.stored.consequences && AnswersTo(q, w.transactions[id].request);
    var k :| 0 <= k < |w.stored.consequences| && w.stored.consequences[k] == q;
    assert OccurrenceTimes(w.stored.consequences)[k] == q.occurredAt;
    EntryOfTime(w.stored.timeline, q.occurredAt);
  }

  lemma {:induction false} EntryOfTime(timeline: seq<Entry>, when: int)
    requires when in ConsequenceEntries(timeline)
    ensures ConsequenceAdded(when) in timeline
  {
    var n := |timeline| - 1;
    if timeline[n] == ConsequenceAdded(when) {
    } else {
      EntryOfTime(timeline[..n], when);
    }
  }

  /** A consequence is checked before its transaction begins: a text that is not blank, a date that is one and not in the future. */
  lemma BeginChecksInput(w: World, id: nat, description: string, occurredAt: Option<Option<int>>, actor: Actor)
    requires id !in w.transactions
    ensures Enabled(w, BeginConsequence(id, description, occurredAt, actor)) <==>
            !Blank(description) && exists when :: DatedAs(occurredAt, w.clock, when) && when <= w.clock
    ensures forall learning :: Enabled(w, BeginResolve(id, learning, actor)) <==> !Blank(learning)
  {
    TrimEmptyIffBlank(description);
    forall learning ensures Enabled(w, BeginResolve(id, learning, actor)) <==> !Blank(learning) {
      TrimEmptyIffBlank(learning);
    }
    if occurredAt.None? {
      assert DatedAs(occurredAt, w.clock, w.clock);
    } else if occurredAt.value.Some? {
      assert DatedAs(occurredAt, w.clock, occurredAt.value.value);
    }
  }

  /** A request stays what it was when its transaction began; a consequence captured the clock of that moment. */
  lemma {:induction false} RequestIsWhatBegan(created: Case, es: seq<Event>, k: nat)
    requires Feasible(created, es) && k < |es| && (es[k].BeginResolve? || es[k].BeginConsequence?)
    ensures Feasible(created, es[..k]) && es[k].id in After(created, es).transactions
    ensures var request := After(created, es).transactions[es[k].id].request;
            match es[k]
            case BeginResolve(_, learning, actor) => request == ResolveRequest(learning, actor)
            case BeginConsequence(_, description, occurredAt, actor) =>
              request == ConsequenceRequest(description, occurredAt, actor, After(created, es[..k]).clock)
            case _ => false
  {
    var n := |es| - 1;
    if k == n {
    } else {
      assert es[..n][k] == es[k] && es[..n][..k] == es[..k];
      RequestIsWhatBegan(created, es[..n], k);
      RequestStays(After(created, es[..n]), es[n], es[k].id);
    }
  }

  lemma RequestStays(w: World, e: Event, id: nat)
    requires Enabled(w, e) && id in w.transactions
    ensures id in Apply(w, e).transactions && Apply(w, e).transactions[id].request == w.transactions[id].request
  {
  }

  /** Where a decided resolution has got: still pending with that instant, committed with it, or given up. */
  ghost predicate ClosingAt(w: World, id: nat, instant: int) {
    && id in w.transactions && w.transactions[id].request.ResolveRequest?
    && match w.transactions[id]
       case Written(_, pending) => pending.row.closedAt == Some(instant)
       case Done(_) => w.stored.row.status == CLOSED && w.stored.row.closedAt == Some(instant)
       case RolledBack(_) => true
       case Rejected(_, _) => true
       case _ => false
  }

  lemma ClosingUntouched(w: World, after: World, id: nat, instant: int)
    requires ClosingAt(w, id, instant) && Evolves(w.stored, after.stored)
    requires id in after.transactions && after.transactions[id] == w.transactions[id]
    ensures ClosingAt(after, id, instant)
  {
  }

  /** Only its own commit and rollback touch a decided transaction. */
  lemma DecidedStays(w: World, e: Event, id: nat, instant: int)
    requires Enabled(w, e) && ClosingAt(w, id, instant)
    requires !((e.Commit? || e.RollBack?) && e.id == id)
    ensures id in Apply(w, e).transactions && Apply(w, e).transactions[id] == w.transactions[id]
  {
  }

  lemma StepKeepsClosing(w: World, e: Event, id: nat, instant: int)
    requires Inv(w) && Enabled(w, e) && (e.SavePatch? ==> !GoesBack(w, e)) && ClosingAt(w, id, instant)
    ensures ClosingAt(Apply(w, e), id, instant)
  {
    if e == Commit(id) {
      assert TransactionOk(w.stored, w.clock, w.transactions[id]);
      ClosingCommitted(w, e, instant);
    } else if e == RollBack(id) {
    } else {
      DecidedStays(w, e, id, instant);
      StepKeepsInv(w, e);
      ClosingUntouched(w, Apply(w, e), id, instant);
    }
  }

  lemma ClosingCommitted(w: World, e: Event, instant: int)
    requires Enabled(w, e) && e.Commit? && ClosingAt(w, e.id, instant)
    requires Effect(w.stored, w.transactions[e.id].request, w.transactions[e.id].pending)
    ensures ClosingAt(Apply(w, e), e.id, instant)
  {
  }

  /** CLOSING INSTANT. A case is closed at the clock of the step that decided its resolution under the lock. */
  lemma {:induction false} ClosedWhenDecided(created: Case, es: seq<Event>, k: nat)
    requires Fresh(created) && Guarded(created, es) && k < |es| && es[k].CheckAndWrite?
    requires Resolved(After(created, es), es[k].id)
    ensures Feasible(created, es[..k]) && After(created, es).stored.row.closedAt == Some(After(created, es[..k]).clock)
  {
    ClosingSince(created, es, k);
  }

  lemma {:induction false} ClosingSince(created: Case, es: seq<Event>, k: nat)
    requires Fresh(created) && Guarded(created, es) && k < |es| && es[k].CheckAndWrite?
    requires es[k].id in After(created, es).transactions && After(created, es).transactions[es[k].id].request.ResolveRequest?
    ensures Feasible(created, es[..k]) && ClosingAt(After(created, es), es[k].id, After(created, es[..k]).clock)
  {
    var n := |es| - 1;
    RunKeepsInv(created, es[..n]);
    var w := After(created, es[..n]);
    if k == n {
      assert TransactionOk(w.stored, w.clock, w.transactions[es[k].id]);
      var t := w.transactions[es[k].id];
      ResolveOutcome(t.read, t.request.learning, t.request.actor, es[k].general, w.clock);
    } else {
      assert es[..n][k] == es[k] && es[..n][..k] == es[..k];
      KnownTransaction(created, es[..n], k);
      RequestStays(w, es[n], es[k].id);
      ClosingSince(created, es[..n], k);
      StepKeepsClosing(w, es[n], es[k].id, After(created, es[..k]).clock);
    }
  }

  lemma {:induction false} KnownTransaction(created: Case, es: seq<Event>, k: nat)
    requires Feasible(created, es) && k < |es| && es[k].CheckAndWrite?
    ensures es[k].id in After(created, es).transactions
  {
    var n := |es| - 1;
    if k == n {
    } else {
      assert es[..n][k] == es[k];
      KnownTransaction(created, es[..n], k);
      RequestStays(After(created, es[..n]), es[n], es[k].id);
    }
  }

  // ----- PATCH saved late

  /**
   * A LATE SAVE, EXACTLY. What an accepted PATCH saves is sound and a step forward
   * exactly when its status is not behind the stored one; it is sound at all
   * exactly when the case was not closed between the read and the save.
   */
  lemma StalePatchIsSoundIff(
    created: Case, es: seq<Event>, p: nat, dto: UpdateDto, actor: Actor, catalog: Catalog, endOfToday: int)
    requires Fresh(created) && Guarded(created, es)
    requires Enabled(After(created, es), SavePatch(p, dto, actor, catalog, endOfToday))
    requires CheckPatch(After(created, es).copies[p].row, dto, actor, catalog, endOfToday).None?
    ensures var w, e := After(created, es), SavePatch(p, dto, actor, catalog, endOfToday);
            var saved := Apply(w, e).stored;
            && (Sound(saved, w.clock) && Evolves(w.stored, saved) <==> !GoesBack(w, e))
            && (Sound(saved, w.clock) <==> (w.stored.row.status == CLOSED ==> w.copies[p].row.status == CLOSED))
  {
    RunKeepsInv(created, es);
    var w := After(created, es);
    SavedSoundIff(w.copies[p], w.stored, dto, actor, catalog, endOfToday, w.clock);
    SavedForwardIff(w.copies[p], w.stored, dto, actor, catalog, endOfToday, w.clock);
  }

  /**
   * What an accepted PATCH saves, whenever it saves: every column of the copy it
   * read with its own changes, over whatever is stored; its entry tells the change
   * of status from the copy; resolution, consequences and history stay as stored.
   */
  lemma LateSaveColumns(w: World, p: nat, dto: UpdateDto, actor: Actor, catalog: Catalog, endOfToday: int)
    requires Enabled(w, SavePatch(p, dto, actor, catalog, endOfToday))
    ensures var read, saved := w.copies[p].row, Apply(w, SavePatch(p, dto, actor, catalog, endOfToday)).stored;
            if CheckPatch(read, dto, actor, catalog, endOfToday).Some? then saved == w.stored
            else
              && EditedTo(read, dto, saved.row) && MovedTo(read, dto, actor, saved.row)
              && saved.resolution == w.stored.resolution && saved.consequences == w.stored.consequences
              && saved.history == w.stored.history
              && (saved.row.status == read.status ==> saved.timeline == w.stored.timeline)
              && (saved.row.status != read.status ==>
                    saved.timeline == w.stored.timeline + [StatusChanged(read.status, saved.row.status)])
  {
    var read := w.copies[p].row;
    PatchedColumns(read, dto, actor);
    if CheckPatch(read, dto, actor, catalog, endOfToday).None? {
      PatchedRow(read, dto, actor, catalog, endOfToday);
      SavedTimeline(w.stored, read, dto, actor);
    }
  }

  lemma Extend(created: Case, es: seq<Event>, e: Event)
    requires Feasible(created, es)
    ensures Enabled(After(created, es), e) ==>
              Feasible(created, es + [e]) && After(created, es + [e]) == Apply(After(created, es), e)
  {
    assert (es + [e])[..|es|] == es;
  }

  /** A PATCH reads, and a resolution runs undisturbed before it saves. */
  function ReadThenResolve(learning: string, actor: Actor, general: Option<string>): seq<Event> {
    [ReadPatch(0), BeginResolve(0, learning, actor), LockRow(0), CheckAndWrite(0, general), Commit(0)]
  }

  lemma ReadThenResolveCloses(created: Case, learning: string, resolver: Actor, general: Option<string>)
    requires Fresh(created)
    requires Trim(learning) != "" && CanResolve(resolver, created.row, general)
    ensures var es := ReadThenResolve(learning, resolver, general);
            && Feasible(created, es)
            && After(created, es).stored == Resolve(created, learning, resolver, general, created.row.createdAt).value
            && After(created, es).copies == map[0 := created] && After(created, es).lock.None?
  {
    var es := ReadThenResolve(learning, resolver, general);
    assert es[..0] + [es[0]] == es[..1] && es[..1] + [es[1]] == es[..2] && es[..2] + [es[2]] == es[..3];
    assert es[..3] + [es[3]] == es[..4] && es[..4] + [es[4]] == es;
    Extend(created, es[..0], es[0]);
    Extend(created, es[..1], es[1]);
    Extend(created, es[..2], es[2]);
    Extend(created, es[..3], es[3]);
    Extend(created, es[..4], es[4]);
  }

  /**
   * On every fresh case: a PATCH that read the row before a resolution and saves
   * after it leaves a resolution without a close.
   */
  lemma StalePatchUndoesTheClose(
    created: Case, learning: string, resolver: Actor, general: Option<string>,
    dto: UpdateDto, editor: Actor, catalog: Catalog, endOfToday: int)
    requires Fresh(created)
    requires Trim(learning) != "" && CanResolve(resolver, created.row, general)
    requires CheckPatch(created.row, dto, editor, catalog, endOfToday).None?
    ensures var es := ReadThenResolve(learning, resolver, general);
            var e := SavePatch(0, dto, editor, catalog, endOfToday);
            && Feasible(created, es) && Feasible(created, es + [e])
            && After(created, es).stored.row.status == CLOSED
            && var saved := After(created, es + [e]).stored;
               saved.row.status != CLOSED && saved.resolution.Some? && !Sound(saved, created.row.createdAt)
  {
    var es := ReadThenResolve(learning, resolver, general);
    ReadThenResolveCloses(created, learning, resolver, general);
    Extend(created, es, SavePatch(0, dto, editor, catalog, endOfToday));
    PatchedRow(created.row, dto, editor, catalog, endOfToday);
  }

  /**
   * On every OPEN case: a PATCH without a status that read the row before another
   * PATCH advanced it takes the case back to OPEN. The case stays sound, but its
   * timeline keeps a change to IN_PROGRESS that the row denies.
   */
  lemma StalePatchTakesBackTheAdvance(
    created: Case, advance: UpdateDto, actor: Actor, dto: UpdateDto, editor: Actor, catalog: Catalog, endOfToday: int)
    requires Fresh(created) && created.row.status == OPEN
    requires advance.status == Some(IN_PROGRESS) && dto.status.None?
    requires CheckPatch(created.row, advance, actor, catalog, endOfToday).None?
    requires CheckPatch(created.row, dto, editor, catalog, endOfToday).None?
    ensures var es := AdvanceRun(advance, actor, catalog, endOfToday);
            var e := SavePatch(0, dto, editor, catalog, endOfToday);
            && Feasible(created, es) && Feasible(created, es + [e])
            && var stored, saved := After(created, es).stored, After(created, es + [e]).stored;
               && stored.row.status == IN_PROGRESS && saved.row.status == OPEN
               && saved.timeline == created.timeline + [StatusChanged(OPEN, IN_PROGRESS)]
               && Sound(saved, created.row.createdAt) && !Evolves(stored, saved)
  {
    AdvanceReaches(created, advance, actor, catalog, endOfToday);
    LateSave(created, AdvanceRun(advance, actor, catalog, endOfToday), dto, editor, catalog, endOfToday);
    PatchGoesBack(created, advance, actor, dto, editor, catalog, endOfToday);
  }

  /** Two PATCHes read, and the second saves. */
  function AdvanceRun(advance: UpdateDto, actor: Actor, catalog: Catalog, endOfToday: int): seq<Event> {
    [ReadPatch(0), ReadPatch(1), SavePatch(1, advance, actor, catalog, endOfToday)]
  }

  lemma LateSave(
    created: Case, es: seq<Event>, dto: UpdateDto, editor: Actor, catalog: Catalog, endOfToday: int)
    requires Feasible(created, es) && After(created, es).copies == map[0 := created] && After(created, es).lock.None?
    requires CheckPatch(created.row, dto, editor, catalog, endOfToday).None?
    ensures var e := SavePatch(0, dto, editor, catalog, endOfToday);
            && Feasible(created, es + [e])
            && After(created, es + [e]).stored == Saved(After(created, es).stored, created.row, dto, editor)
  {
    Extend(created, es, SavePatch(0, dto, editor, catalog, endOfToday));
  }

  lemma PatchGoesBack(
    created: Case, advance: UpdateDto, actor: Actor, dto: UpdateDto, editor: Actor, catalog: Catalog, endOfToday: int)
    requires Fresh(created) && created.row.status == OPEN
    requires advance.status == Some(IN_PROGRESS) && dto.status.None?
    requires CheckPatch(created.row, advance, actor, catalog, endOfToday).None?
    requires CheckPatch(created.row, dto, editor, catalog, endOfToday).None?
    ensures var stored := Patch(created, advance, actor, catalog, endOfToday).value;
            var saved := Saved(stored, created.row, dto, editor);
            && stored.row.status == IN_PROGRESS && saved.row.status == OPEN
            && saved.timeline == created.timeline + [StatusChanged(OPEN, IN_PROGRESS)]
            && Sound(saved, created.row.createdAt) && !Evolves(stored, saved)
  {
    var stored := Patch(created, advance, actor, catalog, endOfToday).value;
    PatchKeepsSound(created, advance, actor, catalog, endOfToday, created.row.createdAt);
    SavedSoundIff(created, stored, dto, editor, catalog, endOfToday, created.row.createdAt);
    SavedTimeline(stored, created.row, dto, editor);
  }

  lemma AdvanceReaches(created: Case, advance: UpdateDto, actor: Actor, catalog: Catalog, endOfToday: int)
    requires Patch(created, advance, actor, catalog, endOfToday).Ok?
    ensures var es := AdvanceRun(advance, actor, catalog, endOfToday);
            && Feasible(created, es)
            && After(created, es) == World(
                 Patch(created, advance, actor, catalog, endOfToday).value, map[], None, map[0 := created], created.row.createdAt)
  {
    var es := AdvanceRun(advance, actor, catalog, endOfToday);
    assert es[..0] + [es[0]] == es[..1] && es[..1] + [es[1]] == es[..2] && es[..2] + [es[2]] == es;
    Extend(created, es[..0], es[0]);
    Extend(created, es[..1], es[1]);
    Extend(created, es[..2], es[2]);
  }
}
