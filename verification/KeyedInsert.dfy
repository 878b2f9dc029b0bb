/**
 * Idempotent insertion: find by key, insert, and on a unique violation find again.
 *
 * Situation registration keys a row by (creator, Idempotency-Key) and compares a
 * fingerprint; evidence keys it by (situation, clientKey) and compares nothing.
 * A unique index covers the rows that have a key. PostgreSQL makes an insert of a
 * key wait while another uncommitted insert of it is in flight.
 */
module KeyedInsert {
  import opened Common

  datatype Key = Key(owner: string, client: string)

  /** `insertedBy` is the request that inserted the row. */
  datatype Row = Row(id: nat, key: Option<Key>, content: string, insertedBy: nat)

  datatype Kind = Registration | Evidence

  datatype Request = Request(key: Option<Key>, content: string)

  /** `InProgress` also stands for the violation that evidence raises again when the second search finds nothing. */
  datatype Reply =
    | Success(id: nat, replayed: bool)
    | KeyReused
    | InProgress

  datatype Phase =
    | Arrived(request: Request)
    | Missing(request: Request)
    | Inserting(request: Request, row: Row)
    | Violated(request: Request)
    | Inserted(request: Request, id: nat)
    | Replied(request: Request, reply: Reply)
    | Abandoned(request: Request, written: Option<nat>)

  /**
   * `rows` and `children` are committed: `children` stands for the rows the same
   * transaction writes beside the main one, by the id they belong to. `logged`
   * lists the evidence ids announced on the timeline. `used` are the drawn ids,
   * `deleted` those whose row was deleted.
   */
  datatype World = World(
    kind: Kind, rows: seq<Row>, children: seq<nat>, logged: seq<nat>, requests: map<nat, Phase>,
    used: set<nat>, deleted: set<nat>)

  datatype Event =
    | Arrive(x: nat, key: Option<Key>, content: string)
    | Find(x: nat)
    | TryInsert(x: nat, id: nat)
    | CommitInsert(x: nat)
    | FindAgain(x: nat)
    | Answer(x: nat)
    | Abandon(x: nat)
    | Delete(id: nat)

  function Lookup(rows: seq<Row>, key: Key): (r: Option<Row>)
    ensures r.Some? ==> r.value in rows && r.value.key == Some(key)
    ensures r.None? ==> forall row | row in rows :: row.key != Some(key)
  {
    if rows == [] then None
    else if rows[0].key == Some(key) then Some(rows[0])
    else Lookup(rows[1..], key)
  }

  predicate Violates(rows: seq<Row>, key: Option<Key>) {
    key.Some? && Lookup(rows, key.value).Some?
  }

  /** An existing row answers the request: registration also compares the content. */
  function Existing(kind: Kind, row: Row, request: Request): Reply {
    if kind == Registration && row.content != request.content then KeyReused
    else Success(row.id, true)
  }

  predicate InFlight(w: World, key: Option<Key>) {
    key.Some? && exists y | y in w.requests :: w.requests[y].Inserting? && w.requests[y].request.key == key
  }

  predicate Enabled(w: World, e: Event) {
    match e
    case Arrive(x, _, _) => x !in w.requests
    case Find(x) => x in w.requests && w.requests[x].Arrived? && w.requests[x].request.key.Some?
    case TryInsert(x, id) =>
      && x in w.requests && id !in w.used
      && (w.requests[x].Missing? || (w.requests[x].Arrived? && w.requests[x].request.key.None?))
      && !InFlight(w, w.requests[x].request.key)
    case CommitInsert(x) => x in w.requests && w.requests[x].Inserting?
    case FindAgain(x) => x in w.requests && w.requests[x].Violated? && w.requests[x].request.key.Some?
    case Answer(x) => x in w.requests && w.requests[x].Inserted?
    case Abandon(x) => x in w.requests && !w.requests[x].Replied?
    case Delete(id) => w.kind == Evidence && exists row :: row in w.rows && row.id == id
  }

  function Without(rows: seq<Row>, id: nat): (r: seq<Row>)
    ensures forall row :: row in r <==> row in rows && row.id != id
  {
    if rows == [] then []
    else if rows[0].id == id then Without(rows[1..], id)
    else [rows[0]] + Without(rows[1..], id)
  }

  function WithoutChild(children: seq<nat>, id: nat): seq<nat> {
    if children == [] then []
    else if children[0] == id then WithoutChild(children[1..], id)
    else [children[0]] + WithoutChild(children[1..], id)
  }

  /** The id of the row that request x inserted and committed, if any. */
  function WrittenBy(w: World, x: nat): Option<nat> {
    if x !in w.requests then None
    else
      match w.requests[x]
      case Inserted(_, id) => Some(id)
      case Replied(_, Success(id, false)) => Some(id)
      case Abandoned(_, written) => written
      case _ => None
  }

  function Apply(w: World, e: Event): World
    requires Enabled(w, e)
  {
    match e
    case Arrive(x, key, content) => w.(requests := w.requests[x := Arrived(Request(key, content))])
    case Find(x) =>
      var request := w.requests[x].request;
      var found := Lookup(w.rows, request.key.value);
      w.(requests := w.requests[x :=
        if found.Some? then Replied(request, Existing(w.kind, found.value, request)) else Missing(request)])
    case TryInsert(x, id) =>
      var request := w.requests[x].request;
      if Violates(w.rows, request.key) then w.(requests := w.requests[x := Violated(request)])
      else w.(
        requests := w.requests[x := Inserting(request, Row(id, request.key, request.content, x))],
        used := w.used + {id})
    case CommitInsert(x) =>
      var row := w.requests[x].row;
      w.(rows := w.rows + [row], children := w.children + [row.id],
         requests := w.requests[x := Inserted(w.requests[x].request, row.id)])
    case FindAgain(x) =>
      var request := w.requests[x].request;
      var found := Lookup(w.rows, request.key.value);
      w.(requests := w.requests[x := Replied(request,
        if found.Some? then Existing(w.kind, found.value, request) else InProgress)])
    case Answer(x) =>
      var phase := w.requests[x];
      w.(requests := w.requests[x := Replied(phase.request, Success(phase.id, false))],
         logged := if w.kind == Evidence then w.logged + [phase.id] else w.logged)
    case Abandon(x) => w.(requests := w.requests[x := Abandoned(w.requests[x].request, WrittenBy(w, x))])
    case Delete(id) =>
      w.(rows := Without(w.rows, id), children := WithoutChild(w.children, id), deleted := w.deleted + {id})
  }

  function Run(kind: Kind, es: seq<Event>): Option<World> {
    if es == [] then Some(World(kind, [], [], [], map[], {}, {}))
    else
      var before := Run(kind, es[..|es| - 1]);
      if before.Some? && Enabled(before.value, es[|es| - 1])
      then Some(Apply(before.value, es[|es| - 1]))
      else None
  }

  predicate Feasible(kind: Kind, es: seq<Event>) {
    Run(kind, es).Some?
  }

  function After(kind: Kind, es: seq<Event>): World
    requires Feasible(kind, es)
  {
    Run(kind, es).value
  }

  predicate NoDeletes(es: seq<Event>) {
    forall i | 0 <= i < |es| :: !es[i].Delete?
  }

  // ----- the invariant of every run

  ghost predicate UniqueIndex(rows: seq<Row>) {
    && (forall i, j | 0 <= i < j < |rows| :: rows[i].id != rows[j].id)
    && (forall i, j | 0 <= i < j < |rows| && rows[i].key.Some? :: rows[i].key != rows[j].key)
  }

  function Ids(rows: seq<Row>): seq<nat> {
    if rows == [] then [] else [rows[0].id] + Ids(rows[1..])
  }

  ghost predicate PendingOk(w: World, x: nat)
    requires x in w.requests
  {
    var phase := w.requests[x];
    phase.Inserting? ==>
      && phase.row == Row(phase.row.id, phase.request.key, phase.request.content, x)
      && phase.row.id in w.used && phase.row.id !in w.deleted
      && (forall row | row in w.rows :: row.id != phase.row.id)
      && !Violates(w.rows, phase.request.key)
      && (forall y | y in w.requests && y != x && w.requests[y].Inserting? ::
            && w.requests[y].row.id != phase.row.id
            && (phase.request.key.Some? ==> w.requests[y].request.key != phase.request.key))
  }

  ghost predicate RowsOk(w: World) {
    && UniqueIndex(w.rows)
    && w.children == Ids(w.rows)
    && (forall row | row in w.rows :: row.id in w.used && row.id !in w.deleted)
    && w.deleted <= w.used && (w.kind == Registration ==> w.deleted == {})
  }

  ghost predicate RequestsOk(w: World) {
    && (forall x | x in w.requests :: PendingOk(w, x))
    && (forall x | x in w.requests && w.requests[x].Violated? :: w.requests[x].request.key.Some?)
  }

  ghost predicate Inv(w: World) {
    RowsOk(w) && RequestsOk(w)
  }

  lemma {:induction false} IdsAppend(rows: seq<Row>, row: Row)
    ensures Ids(rows + [row]) == Ids(rows) + [row.id]
  {
    if rows == [] {
    } else {
      assert (rows + [row])[1..] == rows[1..] + [row];
      IdsAppend(rows[1..], row);
    }
  }

  lemma {:induction false} WithoutKeepsIndex(rows: seq<Row>, id: nat)
    requires UniqueIndex(rows)
    ensures UniqueIndex(Without(rows, id))
  {
    if rows == [] {
    } else {
      WithoutKeepsIndex(rows[1..], id);
      var rest := Without(rows[1..], id);
      forall j | 0 <= j < |rest| ensures rows[0].id != rest[j].id && (rows[0].key.Some? ==> rows[0].key != rest[j].key) {
        assert rest[j] in rows[1..];
      }
    }
  }

  lemma {:induction false} WithoutKeepsIds(rows: seq<Row>, id: nat)
    ensures Ids(Without(rows, id)) == WithoutChild(Ids(rows), id)
  {
    if rows == [] {
    } else {
      WithoutKeepsIds(rows[1..], id);
      assert Ids(rows)[1..] == Ids(rows[1..]);
      assert rows[0].id != id ==> Without(rows, id)[1..] == Without(rows[1..], id);
    }
  }

  lemma StepKeepsRows(w: World, e: Event)
    requires Inv(w) && Enabled(w, e)
    ensures RowsOk(Apply(w, e))
  {
    match e
    case CommitInsert(x) => CommitKeepsRows(w, x);
    case Delete(id) =>
      WithoutKeepsIndex(w.rows, id);
      WithoutKeepsIds(w.rows, id);
    case _ =>
  }

  lemma CommitKeepsRows(w: World, x: nat)
    requires Inv(w) && Enabled(w, CommitInsert(x))
    ensures RowsOk(Apply(w, CommitInsert(x)))
  {
    var row := w.requests[x].row;
    assert PendingOk(w, x);
    IdsAppend(w.rows, row);
    forall i | 0 <= i < |w.rows| ensures w.rows[i].id != row.id && (row.key.Some? ==> w.rows[i].key != row.key) {
      assert w.rows[i] in w.rows;
    }
  }

  /** Steps that touch no row: lookups, answers, failures. */
  lemma QuietStepKeepsPending(w: World, e: Event)
    requires Inv(w) && Enabled(w, e) && !e.TryInsert? && !e.CommitInsert? && !e.Delete?
    ensures RequestsOk(Apply(w, e))
  {
    var after := Apply(w, e);
    forall y | y in after.requests ensures PendingOk(after, y) {
      if y in w.requests {
        assert PendingOk(w, y);
      }
    }
  }

  lemma InsertKeepsPending(w: World, e: Event)
    requires Inv(w) && Enabled(w, e) && e.TryInsert?
    ensures RequestsOk(Apply(w, e))
  {
    var after := Apply(w, e);
    forall y | y in after.requests ensures PendingOk(after, y) {
      assert PendingOk(w, y);
    }
  }

  lemma CommitKeepsPending(w: World, e: Event)
    requires Inv(w) && Enabled(w, e) && e.CommitInsert?
    ensures RequestsOk(Apply(w, e))
  {
    var after := Apply(w, e);
    assert PendingOk(w, e.x);
    forall y | y in after.requests ensures PendingOk(after, y) {
      assert PendingOk(w, y);
    }
  }

  lemma DeleteKeepsPending(w: World, e: Event)
    requires Inv(w) && Enabled(w, e) && e.Delete?
    ensures RequestsOk(Apply(w, e))
  {
    var after := Apply(w, e);
    forall y | y in after.requests ensures PendingOk(after, y) {
      assert PendingOk(w, y);
    }
  }

  lemma StepKeepsInv(w: World, e: Event)
    requires Inv(w) && Enabled(w, e)
    ensures Inv(Apply(w, e))
  {
    StepKeepsRows(w, e);
    match e
    case TryInsert(_, _) => InsertKeepsPending(w, e);
    case CommitInsert(_) => CommitKeepsPending(w, e);
    case Delete(_) => DeleteKeepsPending(w, e);
    case _ => QuietStepKeepsPending(w, e);
  }

  lemma {:induction false} RunKeepsInv(kind: Kind, es: seq<Event>)
    requires Feasible(kind, es)
    ensures Inv(After(kind, es)) && After(kind, es).kind == kind
  {
    if es == [] {
    } else {
      RunKeepsInv(kind, es[..|es| - 1]);
      StepKeepsInv(After(kind, es[..|es| - 1]), es[|es| - 1]);
    }
  }

  // ----- what a request knows about the table

  ghost predicate Stored(w: World, row: Row) {
    row in w.rows || row.id in w.deleted
  }

  /** What an answered (or about to be answered) request knows, up to deletions. */
  ghost predicate AnswerOk(w: World, x: nat)
    requires x in w.requests
  {
    match w.requests[x]
    case Violated(request) => w.deleted == {} ==> Violates(w.rows, request.key)
    case Inserted(request, id) => Stored(w, Row(id, request.key, request.content, x))
    case Abandoned(request, Some(id)) => Stored(w, Row(id, request.key, request.content, x))
    case Replied(request, Success(id, false)) => Stored(w, Row(id, request.key, request.content, x))
    case Replied(request, Success(id, true)) =>
      request.key.Some? && exists row :: Stored(w, row) && row.id == id && row.key == request.key
                                         && (w.kind == Registration ==> row.content == request.content)
    case Replied(request, KeyReused) =>
      w.kind == Registration && request.key.Some?
      && exists row :: row in w.rows && row.key == request.key && row.content != request.content
    case Replied(_, InProgress) => w.deleted != {}
    case _ => true
  }

  lemma RowsStay(w: World, e: Event)
    requires Enabled(w, e)
    ensures forall row | Stored(w, row) :: Stored(Apply(w, e), row)
    ensures w.deleted <= Apply(w, e).deleted && (!e.Delete? ==> Apply(w, e).deleted == w.deleted)
  {
  }

  lemma LookupStays(rows: seq<Row>, more: seq<Row>, key: Option<Key>)
    requires Violates(rows, key) && forall row | row in rows :: row in more
    ensures Violates(more, key)
  {
  }

  /** What a request knows stays true while rows are added, or deleted openly. */
  lemma AnswerStays(w: World, after: World, x: nat)
    requires x in w.requests && x in after.requests && after.requests[x] == w.requests[x] && after.kind == w.kind
    requires (forall row | Stored(w, row) :: Stored(after, row)) && w.deleted <= after.deleted
    requires w.kind == Registration ==> after.deleted == {}
    requires AnswerOk(w, x)
    ensures AnswerOk(after, x)
  {
    match w.requests[x]
    case Violated(request) =>
      if after.deleted == {} {
        forall row | row in w.rows ensures row in after.rows {
          assert Stored(w, row);
        }
        LookupStays(w.rows, after.rows, request.key);
      }
    case Replied(request, KeyReused) =>
      var row :| row in w.rows && row.key == request.key && row.content != request.content;
      assert Stored(w, row);
    case _ =>
  }

  lemma OwnAnswer(w: World, e: Event)
    requires Inv(w) && Enabled(w, e) && !e.Delete? && !e.Arrive?
    requires AnswerOk(w, e.x)
    ensures AnswerOk(Apply(w, e), e.x)
  {
    assert PendingOk(w, e.x);
    if e.Find? || e.FindAgain? {
      var found := Lookup(w.rows, w.requests[e.x].request.key.value);
      assert found.Some? ==> Stored(Apply(w, e), found.value);
    }
  }

  lemma StepKeepsAnswers(w: World, e: Event)
    requires Inv(w) && Enabled(w, e)
    requires forall x | x in w.requests :: AnswerOk(w, x)
    ensures forall x | x in Apply(w, e).requests :: AnswerOk(Apply(w, e), x)
  {
    var after := Apply(w, e);
    RowsStay(w, e);
    StepKeepsInv(w, e);
    forall x | x in after.requests ensures AnswerOk(after, x) {
      if x in w.requests {
        if e.Arrive? || e.Delete? || e.x != x {
          AnswerStays(w, after, x);
        } else {
          OwnAnswer(w, e);
        }
      }
    }
  }

  lemma {:induction false} RunKeepsAnswers(kind: Kind, es: seq<Event>)
    requires Feasible(kind, es)
    ensures forall x | x in After(kind, es).requests :: AnswerOk(After(kind, es), x)
  {
    if es == [] {
    } else {
      var n := |es| - 1;
      RunKeepsAnswers(kind, es[..n]);
      RunKeepsInv(kind, es[..n]);
      StepKeepsAnswers(After(kind, es[..n]), es[n]);
    }
  }

  ghost predicate DeletedIn(es: seq<Event>, id: nat) {
    exists k :: 0 <= k < |es| && es[k] == Delete(id)
  }

  lemma {:induction false} DeletedIff(kind: Kind, es: seq<Event>, id: nat)
    requires Feasible(kind, es)
    ensures id in After(kind, es).deleted <==> DeletedIn(es, id)
  {
    if es == [] {
    } else {
      var n := |es| - 1;
      DeletedIff(kind, es[..n], id);
      if DeletedIn(es[..n], id) {
        var k :| 0 <= k < n && es[..n][k] == Delete(id);
        assert es[k] == Delete(id);
      }
      if k :| 0 <= k < |es| && es[k] == Delete(id) {
        assert k < n ==> es[..n][k] == Delete(id);
      }
    }
  }

  lemma {:induction false} RegistrationsAreNeverDeleted(es: seq<Event>)
    requires Feasible(Registration, es)
    ensures NoDeletes(es)
  {
    RunKeepsInv(Registration, es);
    forall i | 0 <= i < |es| ensures !es[i].Delete? {
      if es[i].Delete? {
        DeletedIff(Registration, es, es[i].id);
      }
    }
  }

  // ----- main results

  /** ONE ROW PER KEY, in every reachable state, deletions included; children match rows one to one. */
  lemma AtMostOneRowPerKey(kind: Kind, es: seq<Event>)
    requires Feasible(kind, es)
    ensures var w := After(kind, es);
            && (forall i, j | 0 <= i < j < |w.rows| && w.rows[i].key.Some? :: w.rows[i].key != w.rows[j].key)
            && w.children == Ids(w.rows)
  {
    RunKeepsInv(kind, es);
  }

  predicate Answered(w: World, x: nat) {
    x in w.requests && w.requests[x].Replied?
  }

  predicate Succeeded(w: World, x: nat) {
    Answered(w, x) && w.requests[x].reply.Success?
  }

  /**
   * SAME ANSWER. All successful replies for one key name the same row, and at most
   * one of them says it was not a replay, that of the request that inserted the
   * row, unless one of the two rows was deleted during the run.
   */
  lemma SuccessfulRepliesAgree(kind: Kind, es: seq<Event>, x: nat, y: nat)
    requires Feasible(kind, es)
    requires Succeeded(After(kind, es), x) && Succeeded(After(kind, es), y)
    requires After(kind, es).requests[x].request.key.Some?
    requires After(kind, es).requests[x].request.key == After(kind, es).requests[y].request.key
    ensures var rx, ry := After(kind, es).requests[x].reply, After(kind, es).requests[y].reply;
            || DeletedIn(es, rx.id) || DeletedIn(es, ry.id)
            || (rx.id == ry.id && (!rx.replayed && !ry.replayed ==> x == y))
    ensures kind == Registration ==> forall id :: !DeletedIn(es, id)
  {
    RunKeepsInv(kind, es);
    RunKeepsAnswers(kind, es);
    var w := After(kind, es);
    DeletedIff(kind, es, w.requests[x].reply.id);
    DeletedIff(kind, es, w.requests[y].reply.id);
    assert AnswerOk(w, x) && AnswerOk(w, y);
    if kind == Registration {
      RegistrationsAreNeverDeleted(es);
    }
  }

  /**
   * FINGERPRINT. A keyed registration that was answered got exactly the verdict
   * its content deserves: success when the stored row has its fingerprint, reuse
   * otherwise, and never "in progress".
   */
  lemma RegistrationVerdict(es: seq<Event>, x: nat)
    requires Feasible(Registration, es) && Answered(After(Registration, es), x)
    requires After(Registration, es).requests[x].request.key.Some?
    ensures var w := After(Registration, es);
            var request := w.requests[x].request;
            var stored := Lookup(w.rows, request.key.value);
            && stored.Some?
            && (stored.value.content == request.content <==> w.requests[x].reply.Success?)
            && (stored.value.content != request.content <==> w.requests[x].reply.KeyReused?)
            && (w.requests[x].reply.Success? ==> w.requests[x].reply.id == stored.value.id)
  {
    RunKeepsInv(Registration, es);
    RunKeepsAnswers(Registration, es);
    assert AnswerOk(After(Registration, es), x);
  }

  /** The request tried and did not insert, or was answered from somebody else's row. */
  predicate LostOut(w: World, x: nat) {
    x in w.requests && WrittenBy(w, x).None? &&
    (w.requests[x].Violated? || w.requests[x].Replied? || w.requests[x].Abandoned?)
  }

  ghost predicate RowsOwned(w: World) {
    forall row | row in w.rows :: WrittenBy(w, row.insertedBy) == Some(row.id)
  }

  lemma WrittenStaysInStep(w: World, e: Event, x: nat)
    requires Enabled(w, e) && WrittenBy(w, x).Some?
    ensures WrittenBy(Apply(w, e), x) == WrittenBy(w, x)
  {
  }

  lemma StepKeepsOwned(w: World, e: Event)
    requires Inv(w) && RowsOwned(w) && Enabled(w, e)
    ensures RowsOwned(Apply(w, e))
  {
    var after := Apply(w, e);
    forall row | row in after.rows ensures WrittenBy(after, row.insertedBy) == Some(row.id) {
      if row in w.rows {
        WrittenStaysInStep(w, e, row.insertedBy);
      } else {
        assert PendingOk(w, e.x);
      }
    }
  }

  lemma {:induction false} RunKeepsOwned(kind: Kind, es: seq<Event>)
    requires Feasible(kind, es)
    ensures RowsOwned(After(kind, es))
  {
    if es == [] {
    } else {
      var n := |es| - 1;
      RunKeepsOwned(kind, es[..n]);
      RunKeepsInv(kind, es[..n]);
      StepKeepsOwned(After(kind, es[..n]), es[n]);
    }
  }

  /** Whether and what a request has written does not change once it lost out or wrote. */
  lemma {:induction false} WrittenStays(kind: Kind, es: seq<Event>, i: nat, x: nat)
    requires Feasible(kind, es) && i <= |es|
    ensures Feasible(kind, es[..i])
    ensures WrittenBy(After(kind, es[..i]), x).Some? ==>
              WrittenBy(After(kind, es), x) == WrittenBy(After(kind, es[..i]), x)
    decreases |es|
  {
    if i == |es| {
      assert es[..i] == es;
    } else {
      var n := |es| - 1;
      assert es[..n][..i] == es[..i];
      WrittenStays(kind, es[..n], i, x);
      if WrittenBy(After(kind, es[..n]), x).Some? {
        WrittenStaysInStep(After(kind, es[..n]), es[n], x);
      }
    }
  }

  /**
   * NO TRACE. A request that lost the insert, was answered from an existing row,
   * was told the key was reused or in progress, or failed before inserting has no
   * row and no child at any point of the run, deletions included.
   */
  lemma LosingInsertLeavesNoTrace(kind: Kind, es: seq<Event>, i: nat, x: nat)
    requires Feasible(kind, es) && i <= |es| && LostOut(After(kind, es), x)
    ensures Feasible(kind, es[..i])
    ensures var w := After(kind, es[..i]);
            && (forall row | row in w.rows :: row.insertedBy != x)
            && (forall c | c in w.children :: exists row :: row in w.rows && row.id == c && row.insertedBy != x)
  {
    WrittenStays(kind, es, i, x);
    RunKeepsOwned(kind, es[..i]);
    RunKeepsInv(kind, es[..i]);
    var w := After(kind, es[..i]);
    forall c | c in w.children ensures exists row :: row in w.rows && row.id == c && row.insertedBy != x {
      ChildOfRow(w.rows, c);
    }
  }

  lemma {:induction false} ChildOfRow(rows: seq<Row>, c: nat)
    requires c in Ids(rows)
    ensures exists row :: row in rows && row.id == c
  {
    if c == rows[0].id {
      assert rows[0] in rows;
    } else {
      ChildOfRow(rows[1..], c);
    }
  }

  /** TRACE. A request has a row exactly when it wrote one that was not deleted since; then that row alone. */
  lemma WriterOwnsItsRow(kind: Kind, es: seq<Event>, x: nat)
    requires Feasible(kind, es)
    ensures var w := After(kind, es);
            && ((exists row :: row in w.rows && row.insertedBy == x) <==>
                WrittenBy(w, x).Some? && !DeletedIn(es, WrittenBy(w, x).value))
            && (forall row | row in w.rows && row.insertedBy == x ::
                 x in w.requests && row.key == w.requests[x].request.key && row.content == w.requests[x].request.content)
            && (forall row, other | row in w.rows && other in w.rows && row.insertedBy == x == other.insertedBy :: row == other)
  {
    RunKeepsOwned(kind, es);
    RunKeepsInv(kind, es);
    RunKeepsAnswers(kind, es);
    var w := After(kind, es);
    if WrittenBy(w, x).Some? {
      DeletedIff(kind, es, WrittenBy(w, x).value);
      assert AnswerOk(w, x);
    }
  }

  function Occurrences(ids: seq<nat>, id: nat): nat {
    multiset(ids)[id]
  }

  ghost predicate LogOk(w: World) {
    && (forall id :: Occurrences(w.logged, id) <= 1)
    && (forall id | Occurrences(w.logged, id) > 0 :: id in w.used)
    && (forall x | x in w.requests && w.requests[x].Inserting? :: Occurrences(w.logged, w.requests[x].row.id) == 0)
    && (forall x | x in w.requests && w.requests[x].Inserted? ::
         && Occurrences(w.logged, w.requests[x].id) == 0 && w.requests[x].id in w.used
         && (forall y | y in w.requests && y != x && w.requests[y].Inserted? :: w.requests[y].id != w.requests[x].id)
         && (forall y | y in w.requests && w.requests[y].Inserting? :: w.requests[y].row.id != w.requests[x].id))
  }

  lemma AnswerKeepsLog(w: World, e: Event)
    requires LogOk(w) && Enabled(w, e) && e.Answer?
    ensures LogOk(Apply(w, e))
  {
    var announced := w.requests[e.x].id;
    assert multiset(w.logged + [announced]) == multiset(w.logged) + multiset{announced};
    forall id ensures Occurrences(w.logged + [announced], id) ==
                      Occurrences(w.logged, id) + if announced == id then 1 else 0 {
    }
  }

  lemma InsertKeepsLog(w: World, e: Event)
    requires Inv(w) && LogOk(w) && Enabled(w, e) && (e.TryInsert? || e.CommitInsert?)
    ensures LogOk(Apply(w, e))
  {
    assert e.CommitInsert? ==> PendingOk(w, e.x);
  }

  lemma StepKeepsLog(w: World, e: Event)
    requires Inv(w) && LogOk(w) && Enabled(w, e)
    ensures LogOk(Apply(w, e))
  {
    if e.Answer? {
      AnswerKeepsLog(w, e);
    } else if e.TryInsert? || e.CommitInsert? {
      InsertKeepsLog(w, e);
    }
  }

  /** The request was told that it inserted the row of this id itself. */
  predicate AnsweredFresh(w: World, x: nat, id: nat) {
    x in w.requests && w.requests[x].Replied? && w.requests[x].reply == Success(id, false)
  }

  /** Evidence announces the fresh answers and nothing else; registration announces nothing here. */
  ghost predicate LogExact(w: World) {
    && (w.kind == Evidence ==>
         forall id :: Occurrences(w.logged, id) > 0 <==> exists x :: AnsweredFresh(w, x, id))
    && (w.kind == Registration ==> w.logged == [])
  }

  lemma StepKeepsLogExact(w: World, e: Event)
    requires LogExact(w) && Enabled(w, e)
    ensures LogExact(Apply(w, e))
  {
    var after := Apply(w, e);
    if e.Answer? {
      var announced := w.requests[e.x].id;
      assert AnsweredFresh(after, e.x, announced);
      assert multiset(w.logged + [announced]) == multiset(w.logged) + multiset{announced};
      forall x, id | x != e.x ensures AnsweredFresh(after, x, id) <==> AnsweredFresh(w, x, id) {
      }
      forall id ensures !AnsweredFresh(w, e.x, id) {
      }
    } else {
      forall x, id ensures AnsweredFresh(after, x, id) <==> AnsweredFresh(w, x, id) {
      }
    }
  }

  lemma {:induction false} RunKeepsLogs(kind: Kind, es: seq<Event>)
    requires Feasible(kind, es)
    ensures LogOk(After(kind, es)) && LogExact(After(kind, es))
  {
    if es == [] {
    } else {
      var n := |es| - 1;
      RunKeepsLogs(kind, es[..n]);
      RunKeepsInv(kind, es[..n]);
      StepKeepsLog(After(kind, es[..n]), es[n]);
      StepKeepsLogExact(After(kind, es[..n]), es[n]);
    }
  }

  /**
   * ATTACHMENT ENTRY. An evidence is announced on the timeline exactly once when
   * its request was answered as the one that inserted it, and never otherwise:
   * replays, losers and failures announce nothing. Registration writes no such entry.
   */
  lemma EvidenceAnnouncedOnce(kind: Kind, es: seq<Event>, id: nat)
    requires Feasible(kind, es)
    ensures var w := After(kind, es);
            && (kind == Evidence && (exists x :: AnsweredFresh(w, x, id)) ==> Occurrences(w.logged, id) == 1)
            && (kind == Evidence && (forall x :: !AnsweredFresh(w, x, id)) ==> Occurrences(w.logged, id) == 0)
            && (kind == Registration ==> w.logged == [])
  {
    RunKeepsInv(kind, es);
    RunKeepsLogs(kind, es);
  }

  /**
   * PROGRAM ORDER. A keyed request searches before it inserts, a request without
   * key inserts at once, and both wait for an insert of their key in flight.
   */
  lemma SearchComesFirst(w: World, x: nat, id: nat)
    requires x in w.requests && id !in w.used
    ensures w.requests[x].Arrived? && w.requests[x].request.key.Some? ==>
              Enabled(w, Find(x)) && !Enabled(w, TryInsert(x, id))
    ensures w.requests[x].Arrived? && w.requests[x].request.key.None? ==>
              !Enabled(w, Find(x)) && Enabled(w, TryInsert(x, id))
    ensures w.requests[x].Missing? && w.requests[x].request.key.Some? ==>
              (Enabled(w, TryInsert(x, id)) <==>
               forall y | y in w.requests && w.requests[y].Inserting? ::
                 w.requests[y].request.key != w.requests[x].request.key)
  {
  }

  /**
   * LOOKUPS. The first search answers a keyed request exactly when a row has its
   * key, and an insert is refused exactly then; otherwise the row is on its way.
   */
  lemma SearchAndInsertAnswer(w: World, x: nat, id: nat)
    requires x in w.requests && w.requests[x].request.key.Some?
    ensures var key := w.requests[x].request.key;
            var taken := exists row :: row in w.rows && row.key == key;
            && (Enabled(w, Find(x)) ==>
                 var phase := Apply(w, Find(x)).requests[x];
                 (phase.Replied? <==> taken) && (phase.Missing? <==> !taken))
            && (Enabled(w, TryInsert(x, id)) ==>
                 var phase := Apply(w, TryInsert(x, id)).requests[x];
                 && (phase.Violated? <==> taken)
                 && (phase.Inserting? <==> !taken)
                 && (phase.Inserting? ==> phase.row == Row(id, key, w.requests[x].request.content, x)))
            && (Enabled(w, FindAgain(x)) ==>
                 var phase := Apply(w, FindAgain(x)).requests[x];
                 phase.Replied? && (phase.reply.InProgress? <==> !taken))
  {
  }

  // ----- one request, step by step, with other requests in between

  function NextId(rows: seq<Row>): (r: nat)
    ensures forall row | row in rows :: row.id < r
  {
    if rows == [] then 0
    else
      var rest := NextId(rows[1..]);
      if rows[0].id < rest then rest else rows[0].id + 1
  }

  /** The committed rows of a keyed table, written by several requests at once. */
  class KeyedTable {
    var rows: seq<Row>

    ghost predicate Valid()
      reads this
    {
      UniqueIndex(rows)
    }

    constructor ()
      ensures Valid() && rows == []
    {
      rows := [];
    }

    /** What others may do between two statements: add registrations, add and delete evidence. */
    method OthersRun(kind: Kind)
      requires Valid()
      modifies this
      ensures Valid() && (kind == Registration ==> old(rows) <= rows)
    {
    }

    method FindByKey(key: Key) returns (r: Option<Row>)
      ensures r == Lookup(rows, key)
    {
      var i := 0;
      while i < |rows|
        invariant i <= |rows| && Lookup(rows, key) == Lookup(rows[i..], key)
      {
        if rows[i].key == Some(key) {
          return Some(rows[i]);
        }
        i := i + 1;
      }
      return None;
    }

    method Insert(key: Option<Key>, content: string, insertedBy: nat) returns (r: Option<Row>)
      requires Valid()
      modifies this
      ensures Valid()
      ensures r.None? <==> Violates(old(rows), key)
      ensures r.None? ==> rows == old(rows)
      ensures r.Some? ==> rows == old(rows) + [r.value] && r.value.key == key && r.value.content == content
                          && r.value.insertedBy == insertedBy
    {
      if key.Some? {
        var found := FindByKey(key.value);
        if found.Some? {
          return None;
        }
      }
      var row := Row(NextId(rows), key, content, insertedBy);
      rows := rows + [row];
      return Some(row);
    }

    /**
     * `registerAndExecute` (registration) and `create` (evidence). Whatever others
     * did in between, a keyed request is answered from the row stored under its
     * key when it was answered; only an evidence deleted between the lost insert
     * and the second search leaves it without an answer.
     */
    method Submit(kind: Kind, key: Option<Key>, content: string, insertedBy: nat) returns (r: Reply)
      requires Valid()
      modifies this
      ensures Valid() && (kind == Registration ==> old(rows) <= rows)
      ensures r.InProgress? ==> kind == Evidence && key.Some? && Lookup(rows, key.value).None?
      ensures r.Success? ==> exists row :: row in rows && row.id == r.id && row.key == key
      ensures r.Success? && !r.replayed ==> exists row :: row in rows && row == Row(r.id, key, content, insertedBy)
      ensures key.Some? && !r.InProgress? ==>
                && Lookup(rows, key.value).Some?
                && (r.KeyReused? <==> kind == Registration && Lookup(rows, key.value).value.content != content)
                && (r.Success? ==> r.id == Lookup(rows, key.value).value.id)
      ensures key.None? ==> r.Success? && !r.replayed
    {
      if key.Some? {
        var existing := FindByKey(key.value);
        if existing.Some? {
          return Existing(kind, existing.value, Request(key, content));
        }
        OthersRun(kind);
      }
      var inserted := Insert(key, content, insertedBy);
      if inserted.None? {
        label violated:
        OthersRun(kind);
        if kind == Registration {
          StoredStays(old@violated(rows), rows, key.value);
        }
        var concurrent := FindByKey(key.value);
        if concurrent.None? {
          return InProgress;
        }
        return Existing(kind, concurrent.value, Request(key, content));
      }
      assert inserted.value in rows;
      if key.Some? {
        OnlyRowOfKey(rows, inserted.value, key.value);
      }
      return Success(inserted.value.id, false);
    }
  }

  lemma StoredStays(rows: seq<Row>, more: seq<Row>, key: Key)
    requires rows <= more && Lookup(rows, key).Some?
    ensures Lookup(more, key).Some?
  {
    assert Lookup(rows, key).value in more;
  }

  lemma OnlyRowOfKey(rows: seq<Row>, row: Row, key: Key)
    requires UniqueIndex(rows) && row in rows && row.key == Some(key)
    ensures Lookup(rows, key) == Some(row)
  {
  }
}
