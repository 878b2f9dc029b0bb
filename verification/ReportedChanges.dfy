/**
 * One transaction over `situations` and `situation_severity_changes` with the
 * compatibility triggers installed: a BEFORE INSERT trigger completes and marks
 * rows of the previous contract, and a deferred constraint trigger gives each
 * marked row its REPORTED change at commit, unless it has one.
 */
module ReportedChanges {
  import opened Common

  /** A row as it is sent; `reportedSeverity.None?` is the shape of the previous contract. */
  datatype Row = Row(
    id: nat,
    reportKind: ReportKind,
    coordinationId: Option<string>,
    affectedCoordinationId: Option<string>,
    severity: Severity,
    reportedSeverity: Option<Severity>,
    createdAt: int,
    createdByUserId: string)

  datatype Source = REPORTED | AUTO_TIME

  datatype Change = Change(
    situationId: nat, previous: Option<Severity>, new_: Severity, source: Source, effectiveAt: int, actorUserId: Option<string>)

  datatype Statement =
    | InsertSituation(row: Row)
    | InsertReported(situationId: nat, severity: Severity, effectiveAt: int, actorUserId: string)

  datatype Tables = Tables(situations: map<nat, Row>, changes: seq<Change>)

  /** A transaction in progress; `marks` are its local settings, `queue` the rows with a deferred trigger. */
  datatype Transaction = Transaction(tables: Tables, marks: set<nat>, queue: seq<nat>)

  // ----- triggers and statements

  /** `novex_situations_legacy_insert_defaults`. */
  function BeforeInsert(row: Row): (r: Row)
    ensures r.id == row.id && r.reportedSeverity.Some?
    ensures row.reportedSeverity.Some? ==> r == row
    ensures row.reportedSeverity.None? ==> r.reportedSeverity == Some(row.severity)
    ensures row.reportedSeverity.None? && row.reportKind == INTERNAL && row.affectedCoordinationId.None? ==>
              r.affectedCoordinationId == row.coordinationId
    ensures row.reportKind != INTERNAL || row.affectedCoordinationId.Some? ==>
              r.affectedCoordinationId == row.affectedCoordinationId
    ensures r == row.(reportedSeverity := r.reportedSeverity, affectedCoordinationId := r.affectedCoordinationId)
  {
    if row.reportedSeverity.Some? then row
    else
      row.(
        reportedSeverity := Some(row.severity),
        affectedCoordinationId :=
          if row.reportKind == INTERNAL && row.affectedCoordinationId.None? && row.coordinationId.Some?
          then row.coordinationId else row.affectedCoordinationId)
  }

  function ReportedOf(changes: seq<Change>, id: nat): seq<Change> {
    if changes == [] then []
    else
      var n := |changes| - 1;
      ReportedOf(changes[..n], id) +
      if changes[n].situationId == id && changes[n].source == REPORTED then [changes[n]] else []
  }

  function OwnChange(s: Statement): Change
    requires s.InsertReported?
  {
    Change(s.situationId, None, s.severity, REPORTED, s.effectiveAt, Some(s.actorUserId))
  }

  /** One statement; a violated primary key, foreign key or unique index aborts the transaction. */
  function Execute(t: Transaction, s: Statement): Option<Transaction> {
    match s
    case InsertSituation(row) =>
      if row.id in t.tables.situations then None
      else Some(Transaction(
        t.tables.(situations := t.tables.situations[row.id := BeforeInsert(row)]),
        if row.reportedSeverity.None? then t.marks + {row.id} else t.marks,
        t.queue + [row.id]))
    case InsertReported(id, _, _, _) =>
      if id !in t.tables.situations || ReportedOf(t.tables.changes, id) != [] then None
      else Some(t.(tables := t.tables.(changes := t.tables.changes + [OwnChange(s)])))
  }

  function ExecuteAll(before: Tables, statements: seq<Statement>): Option<Transaction> {
    if statements == [] then Some(Transaction(before, {}, []))
    else
      var t := ExecuteAll(before, statements[..|statements| - 1]);
      if t.None? then None else Execute(t.value, statements[|statements| - 1])
  }

  function AutomaticChange(row: Row): Change
    requires row.reportedSeverity.Some?
  {
    Change(row.id, None, row.reportedSeverity.value, REPORTED, row.createdAt, Some(row.createdByUserId))
  }

  ghost predicate Complete(situations: map<nat, Row>) {
    forall id | id in situations :: situations[id].id == id && situations[id].reportedSeverity.Some?
  }

  /** `novex_situations_ensure_reported_severity_change` for one queued row. */
  function Fire(tables: Tables, marks: set<nat>, id: nat): (r: Tables)
    requires Complete(tables.situations)
    ensures r.situations == tables.situations
  {
    if id !in marks || id !in tables.situations || ReportedOf(tables.changes, id) != [] then tables
    else tables.(changes := tables.changes + [AutomaticChange(tables.situations[id])])
  }

  function FireAll(tables: Tables, marks: set<nat>, queue: seq<nat>): (r: Tables)
    requires Complete(tables.situations)
    ensures r.situations == tables.situations
  {
    if queue == [] then tables
    else Fire(FireAll(tables, marks, queue[..|queue| - 1]), marks, queue[|queue| - 1])
  }

  // ----- what every statement keeps

  ghost predicate Sound(tables: Tables) {
    && Complete(tables.situations)
    && (forall id :: |ReportedOf(tables.changes, id)| <= 1)
    && (forall c | c in tables.changes :: c.situationId in tables.situations)
  }

  lemma ReportedAppend(changes: seq<Change>, c: Change, id: nat)
    ensures ReportedOf(changes + [c], id) ==
            ReportedOf(changes, id) + if c.situationId == id && c.source == REPORTED then [c] else []
  {
    assert (changes + [c])[..|changes|] == changes;
  }

  lemma {:induction false} ReportedAmong(changes: seq<Change>, id: nat)
    requires forall c | c in changes :: c.situationId != id
    ensures ReportedOf(changes, id) == []
  {
    if changes == [] {
    } else {
      ReportedAmong(changes[..|changes| - 1], id);
    }
  }

  /** The change the statements themselves wrote for a situation, if any. */
  function OwnChangeOf(statements: seq<Statement>, id: nat): Option<Change> {
    if statements == [] then None
    else
      var last := statements[|statements| - 1];
      var earlier := OwnChangeOf(statements[..|statements| - 1], id);
      if earlier.Some? then earlier
      else if last.InsertReported? && last.situationId == id then Some(OwnChange(last))
      else None
  }

  ghost predicate RowsProgress(before: Tables, statements: seq<Statement>, t: Transaction) {
    && (forall id | id in before.situations :: id in t.tables.situations && t.tables.situations[id] == before.situations[id])
    && (forall s | s in statements && s.InsertSituation? ::
          && s.row.id !in before.situations && s.row.id in t.tables.situations
          && t.tables.situations[s.row.id] == BeforeInsert(s.row)
          && (s.row.id in t.marks <==> s.row.reportedSeverity.None?)
          && s.row.id in t.queue)
    && (forall id | id in t.marks :: id in t.queue)
    && (forall id | id in t.queue :: id in t.tables.situations && id !in before.situations)
  }

  function Own(statements: seq<Statement>, id: nat): seq<Change> {
    var own := OwnChangeOf(statements, id);
    if own.Some? then [own.value] else []
  }

  ghost predicate ChangesProgress(before: Tables, statements: seq<Statement>, t: Transaction, id: nat) {
    ReportedOf(t.tables.changes, id) == ReportedOf(before.changes, id) + Own(statements, id)
  }

  lemma StepRows(before: Tables, statements: seq<Statement>, t: Transaction, last: Statement)
    requires RowsProgress(before, statements, t) && Execute(t, last).Some?
    ensures RowsProgress(before, statements + [last], Execute(t, last).value)
  {
    var after := Execute(t, last).value;
    forall s | s in statements + [last] && s.InsertSituation?
      ensures && s.row.id !in before.situations && s.row.id in after.tables.situations
              && after.tables.situations[s.row.id] == BeforeInsert(s.row)
              && (s.row.id in after.marks <==> s.row.reportedSeverity.None?) && s.row.id in after.queue
    {
      if s in statements {
      } else {
        assert s == last;
      }
    }
  }

  lemma StepChanges(before: Tables, statements: seq<Statement>, t: Transaction, last: Statement, id: nat)
    requires ChangesProgress(before, statements, t, id) && Execute(t, last).Some?
    ensures ChangesProgress(before, statements + [last], Execute(t, last).value, id)
  {
    assert (statements + [last])[..|statements|] == statements;
    if last.InsertReported? {
      ReportedAppend(t.tables.changes, OwnChange(last), id);
    }
  }

  lemma StepKeepsSound(t: Transaction, s: Statement)
    requires Sound(t.tables) && Execute(t, s).Some?
    ensures Sound(Execute(t, s).value.tables)
  {
    if s.InsertReported? {
      forall id ensures |ReportedOf(t.tables.changes + [OwnChange(s)], id)| <= 1 {
        ReportedAppend(t.tables.changes, OwnChange(s), id);
      }
    }
  }

  lemma {:induction false} ExecuteAllKeepsSound(before: Tables, statements: seq<Statement>)
    requires Sound(before) && ExecuteAll(before, statements).Some?
    ensures Sound(ExecuteAll(before, statements).value.tables)
  {
    if statements == [] {
    } else {
      var n := |statements| - 1;
      ExecuteAllKeepsSound(before, statements[..n]);
      StepKeepsSound(ExecuteAll(before, statements[..n]).value, statements[n]);
    }
  }

  lemma {:induction false} ExecuteAllRows(before: Tables, statements: seq<Statement>)
    requires ExecuteAll(before, statements).Some?
    ensures RowsProgress(before, statements, ExecuteAll(before, statements).value)
  {
    if statements == [] {
    } else {
      var n := |statements| - 1;
      ExecuteAllRows(before, statements[..n]);
      assert statements[..n] + [statements[n]] == statements;
      StepRows(before, statements[..n], ExecuteAll(before, statements[..n]).value, statements[n]);
    }
  }

  lemma {:induction false} ExecuteAllChanges(before: Tables, statements: seq<Statement>, id: nat)
    requires ExecuteAll(before, statements).Some?
    ensures ChangesProgress(before, statements, ExecuteAll(before, statements).value, id)
  {
    if statements == [] {
    } else {
      var n := |statements| - 1;
      ExecuteAllChanges(before, statements[..n], id);
      assert statements[..n] + [statements[n]] == statements;
      StepChanges(before, statements[..n], ExecuteAll(before, statements[..n]).value, statements[n], id);
    }
  }

  /** What one deferred trigger adds. */
  lemma FireAdds(tables: Tables, marks: set<nat>, q: nat, id: nat)
    requires Sound(tables)
    ensures var after := Fire(tables, marks, q);
            ReportedOf(after.changes, id) ==
               if id == q && id in marks && id in tables.situations && ReportedOf(tables.changes, id) == []
               then [AutomaticChange(tables.situations[id])] else ReportedOf(tables.changes, id)
  {
    if q in tables.situations {
      ReportedAppend(tables.changes, AutomaticChange(tables.situations[q]), id);
    }
  }

  lemma FireKeepsSound(tables: Tables, marks: set<nat>, q: nat)
    requires Sound(tables)
    ensures Sound(Fire(tables, marks, q))
  {
    forall id ensures |ReportedOf(Fire(tables, marks, q).changes, id)| <= 1 {
      FireAdds(tables, marks, q, id);
    }
  }

  /** What the deferred triggers add: one change for each marked row that had none. */
  lemma {:induction false} FireAllAdds(tables: Tables, marks: set<nat>, queue: seq<nat>, id: nat)
    requires Sound(tables)
    ensures var after := FireAll(tables, marks, queue);
            && Sound(after)
            && ReportedOf(after.changes, id) ==
               if id in marks && id in queue && id in tables.situations && ReportedOf(tables.changes, id) == []
               then [AutomaticChange(tables.situations[id])] else ReportedOf(tables.changes, id)
  {
    if queue == [] {
    } else {
      var n := |queue| - 1;
      FireAllAdds(tables, marks, queue[..n], id);
      FireKeepsSound(FireAll(tables, marks, queue[..n]), marks, queue[n]);
      FireAdds(FireAll(tables, marks, queue[..n]), marks, queue[n], id);
      assert id in queue <==> id in queue[..n] || id == queue[n];
    }
  }

  // ----- main results

  /** Commit of a transaction: its statements, then the deferred triggers; `None` when it aborts. */
  function Commit(before: Tables, statements: seq<Statement>): Option<Tables>
    requires Sound(before)
  {
    var t := ExecuteAll(before, statements);
    if t.None? then None
    else
      ExecuteAllKeepsSound(before, statements);
      Some(FireAll(t.value.tables, t.value.marks, t.value.queue))
  }

  /**
   * EXACTLY ONE REPORTED ROW. After any committed mix of inserts, a situation
   * inserted by it has the change the transaction wrote for it, or else the
   * automatic one if it came in the previous contract's shape, or else none; the
   * automatic one carries the reported severity, the creation instant and author.
   */
  lemma ReportedRowOfInserted(before: Tables, statements: seq<Statement>, row: Row)
    requires Sound(before) && Commit(before, statements).Some?
    requires InsertSituation(row) in statements
    ensures var after := Commit(before, statements).value;
            var own := OwnChangeOf(statements, row.id);
            && Sound(after)
            && row.id in after.situations && after.situations[row.id] == BeforeInsert(row)
            && ReportedOf(after.changes, row.id) ==
               (if own.Some? then [own.value]
                else if row.reportedSeverity.None? then
                  [Change(row.id, None, row.severity, REPORTED, row.createdAt, Some(row.createdByUserId))]
                else [])
  {
    ExecuteAllKeepsSound(before, statements);
    ExecuteAllRows(before, statements);
    ExecuteAllChanges(before, statements, row.id);
    var t := ExecuteAll(before, statements).value;
    ReportedAmong(before.changes, row.id);
    FireAllAdds(t.tables, t.marks, t.queue, row.id);
    assert InsertSituation(row) in statements;
  }

  /** The statements of the create path: the row with its reported severity, then its own change. */
  function CreatePath(row: Row): seq<Statement>
    requires row.reportedSeverity.Some?
  {
    [InsertSituation(row), InsertReported(row.id, row.reportedSeverity.value, row.createdAt, row.createdByUserId)]
  }

  lemma {:induction false} OwnChangeFound(statements: seq<Statement>, before: Tables, k: nat)
    requires Sound(before) && ExecuteAll(before, statements).Some?
    requires k < |statements| && statements[k].InsertReported?
    ensures OwnChangeOf(statements, statements[k].situationId) == Some(OwnChange(statements[k]))
  {
    var n := |statements| - 1;
    var id := statements[k].situationId;
    if k < n {
      assert statements[..n][k] == statements[k];
      OwnChangeFound(statements[..n], before, k);
    } else {
      ExecuteAllChanges(before, statements[..n], id);
      assert |Own(statements[..n], id)| == 0;
    }
  }

  /**
   * Both paths in one committed transaction, in any mix: a row of the create path
   * (its change being the statement after it) and a row of the previous contract
   * each end with exactly one REPORTED change, dated at the row's creation.
   */
  lemma EachPathEndsWithOne(before: Tables, statements: seq<Statement>, k: nat)
    requires Sound(before) && Commit(before, statements).Some?
    requires k < |statements| && statements[k].InsertSituation?
    requires statements[k].row.reportedSeverity.Some? ==>
               k + 1 < |statements| && statements[k..k + 2] == CreatePath(statements[k].row)
    ensures var row := statements[k].row;
            var reported := ReportedOf(Commit(before, statements).value.changes, row.id);
            && |reported| == 1
            && (row.reportedSeverity.Some? || OwnChangeOf(statements, row.id).None? ==>
                 reported[0] == Change(row.id, None, BeforeInsert(row).reportedSeverity.value, REPORTED,
                                       row.createdAt, Some(row.createdByUserId)))
  {
    var row := statements[k].row;
    ReportedRowOfInserted(before, statements, row);
    if row.reportedSeverity.Some? {
      assert statements[k + 1] == statements[k..k + 2][1];
      OwnChangeFound(statements, before, k + 1);
    }
  }

  /** Situations that were already there are left alone, but for changes the statements write themselves. */
  lemma OthersUntouched(before: Tables, statements: seq<Statement>, id: nat)
    requires Sound(before) && Commit(before, statements).Some? && id in before.situations
    ensures var after := Commit(before, statements).value;
            && id in after.situations && after.situations[id] == before.situations[id]
            && ReportedOf(after.changes, id) == ReportedOf(before.changes, id) + Own(statements, id)
  {
    ExecuteAllKeepsSound(before, statements);
    ExecuteAllRows(before, statements);
    ExecuteAllChanges(before, statements, id);
    var t := ExecuteAll(before, statements).value;
    FireAllAdds(t.tables, t.marks, t.queue, id);
  }

  // ----- the transaction on mutable state

  class LegacyCompatibleTransaction {
    var situations: map<nat, Row>
    var changes: seq<Change>
    var marks: set<nat>
    var queue: seq<nat>

    function View(): Transaction
      reads this
    {
      Transaction(Tables(situations, changes), marks, queue)
    }

    constructor (before: Tables)
      ensures View() == Transaction(before, {}, [])
    {
      situations, changes, marks, queue := before.situations, before.changes, {}, [];
    }

    method RunInsertSituation(row: Row) returns (ok: bool)
      modifies this
      ensures ok <==> Execute(old(View()), InsertSituation(row)).Some?
      ensures if ok then Execute(old(View()), InsertSituation(row)) == Some(View()) else View() == old(View())
    {
      if row.id in situations {
        return false;
      }
      var new_ := row;
      if row.reportedSeverity.None? {
        new_ := new_.(reportedSeverity := Some(new_.severity));
        if new_.reportKind == INTERNAL && new_.affectedCoordinationId.None? && new_.coordinationId.Some? {
          new_ := new_.(affectedCoordinationId := new_.coordinationId);
        }
        marks := marks + {row.id};
      }
      situations := situations[row.id := new_];
      queue := queue + [row.id];
      return true;
    }

    method HasReported(id: nat) returns (found: bool)
      ensures found <==> ReportedOf(changes, id) != []
    {
      var i := 0;
      while i < |changes|
        invariant i <= |changes| && ReportedOf(changes[..i], id) == []
      {
        assert changes[..i + 1][..i] == changes[..i];
        if changes[i].situationId == id && changes[i].source == REPORTED {
          ReportedKept(changes, id, i + 1);
          return true;
        }
        i := i + 1;
      }
      assert changes[..|changes|] == changes;
      return false;
    }

    /** The end of the transaction: each queued row runs the deferred trigger, in order. */
    method FireDeferredTriggers()
      requires Sound(View().tables)
      modifies this`changes
      ensures View().tables == FireAll(old(View()).tables, marks, queue)
    {
      ghost var start := View().tables;
      var i := 0;
      while i < |queue|
        invariant i <= |queue|
        invariant View().tables == FireAll(start, marks, queue[..i])
      {
        var id := queue[i];
        assert queue[..i + 1][..i] == queue[..i];
        if id in marks && id in situations {
          var found := HasReported(id);
          if !found {
            changes := changes + [AutomaticChange(situations[id])];
          }
        }
        i := i + 1;
      }
      assert queue[..|queue|] == queue;
    }
  }

  lemma {:induction false} ReportedKept(changes: seq<Change>, id: nat, i: nat)
    requires i <= |changes| && ReportedOf(changes[..i], id) != []
    ensures ReportedOf(changes, id) != []
  {
    if i == |changes| {
      assert changes[..i] == changes;
    } else {
      var n := |changes| - 1;
      assert changes[..n][..i] == changes[..i];
      ReportedKept(changes[..n], id, i);
    }
  }
}
