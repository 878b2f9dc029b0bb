/** Stock against flow, and totals against their breakdowns. */
module KpiLaws {
  import opened Common
  import opened KpiCounting

  // ----- stock and flow

  /** A row closed before it was created: the data the resolution query guards against. */
  predicate Corrupt(r: Row) {
    r.closedAt.Some? && r.closedAt.value < r.createdAt
  }

  function CorruptEvents(table: seq<Row>, f: SeriesFilter, x: string, metric: Metric, from: int, to: int): nat {
    Count(table, (r: Row) => Joins(f, x, r) && Corrupt(r) && Happened(metric, r, from, to))
  }

  /**
   * The exact balance over one interval, whatever the data: stock at its end plus
   * what was closed equals stock at its start plus what was created, once the
   * corrupt rows (which are never in stock) are taken out of both flows.
   */
  lemma {:induction false} Balance(table: seq<Row>, f: SeriesFilter, x: string, from: int, to: int)
    requires from <= to
    ensures Backlog(table, f, x, to) + Events(table, f, x, CLOSED, from, to) + CorruptEvents(table, f, x, CREATED, from, to)
         == Backlog(table, f, x, from) + Events(table, f, x, CREATED, from, to) + CorruptEvents(table, f, x, CLOSED, from, to)
  {
    if table == [] {
    } else {
      Balance(table[..|table| - 1], f, x, from, to);
    }
  }

  /**
   * STOCK/FLOW. Backlog after a bucket = backlog before it + created - closed,
   * exactly when the bucket saw as many corrupt creations as corrupt closings; in
   * particular whenever no row of the series was closed before it was created.
   */
  lemma StockFlowIff(table: seq<Row>, f: SeriesFilter, x: string, b: Bucket)
    requires b.start <= b.end
    ensures Backlog(table, f, x, EndExclusive(b)) ==
            Backlog(table, f, x, StartAt(b))
            + Events(table, f, x, CREATED, StartAt(b), EndExclusive(b))
            - Events(table, f, x, CLOSED, StartAt(b), EndExclusive(b))
        <==> CorruptEvents(table, f, x, CREATED, StartAt(b), EndExclusive(b))
             == CorruptEvents(table, f, x, CLOSED, StartAt(b), EndExclusive(b))
    ensures (forall r | r in table && Joins(f, x, r) && r.closedAt.Some? :: r.createdAt <= r.closedAt.value) ==>
              CorruptEvents(table, f, x, CREATED, StartAt(b), EndExclusive(b))
              == CorruptEvents(table, f, x, CLOSED, StartAt(b), EndExclusive(b))
  {
    var from, to := StartAt(b), EndExclusive(b);
    Balance(table, f, x, from, to);
    if forall r | r in table && Joins(f, x, r) && r.closedAt.Some? :: r.createdAt <= r.closedAt.value {
      CountSame(table, (r: Row) => Joins(f, x, r) && Corrupt(r) && Happened(CREATED, r, from, to), (r: Row) => false);
      CountSame(table, (r: Row) => Joins(f, x, r) && Corrupt(r) && Happened(CLOSED, r, from, to), (r: Row) => false);
    }
  }

  function SumEvents(table: seq<Row>, f: SeriesFilter, x: string, metric: Metric, buckets: seq<Bucket>): nat {
    if buckets == [] then 0
    else
      var b := buckets[|buckets| - 1];
      SumEvents(table, f, x, metric, buckets[..|buckets| - 1]) + Events(table, f, x, metric, StartAt(b), EndExclusive(b))
  }

  lemma {:induction false} EventsSplit(
    table: seq<Row>, f: SeriesFilter, x: string, metric: Metric, from: int, mid: int, to: int)
    requires from <= mid <= to
    ensures Events(table, f, x, metric, from, to) ==
            Events(table, f, x, metric, from, mid) + Events(table, f, x, metric, mid, to)
  {
    if table == [] {
    } else {
      EventsSplit(table[..|table| - 1], f, x, metric, from, mid, to);
    }
  }

  lemma NextStart(buckets: seq<Bucket>, i: nat)
    requires Contiguous(buckets) && i + 1 < |buckets|
    ensures EndExclusive(buckets[i]) == StartAt(buckets[i + 1])
  {
  }

  lemma {:induction false} ContiguousSpan(buckets: seq<Bucket>)
    requires Contiguous(buckets) && buckets != []
    ensures StartAt(buckets[0]) <= StartAt(buckets[|buckets| - 1]) < EndExclusive(buckets[|buckets| - 1])
  {
    if |buckets| == 1 {
    } else {
      KeysIncrease(buckets, 0, |buckets| - 1);
      var n := |buckets| - 1;
      ContiguousSpan(buckets[..n]);
      assert buckets[..n][n - 1] == buckets[n - 1];
      assert buckets[n - 1 + 1].start == buckets[n - 1].end + 1;
    }
  }

  /** Bucket totals of contiguous buckets add up to the total of the whole span: nothing lost, nothing twice. */
  lemma {:induction false} BucketsPartition(table: seq<Row>, f: SeriesFilter, x: string, metric: Metric, buckets: seq<Bucket>)
    requires Contiguous(buckets) && buckets != []
    ensures SumEvents(table, f, x, metric, buckets) ==
            Events(table, f, x, metric, StartAt(buckets[0]), EndExclusive(buckets[|buckets| - 1]))
  {
    var n := |buckets| - 1;
    var from, mid, to := StartAt(buckets[0]), StartAt(buckets[n]), EndExclusive(buckets[n]);
    ContiguousSpan(buckets);
    if n > 0 {
      NextStart(buckets, n - 1);
      BucketsPartition(table, f, x, metric, buckets[..n]);
      assert SumEvents(table, f, x, metric, buckets[..n]) == Events(table, f, x, metric, from, mid);
      EventsSplit(table, f, x, metric, from, mid, to);
    }
  }

  /**
   * TELESCOPED. Over any contiguous buckets: stock at the last cut = stock before
   * the first bucket + all created - all closed.
   */
  lemma StockFlowTelescoped(table: seq<Row>, f: SeriesFilter, x: string, buckets: seq<Bucket>)
    requires Contiguous(buckets) && buckets != []
    requires forall r | r in table && Joins(f, x, r) && r.closedAt.Some? :: r.createdAt <= r.closedAt.value
    ensures Backlog(table, f, x, EndExclusive(buckets[|buckets| - 1])) ==
            Backlog(table, f, x, StartAt(buckets[0]))
            + SumEvents(table, f, x, CREATED, buckets) - SumEvents(table, f, x, CLOSED, buckets)
  {
    ContiguousSpan(buckets);
    var span := Bucket(buckets[0].start, buckets[|buckets| - 1].end);
    BucketsPartition(table, f, x, CREATED, buckets);
    BucketsPartition(table, f, x, CLOSED, buckets);
    StockFlowIff(table, f, x, span);
  }

  function SumOver(counts: map<int, nat>, buckets: seq<Bucket>): nat
    requires forall i | 0 <= i < |buckets| :: buckets[i].end in counts
  {
    if buckets == [] then 0
    else SumOver(counts, buckets[..|buckets| - 1]) + counts[buckets[|buckets| - 1].end]
  }

  lemma {:induction false} SumOverEvents(
    counts: map<int, nat>, table: seq<Row>, f: SeriesFilter, x: string, metric: Metric, buckets: seq<Bucket>)
    requires forall i | 0 <= i < |buckets| ::
               && buckets[i].end in counts
               && counts[buckets[i].end] == Events(table, f, x, metric, StartAt(buckets[i]), EndExclusive(buckets[i]))
    ensures SumOver(counts, buckets) == SumEvents(table, f, x, metric, buckets)
  {
    if buckets == [] {
    } else {
      SumOverEvents(counts, table, f, x, metric, buckets[..|buckets| - 1]);
    }
  }

  lemma BucketBalance(table: seq<Row>, x: string, buckets: seq<Bucket>, i: nat)
    requires Contiguous(buckets) && i < |buckets|
    requires forall r | r in table && r.coordinationId == Some(x) && r.closedAt.Some? :: r.createdAt <= r.closedAt.value
    ensures Backlog(table, NO_FILTER, x, EndExclusive(buckets[i]))
            + Events(table, NO_FILTER, x, CLOSED, StartAt(buckets[i]), EndExclusive(buckets[i]))
         == Backlog(table, NO_FILTER, x, if i == 0 then StartAt(buckets[0]) else EndExclusive(buckets[i - 1]))
            + Events(table, NO_FILTER, x, CREATED, StartAt(buckets[i]), EndExclusive(buckets[i]))
  {
    StockFlowIff(table, NO_FILTER, x, buckets[i]);
    if i > 0 {
      NextStart(buckets, i - 1);
    }
  }

  /** `aggregateSummary`, its closed count: one pass over the whole period. */
  method SummarizeClosed(table: seq<Row>, x: string, from: int, to: int) returns (closedCount: nat)
    ensures closedCount == Events(table, NO_FILTER, x, CLOSED, from, to)
  {
    var universe := (r: Row) => r.coordinationId == Some(x) && r.closedAt.Some? && from <= r.closedAt.value < to;
    closedCount := CountRows(table, universe);
    CountSame(table, universe, (r: Row) => Joins(NO_FILTER, x, r) && Happened(CLOSED, r, from, to));
  }

  /**
   * The movement series of one state request, as the aggregation loops compute
   * them: every bucket balances against the one before it.
   */
  method Movement(table: seq<Row>, x: string, buckets: seq<Bucket>)
    returns (created: map<int, nat>, closed: map<int, nat>, backlog: map<int, nat>)
    requires Contiguous(buckets) && buckets != []
    requires forall r | r in table && r.coordinationId == Some(x) && r.closedAt.Some? :: r.createdAt <= r.closedAt.value
    ensures Keyed(created, buckets) && Keyed(closed, buckets) && Keyed(backlog, buckets)
    ensures forall i | 0 <= i < |buckets| ::
              backlog[buckets[i].end] + closed[buckets[i].end] ==
              (if i == 0 then Backlog(table, NO_FILTER, x, StartAt(buckets[0])) else backlog[buckets[i - 1].end])
              + created[buckets[i].end]
    ensures backlog[buckets[|buckets| - 1].end] + SumOver(closed, buckets) ==
            Backlog(table, NO_FILTER, x, StartAt(buckets[0])) + SumOver(created, buckets)
  {
    created := AggregateEventMetric(table, x, CREATED, buckets, NO_FILTER);
    closed := AggregateEventMetric(table, x, CLOSED, buckets, NO_FILTER);
    backlog := AggregateBacklog(table, x, buckets, NO_FILTER);
    forall i | 0 <= i < |buckets|
      ensures backlog[buckets[i].end] + closed[buckets[i].end] ==
              (if i == 0 then Backlog(table, NO_FILTER, x, StartAt(buckets[0])) else backlog[buckets[i - 1].end])
              + created[buckets[i].end]
    {
      BucketBalance(table, x, buckets, i);
    }
    SumOverEvents(created, table, NO_FILTER, x, CREATED, buckets);
    SumOverEvents(closed, table, NO_FILTER, x, CLOSED, buckets);
    StockFlowTelescoped(table, NO_FILTER, x, buckets);
  }

  /** The solved series, the resolution counts of each bucket and the summary of the period all agree. */
  method Resolutions(table: seq<Row>, x: string, buckets: seq<Bucket>)
    returns (solved: map<int, nat>, resolved: map<int, nat>, summary: nat)
    requires Contiguous(buckets) && buckets != []
    ensures Keyed(solved, buckets) && Keyed(resolved, buckets)
    ensures forall i | 0 <= i < |buckets| :: solved[buckets[i].end] == resolved[buckets[i].end]
    ensures summary == SumOver(solved, buckets) == SumOver(resolved, buckets)
  {
    solved := AggregateEventMetric(table, x, CLOSED, buckets, NO_FILTER);
    resolved := AggregateClosedByBucket(table, x, buckets);
    summary := SummarizeClosed(table, x, StartAt(buckets[0]), EndExclusive(buckets[|buckets| - 1]));
    SumOverEvents(solved, table, NO_FILTER, x, CLOSED, buckets);
    SumOverEvents(resolved, table, NO_FILTER, x, CLOSED, buckets);
    BucketsPartition(table, NO_FILTER, x, CLOSED, buckets);
  }

  // ----- GROUP BY

  datatype Group = Group(id: Option<string>, count: nat)

  function Bump(groups: seq<Group>, id: Option<string>): seq<Group> {
    if groups == [] then [Group(id, 1)]
    else if groups[0].id == id then [groups[0].(count := groups[0].count + 1)] + groups[1..]
    else [groups[0]] + Bump(groups[1..], id)
  }

  /** Rows satisfying p, counted by group, groups in order of first appearance. */
  function GroupBy(table: seq<Row>, p: Row -> bool, column: Row -> Option<string>): seq<Group> {
    if table == [] then []
    else
      var last := table[|table| - 1];
      var groups := GroupBy(table[..|table| - 1], p, column);
      if p(last) then Bump(groups, column(last)) else groups
  }

  function Total(groups: seq<Group>): nat {
    if groups == [] then 0 else groups[0].count + Total(groups[1..])
  }

  function CountOf(groups: seq<Group>, id: Option<string>): nat {
    if groups == [] then 0
    else if groups[0].id == id then groups[0].count
    else CountOf(groups[1..], id)
  }

  ghost predicate DistinctGroups(groups: seq<Group>) {
    forall i, j | 0 <= i < j < |groups| :: groups[i].id != groups[j].id
  }

  /** One more row of the group, the others as they were. */
  ghost predicate BumpedFrom(bumped: seq<Group>, groups: seq<Group>, id: Option<string>) {
    && DistinctGroups(bumped)
    && Total(bumped) == Total(groups) + 1
    && (forall other :: CountOf(bumped, other) == CountOf(groups, other) + if other == id then 1 else 0)
  }

  lemma {:induction false} BumpCounts(groups: seq<Group>, id: Option<string>)
    requires DistinctGroups(groups)
    ensures BumpedFrom(Bump(groups, id), groups, id)
  {
    if groups == [] {
    } else if groups[0].id == id {
      BumpHead(groups, id);
    } else {
      BumpCounts(groups[1..], id);
      BumpTail(groups, id);
    }
  }

  lemma BumpHead(groups: seq<Group>, id: Option<string>)
    requires groups != [] && groups[0].id == id && DistinctGroups(groups)
    ensures BumpedFrom(Bump(groups, id), groups, id)
  {
    var bumped := Bump(groups, id);
    assert bumped[1..] == groups[1..];
    forall i | 1 <= i < |bumped| ensures bumped[i].id == groups[i].id {
      assert bumped[i] == bumped[1..][i - 1];
    }
  }

  /** What holds of the bumped tail holds of the list, whose head is another group. */
  lemma BumpTail(groups: seq<Group>, id: Option<string>)
    requires groups != [] && groups[0].id != id && DistinctGroups(groups)
    requires BumpedFrom(Bump(groups[1..], id), groups[1..], id)
    ensures BumpedFrom(Bump(groups, id), groups, id)
  {
    var rest, bumped := Bump(groups[1..], id), Bump(groups, id);
    assert bumped == [groups[0]] + rest && bumped[1..] == rest;
    forall i | 1 <= i < |bumped| ensures bumped[i].id != groups[0].id {
      assert bumped[i] == rest[i - 1];
      IdsAreSet(rest, i - 1);
      BumpIds(groups[1..], id);
      if rest[i - 1].id != id {
        var j := SetIsIds(groups[1..], rest[i - 1].id);
        assert groups[j + 1].id == rest[i - 1].id;
      }
    }
    assert bumped[0] == groups[0];
  }

  /** Every counted row falls in exactly one group, and each group holds exactly its own rows. */
  lemma {:induction false} GroupByPartitions(table: seq<Row>, p: Row -> bool, column: Row -> Option<string>, g: Option<string>)
    ensures DistinctGroups(GroupBy(table, p, column))
    ensures Total(GroupBy(table, p, column)) == Count(table, p)
    ensures CountOf(GroupBy(table, p, column), g) == Count(table, (r: Row) => p(r) && column(r) == g)
  {
    if table == [] {
    } else {
      var n := |table| - 1;
      GroupByPartitions(table[..n], p, column, g);
      if p(table[n]) {
        BumpCounts(GroupBy(table[..n], p, column), column(table[n]));
      }
    }
  }

  lemma GroupCountIs(table: seq<Row>, p: Row -> bool, column: Row -> Option<string>, g: Option<string>, q: Row -> bool)
    requires forall r | r in table :: q(r) == (p(r) && column(r) == g)
    ensures CountOf(GroupBy(table, p, column), g) == Count(table, q)
  {
    GroupByPartitions(table, p, column, g);
    CountSame(table, (r: Row) => p(r) && column(r) == g, q);
  }

  method CountGroups(table: seq<Row>, p: Row -> bool, column: Row -> Option<string>) returns (groups: seq<Group>)
    ensures groups == GroupBy(table, p, column)
  {
    groups := [];
    for i := 0 to |table|
      invariant groups == GroupBy(table[..i], p, column)
    {
      assert table[..i + 1][..i] == table[..i];
      if p(table[i]) {
        groups := Bump(groups, column(table[i]));
      }
    }
    assert table[..|table|] == table;
  }

  /** One line of a breakdown query: the bucket key and a group. */
  datatype BreakdownRow = BreakdownRow(key: int, group: Group)

  function Lines(key: int, groups: seq<Group>): (r: seq<BreakdownRow>)
    ensures |r| == |groups|
  {
    seq(|groups|, i requires 0 <= i < |groups| => BreakdownRow(key, groups[i]))
  }

  /** `rows.filter((row) => row.key === key)`. */
  function LinesAt(rows: seq<BreakdownRow>, key: int): seq<Group> {
    if rows == [] then []
    else if rows[0].key == key then [rows[0].group] + LinesAt(rows[1..], key)
    else LinesAt(rows[1..], key)
  }

  lemma {:induction false} LinesAtConcat(a: seq<BreakdownRow>, b: seq<BreakdownRow>, key: int)
    ensures LinesAt(a + b, key) == LinesAt(a, key) + LinesAt(b, key)
  {
    if a == [] {
      assert a + b == b;
    } else {
      assert (a + b)[1..] == a[1..] + b;
      LinesAtConcat(a[1..], b, key);
    }
  }

  lemma {:induction false} LinesAtOwn(key: int, groups: seq<Group>, other: int)
    ensures LinesAt(Lines(key, groups), other) == if other == key then groups else []
  {
    if groups == [] {
    } else {
      assert Lines(key, groups)[1..] == Lines(key, groups[1..]);
      LinesAtOwn(key, groups[1..], other);
    }
  }

  function InternalGroups(table: seq<Row>, x: string, cut: int): seq<Group> {
    GroupBy(table, (r: Row) => r.coordinationId == Some(x) && r.kind == INTERNAL && OpenAt(r, cut), (r: Row) => r.categoryId)
  }

  function ExternalGroups(table: seq<Row>, x: string, cut: int): seq<Group> {
    GroupBy(table, (r: Row) => r.coordinationId == Some(x) && External(r, x) && OpenAt(r, cut), (r: Row) => r.affectedId)
  }

  /** `aggregateActiveInternalByCategory`. */
  method AggregateActiveInternalByCategory(table: seq<Row>, x: string, buckets: seq<Bucket>)
    returns (rows: seq<BreakdownRow>)
    requires Contiguous(buckets)
    ensures forall i | 0 <= i < |buckets| ::
              LinesAt(rows, buckets[i].end) == InternalGroups(table, x, EndExclusive(buckets[i]))
  {
    rows := [];
    for i := 0 to |buckets|
      invariant forall k | 0 <= k < i ::
        LinesAt(rows, buckets[k].end) == InternalGroups(table, x, EndExclusive(buckets[k]))
      invariant forall k | i <= k < |buckets| :: LinesAt(rows, buckets[k].end) == []
    {
      var cut := EndExclusive(buckets[i]);
      var groups := CountGroups(
        table, (r: Row) => r.coordinationId == Some(x) && r.kind == INTERNAL && OpenAt(r, cut), (r: Row) => r.categoryId);
      AddLines(rows, buckets, i, groups);
      rows := rows + Lines(buckets[i].end, groups);
    }
  }

  /** `aggregateActiveExternalByCoordination`. */
  method AggregateActiveExternalByCoordination(table: seq<Row>, x: string, buckets: seq<Bucket>)
    returns (rows: seq<BreakdownRow>)
    requires Contiguous(buckets)
    ensures forall i | 0 <= i < |buckets| ::
              LinesAt(rows, buckets[i].end) == ExternalGroups(table, x, EndExclusive(buckets[i]))
  {
    rows := [];
    for i := 0 to |buckets|
      invariant forall k | 0 <= k < i ::
        LinesAt(rows, buckets[k].end) == ExternalGroups(table, x, EndExclusive(buckets[k]))
      invariant forall k | i <= k < |buckets| :: LinesAt(rows, buckets[k].end) == []
    {
      var cut := EndExclusive(buckets[i]);
      var groups := CountGroups(
        table, (r: Row) => r.coordinationId == Some(x) && External(r, x) && OpenAt(r, cut), (r: Row) => r.affectedId);
      AddLines(rows, buckets, i, groups);
      rows := rows + Lines(buckets[i].end, groups);
    }
  }

  lemma AddLines(rows: seq<BreakdownRow>, buckets: seq<Bucket>, i: nat, groups: seq<Group>)
    requires Contiguous(buckets) && i < |buckets|
    ensures forall k | 0 <= k < |buckets| ::
              LinesAt(rows + Lines(buckets[i].end, groups), buckets[k].end) ==
              LinesAt(rows, buckets[k].end) + if k == i then groups else []
  {
    forall k | 0 <= k < |buckets|
      ensures LinesAt(rows + Lines(buckets[i].end, groups), buckets[k].end) ==
              LinesAt(rows, buckets[k].end) + if k == i then groups else []
    {
      LinesAtConcat(rows, Lines(buckets[i].end, groups), buckets[k].end);
      LinesAtOwn(buckets[i].end, groups, buckets[k].end);
      if k < i { KeysIncrease(buckets, k, i); } else if i < k { KeysIncrease(buckets, i, k); }
    }
  }

  const UNCATEGORIZED_ID: string := "00000000-0000-4000-8000-000000000099"

  /** The category id a line of the internal breakdown is shown under. */
  function ShownCategory(id: Option<string>): string {
    if id.Some? && id.value != "" then id.value else UNCATEGORIZED_ID
  }

  datatype CategoryLine = CategoryLine(categoryId: string, count: nat)

  function ShownLines(groups: seq<Group>): (r: seq<CategoryLine>)
    ensures |r| == |groups|
  {
    if groups == [] then []
    else [CategoryLine(ShownCategory(groups[0].id), groups[0].count)] + ShownLines(groups[1..])
  }

  function LineTotal(lines: seq<CategoryLine>): nat {
    if lines == [] then 0 else lines[0].count + LineTotal(lines[1..])
  }

  /** What the lines under one shown id add up to. */
  function ShownUnder(lines: seq<CategoryLine>, categoryId: string): nat {
    if lines == [] then 0
    else (if lines[0].categoryId == categoryId then lines[0].count else 0) + ShownUnder(lines[1..], categoryId)
  }

  lemma {:induction false} ShownLineAt(groups: seq<Group>, i: nat)
    requires i < |groups|
    ensures ShownLines(groups)[i] == CategoryLine(ShownCategory(groups[i].id), groups[i].count)
  {
    if i == 0 {
    } else {
      ShownLineAt(groups[1..], i - 1);
    }
  }

  lemma {:induction false} ShownTotal(groups: seq<Group>)
    ensures LineTotal(ShownLines(groups)) == Total(groups)
  {
    if groups == [] {
    } else {
      ShownTotal(groups[1..]);
      assert ShownLines(groups)[1..] == ShownLines(groups[1..]);
    }
  }

  /** Bumping a group adds one under its shown id. */
  lemma {:induction false} BumpShown(groups: seq<Group>, id: Option<string>, categoryId: string)
    ensures ShownUnder(ShownLines(Bump(groups, id)), categoryId) ==
            ShownUnder(ShownLines(groups), categoryId) + if ShownCategory(id) == categoryId then 1 else 0
  {
    if groups == [] {
      assert ShownLines([Group(id, 1)]) == [CategoryLine(ShownCategory(id), 1)];
    } else {
      var bumped := Bump(groups, id);
      assert ShownLines(groups)[1..] == ShownLines(groups[1..]);
      assert ShownLines(bumped)[1..] == ShownLines(bumped[1..]);
      if groups[0].id == id {
        assert bumped[1..] == groups[1..];
      } else {
        assert bumped[1..] == Bump(groups[1..], id);
        BumpShown(groups[1..], id, categoryId);
      }
    }
  }

  /**
   * Whatever the data, the lines shown under one category id add up to the counted
   * rows of that category, those without category under the uncategorised id.
   */
  lemma {:induction false} ShownUnderCounts(
    table: seq<Row>, p: Row -> bool, column: Row -> Option<string>, categoryId: string)
    ensures ShownUnder(ShownLines(GroupBy(table, p, column)), categoryId) ==
            Count(table, (r: Row) => p(r) && ShownCategory(column(r)) == categoryId)
  {
    if table == [] {
    } else {
      var n := |table| - 1;
      ShownUnderCounts(table[..n], p, column, categoryId);
      BumpShown(GroupBy(table[..n], p, column), column(table[n]), categoryId);
    }
  }

  ghost predicate DistinctLines(lines: seq<CategoryLine>) {
    forall i, j | 0 <= i < j < |lines| :: lines[i].categoryId != lines[j].categoryId
  }

  /** An active internal case of exactly this category column. */
  ghost predicate HasActiveInternal(table: seq<Row>, x: string, cut: int, category: Option<string>) {
    exists r :: r in table && r.coordinationId == Some(x) && r.kind == INTERNAL && OpenAt(r, cut) && r.categoryId == category
  }

  /** Two different category columns in use are shown under one id. */
  ghost predicate SharedEntry(table: seq<Row>, x: string, cut: int) {
    exists a, b :: a != b && ShownCategory(a) == ShownCategory(b)
                   && HasActiveInternal(table, x, cut, a) && HasActiveInternal(table, x, cut, b)
  }

  /** Sharing can only happen on the uncategorised entry: no category, an empty id, the reserved id. */
  lemma SharedIsUncategorised(a: Option<string>, b: Option<string>)
    requires a != b
    ensures ShownCategory(a) == ShownCategory(b) <==>
            a in {None, Some(""), Some(UNCATEGORIZED_ID)} && b in {None, Some(""), Some(UNCATEGORIZED_ID)}
  {
  }

  /** The shown lines have distinct ids exactly when no two columns in use share the uncategorised entry. */
  lemma ShownCategoriesDistinct(table: seq<Row>, x: string, cut: int)
    ensures DistinctLines(ShownLines(InternalGroups(table, x, cut))) <==> !SharedEntry(table, x, cut)
  {
    var groups := InternalGroups(table, x, cut);
    ActiveIffGroup(table, x, cut);
    forall i | 0 <= i < |groups| ensures ShownLines(groups)[i].categoryId == ShownCategory(groups[i].id) {
      ShownLineAt(groups, i);
    }
    if SharedEntry(table, x, cut) {
      var a, b :| a != b && ShownCategory(a) == ShownCategory(b)
                  && HasActiveInternal(table, x, cut, a) && HasActiveInternal(table, x, cut, b);
      var i := SetIsIds(groups, a);
      var j := SetIsIds(groups, b);
      assert ShownLines(groups)[i].categoryId == ShownLines(groups)[j].categoryId;
    } else {
      forall i, j | 0 <= i < j < |groups|
        ensures ShownLines(groups)[i].categoryId != ShownLines(groups)[j].categoryId
      {
        IdsAreSet(groups, i);
        IdsAreSet(groups, j);
        assert HasActiveInternal(table, x, cut, groups[i].id) && HasActiveInternal(table, x, cut, groups[j].id);
      }
    }
  }

  lemma ActiveIffGroup(table: seq<Row>, x: string, cut: int)
    ensures DistinctGroups(InternalGroups(table, x, cut))
    ensures forall g :: g in IdSet(InternalGroups(table, x, cut)) <==> HasActiveInternal(table, x, cut, g)
  {
    var p := (r: Row) => r.coordinationId == Some(x) && r.kind == INTERNAL && OpenAt(r, cut);
    var column := (r: Row) => r.categoryId;
    GroupByPartitions(table, p, column, None);
    forall g ensures g in IdSet(InternalGroups(table, x, cut)) <==> HasActiveInternal(table, x, cut, g) {
      GroupIff(table, p, column, g);
    }
  }

  function IdSet(groups: seq<Group>): set<Option<string>> {
    if groups == [] then {} else {groups[0].id} + IdSet(groups[1..])
  }

  lemma {:induction false} IdsAreSet(groups: seq<Group>, i: nat)
    requires i < |groups|
    ensures groups[i].id in IdSet(groups)
  {
    if i == 0 {
    } else {
      IdsAreSet(groups[1..], i - 1);
    }
  }

  lemma {:induction false} SetIsIds(groups: seq<Group>, g: Option<string>) returns (i: nat)
    requires g in IdSet(groups)
    ensures i < |groups| && groups[i].id == g
  {
    if groups[0].id == g {
      i := 0;
    } else {
      i := SetIsIds(groups[1..], g);
      i := i + 1;
    }
  }

  lemma {:induction false} BumpIds(groups: seq<Group>, id: Option<string>)
    ensures IdSet(Bump(groups, id)) == IdSet(groups) + {id}
  {
    if groups == [] {
    } else if groups[0].id == id {
      assert Bump(groups, id)[1..] == groups[1..];
    } else {
      BumpIds(groups[1..], id);
      assert Bump(groups, id)[1..] == Bump(groups[1..], id);
    }
  }

  /** A group exists exactly when a counted row falls in it. */
  lemma {:induction false} GroupIff(table: seq<Row>, p: Row -> bool, column: Row -> Option<string>, g: Option<string>)
    ensures g in IdSet(GroupBy(table, p, column)) <==> exists r :: r in table && p(r) && column(r) == g
  {
    if table == [] {
    } else {
      var n := |table| - 1;
      GroupIff(table[..n], p, column, g);
      BumpIds(GroupBy(table[..n], p, column), column(table[n]));
      assert table[n] in table;
      assert forall r :: r in table <==> r in table[..n] || r == table[n];
    }
  }

  datatype ActiveLoad = ActiveLoad(
    total: nat, internal: nat, external: nat, internalBreakdown: seq<CategoryLine>, externalBreakdown: seq<Group>)

  /** The `active` object of one flow slot of `getState`. */
  function ActiveOf(byKind: map<int, Kinds>, byCategory: seq<BreakdownRow>, byCoordination: seq<BreakdownRow>, key: int): ActiveLoad {
    var kinds := if key in byKind then byKind[key] else Kinds(0, 0);
    ActiveLoad(
      kinds.internal + kinds.external, kinds.internal, kinds.external,
      ShownLines(LinesAt(byCategory, key)), LinesAt(byCoordination, key))
  }

  lemma {:induction false} CountSplit(table: seq<Row>, x: string, cut: int)
    ensures Active(table, x, cut) == ActiveInternal(table, x, cut) + ActiveExternal(table, x, cut)
  {
    if table == [] {
    } else {
      CountSplit(table[..|table| - 1], x, cut);
    }
  }

  lemma BreakdownsMatch(table: seq<Row>, x: string, cut: int)
    ensures Total(InternalGroups(table, x, cut)) == ActiveInternal(table, x, cut)
    ensures Total(ExternalGroups(table, x, cut)) == ActiveExternal(table, x, cut)
    ensures DistinctGroups(InternalGroups(table, x, cut)) && DistinctGroups(ExternalGroups(table, x, cut))
  {
    var internal := (r: Row) => r.coordinationId == Some(x) && r.kind == INTERNAL && OpenAt(r, cut);
    var external := (r: Row) => r.coordinationId == Some(x) && External(r, x) && OpenAt(r, cut);
    GroupByPartitions(table, internal, (r: Row) => r.categoryId, None);
    GroupByPartitions(table, external, (r: Row) => r.affectedId, None);
    CountSame(table, internal, (r: Row) => ActiveAtCut(r, x, cut) && r.kind == INTERNAL);
    CountSame(table, external, (r: Row) => ActiveAtCut(r, x, cut) && r.kind == INTER_COORDINATION);
  }

  /**
   * LOAD. At every bucket the load of `getState` is the number of active cases,
   * split into internal and external, and each part is the sum of its breakdown:
   * no case is lost or counted twice. What is shown under a category id, the
   * uncategorised one included, is exactly the number of its active cases.
   */
  method StateLoad(table: seq<Row>, x: string, buckets: seq<Bucket>) returns (load: seq<ActiveLoad>)
    requires Contiguous(buckets)
    ensures |load| == |buckets|
    ensures forall i | 0 <= i < |buckets| ::
              && load[i].total == Active(table, x, EndExclusive(buckets[i]))
              && load[i].total == load[i].internal + load[i].external
              && load[i].internal == LineTotal(load[i].internalBreakdown)
              && load[i].external == Total(load[i].externalBreakdown)
              && DistinctGroups(load[i].externalBreakdown)
    ensures forall i | 0 <= i < |buckets| ::
              load[i].externalBreakdown == ExternalGroups(table, x, EndExclusive(buckets[i]))
    ensures forall i, category | 0 <= i < |buckets| ::
              ShownUnder(load[i].internalBreakdown, category) == ActiveShown(table, x, EndExclusive(buckets[i]), category)
    ensures forall i | 0 <= i < |buckets| ::
              DistinctLines(load[i].internalBreakdown) <==> !SharedEntry(table, x, EndExclusive(buckets[i]))
  {
    var byKind := AggregateActiveByKind(table, x, buckets);
    var byCategory := AggregateActiveInternalByCategory(table, x, buckets);
    var byCoordination := AggregateActiveExternalByCoordination(table, x, buckets);
    load := seq(|buckets|, i requires 0 <= i < |buckets| => ActiveOf(byKind, byCategory, byCoordination, buckets[i].end));
    forall i | 0 <= i < |buckets|
      ensures load[i].total == Active(table, x, EndExclusive(buckets[i]))
      ensures load[i].internal == LineTotal(load[i].internalBreakdown) && load[i].external == Total(load[i].externalBreakdown)
      ensures DistinctGroups(load[i].externalBreakdown)
      ensures DistinctLines(load[i].internalBreakdown) <==> !SharedEntry(table, x, EndExclusive(buckets[i]))
    {
      CountSplit(table, x, EndExclusive(buckets[i]));
      BreakdownsMatch(table, x, EndExclusive(buckets[i]));
      ShownTotal(InternalGroups(table, x, EndExclusive(buckets[i])));
      ShownCategoriesDistinct(table, x, EndExclusive(buckets[i]));
    }
    forall i, category | 0 <= i < |buckets|
      ensures ShownUnder(load[i].internalBreakdown, category) == ActiveShown(table, x, EndExclusive(buckets[i]), category)
    {
      ShownIsActive(table, x, EndExclusive(buckets[i]), category);
    }
  }

  /** The active internal cases that belong under a shown category id. */
  function ActiveShown(table: seq<Row>, x: string, cut: int, category: string): nat {
    Count(table, (r: Row) => ActiveAtCut(r, x, cut) && r.kind == INTERNAL && ShownCategory(r.categoryId) == category)
  }

  lemma ShownIsActive(table: seq<Row>, x: string, cut: int, category: string)
    ensures ShownUnder(ShownLines(InternalGroups(table, x, cut)), category) == ActiveShown(table, x, cut, category)
  {
    var p := (r: Row) => r.coordinationId == Some(x) && r.kind == INTERNAL && OpenAt(r, cut);
    var column := (r: Row) => r.categoryId;
    ShownUnderCounts(table, p, column, category);
    CountSame(table, (r: Row) => p(r) && ShownCategory(column(r)) == category,
              (r: Row) => ActiveAtCut(r, x, cut) && r.kind == INTERNAL && ShownCategory(r.categoryId) == category);
  }

  /** A line of the internal breakdown counts exactly the active internal cases of its category, missing category included. */
  lemma CategoryLineIsExact(table: seq<Row>, x: string, cut: int, category: Option<string>)
    ensures CountOf(InternalGroups(table, x, cut), category) ==
            Count(table, (r: Row) => ActiveAtCut(r, x, cut) && r.kind == INTERNAL && r.categoryId == category)
    ensures CountOf(ExternalGroups(table, x, cut), category) ==
            Count(table, (r: Row) => ActiveAtCut(r, x, cut) && r.kind == INTER_COORDINATION && r.affectedId == category)
  {
    var internal := (r: Row) => r.coordinationId == Some(x) && r.kind == INTERNAL && OpenAt(r, cut);
    var external := (r: Row) => r.coordinationId == Some(x) && External(r, x) && OpenAt(r, cut);
    GroupCountIs(table, internal, (r: Row) => r.categoryId, category,
                 (r: Row) => ActiveAtCut(r, x, cut) && r.kind == INTERNAL && r.categoryId == category);
    GroupCountIs(table, external, (r: Row) => r.affectedId, category,
                 (r: Row) => ActiveAtCut(r, x, cut) && r.kind == INTER_COORDINATION && r.affectedId == category);
  }
}
