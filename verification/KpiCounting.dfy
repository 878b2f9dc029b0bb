/** The rows the KPI queries read, their conditions, and the aggregations as the code runs them. */
module KpiCounting {
  import opened Common
  import opened Seqs

  /** The columns of `situations` the KPI queries use; `NULL` is `None`. */
  datatype Row = Row(
    id: nat,
    kind: ReportKind,
    coordinationId: Option<string>,
    affectedId: Option<string>,
    categoryId: Option<string>,
    createdAt: int,
    closedAt: Option<int>)

  // ----- days and buckets (Bogotá keeps one offset all year)

  const BOGOTA_OFFSET_MS: int := 5 * HOUR_MS

  /** The instant 00:00 of a civil day in Bogotá. */
  function DayStart(day: int): (r: int)
    ensures r == day * 86_400_000 + 18_000_000
  {
    day * DAY_MS + BOGOTA_OFFSET_MS
  }

  /** A run of days, both included; its key in every result is its last day. */
  datatype Bucket = Bucket(start: int, end: int)

  function StartAt(b: Bucket): int {
    DayStart(b.start)
  }

  function EndExclusive(b: Bucket): int {
    DayStart(b.end + 1)
  }

  ghost predicate Contiguous(buckets: seq<Bucket>) {
    && (forall i | 0 <= i < |buckets| :: buckets[i].start <= buckets[i].end)
    && (forall i | 0 <= i < |buckets| - 1 :: buckets[i + 1].start == buckets[i].end + 1)
  }

  lemma {:induction false} KeysIncrease(buckets: seq<Bucket>, i: nat, j: nat)
    requires Contiguous(buckets) && i < j < |buckets|
    ensures buckets[i].end < buckets[j].end
    decreases j
  {
    if i + 1 < j {
      KeysIncrease(buckets, i, j - 1);
    }
  }

  // ----- conditions

  datatype Category = AnyCategory | NoCategory | OneCategory(id: string)

  datatype Side = Commitment | Dependency

  datatype Partner = Partner(owner: string, partner: string, side: Side)

  datatype SeriesFilter = SeriesFilter(reportKind: Option<ReportKind>, category: Category, partner: Option<Partner>)

  const NO_FILTER: SeriesFilter := SeriesFilter(None, AnyCategory, None)

  /** `buildSituationJoin`. */
  predicate Joins(f: SeriesFilter, coordination: string, r: Row) {
    if f.partner.Some? then
      var p := f.partner.value;
      && r.kind == INTER_COORDINATION
      && (match p.side
          case Commitment => r.coordinationId == Some(p.owner) && r.affectedId == Some(p.partner)
          case Dependency => r.coordinationId == Some(p.partner) && r.affectedId == Some(p.owner))
    else
      && r.coordinationId == Some(coordination)
      && (f.reportKind.Some? ==> r.kind == f.reportKind.value)
      && (match f.category
          case AnyCategory => true
          case NoCategory => r.categoryId.None?
          case OneCategory(id) => r.categoryId == Some(id))
  }

  datatype Metric = CREATED | CLOSED

  predicate Happened(metric: Metric, r: Row, from: int, to: int) {
    match metric
    case CREATED => from <= r.createdAt < to
    case CLOSED => r.closedAt.Some? && from <= r.closedAt.value < to
  }

  /** In stock at the exclusive cut T. */
  predicate OpenAt(r: Row, cut: int) {
    r.createdAt < cut && (r.closedAt.None? || r.closedAt.value >= cut)
  }

  predicate External(r: Row, coordination: string) {
    r.kind == INTER_COORDINATION && r.affectedId != Some(coordination)
  }

  /** `activeAtCutCondition`. */
  predicate ActiveAtCut(r: Row, coordination: string, cut: int) {
    && r.coordinationId == Some(coordination)
    && OpenAt(r, cut)
    && (r.kind == INTERNAL || External(r, coordination))
  }

  /** A filter by partner asks for one owner and one partner of an INTER case: the owner is responsible in a commitment, affected in a dependency. */
  lemma PartnerSeries(f: SeriesFilter, x: string, r: Row)
    requires f.partner.Some?
    ensures var p := f.partner.value;
            && (p.side == Commitment ==>
                 (Joins(f, x, r) <==> r.kind != INTERNAL && (r.coordinationId, r.affectedId) == (Some(p.owner), Some(p.partner))))
            && (p.side == Dependency ==>
                 (Joins(f, x, r) <==> r.kind != INTERNAL && (r.affectedId, r.coordinationId) == (Some(p.owner), Some(p.partner))))
  {
  }

  /** Otherwise the series is that of the responsible coordination, narrowed by kind and category when asked. */
  lemma OwnSeries(f: SeriesFilter, x: string, r: Row)
    requires f.partner.None?
    ensures Joins(f, x, r) ==> r.coordinationId == Some(x)
    ensures f == NO_FILTER && r.coordinationId == Some(x) ==> Joins(f, x, r)
    ensures Joins(f, x, r) <==>
            && Joins(NO_FILTER, x, r)
            && (f.reportKind == None || f.reportKind == Some(r.kind))
            && (f.category == AnyCategory || (f.category == NoCategory && r.categoryId == None)
                || (r.categoryId.Some? && f.category == OneCategory(r.categoryId.value)))
  {
  }

  /** An event falls in the half-open interval by its own column; what is not closed has no closing event. */
  lemma EventColumns(r: Row, from: int, to: int)
    ensures Happened(CREATED, r, from, to) <==> from <= r.createdAt && r.createdAt < to
    ensures r.closedAt.None? ==> !Happened(CLOSED, r, from, to)
    ensures r.closedAt.Some? ==> (Happened(CLOSED, r, from, to) <==> from <= r.closedAt.value && r.closedAt.value < to)
  {
  }

  /** In stock from its creation (excluded at that very cut) up to the cut of its closing instant, included. */
  lemma StockColumns(r: Row, cut: int)
    ensures r.closedAt.None? ==> (OpenAt(r, cut) <==> r.createdAt < cut)
    ensures r.closedAt.Some? ==> (OpenAt(r, cut) <==> r.createdAt < cut && cut <= r.closedAt.value)
  {
  }

  /** The load: the responsible coordination's stock, its own cases and those that affect somebody else. */
  lemma LoadColumns(r: Row, x: string, cut: int)
    ensures ActiveAtCut(r, x, cut) <==>
            OpenAt(r, cut) && r.coordinationId == Some(x) && !(r.kind == INTER_COORDINATION && r.affectedId == Some(x))
  {
  }

  // ----- counting

  /** Counting is filtering. */
  lemma {:induction false} CountIsFilter(table: seq<Row>, p: Row -> bool)
    ensures Count(table, p) == |Filter(p, table)|
  {
    if table == [] {
    } else {
      var n := |table| - 1;
      CountIsFilter(table[..n], p);
      assert table == table[..n] + [table[n]];
      FilterConcat(p, table[..n], [table[n]]);
    }
  }

  function Count(table: seq<Row>, p: Row -> bool): nat {
    if table == [] then 0
    else Count(table[..|table| - 1], p) + if p(table[|table| - 1]) then 1 else 0
  }

  function Events(table: seq<Row>, f: SeriesFilter, x: string, metric: Metric, from: int, to: int): nat {
    Count(table, (r: Row) => Joins(f, x, r) && Happened(metric, r, from, to))
  }

  function Backlog(table: seq<Row>, f: SeriesFilter, x: string, cut: int): nat {
    Count(table, (r: Row) => Joins(f, x, r) && OpenAt(r, cut))
  }

  function Active(table: seq<Row>, x: string, cut: int): nat {
    Count(table, (r: Row) => ActiveAtCut(r, x, cut))
  }

  function ActiveInternal(table: seq<Row>, x: string, cut: int): nat {
    Count(table, (r: Row) => ActiveAtCut(r, x, cut) && r.kind == INTERNAL)
  }

  function ActiveExternal(table: seq<Row>, x: string, cut: int): nat {
    Count(table, (r: Row) => ActiveAtCut(r, x, cut) && r.kind == INTER_COORDINATION)
  }

  /** `COUNT(s.id)` over the rows that join one bucket. */
  method CountRows(table: seq<Row>, p: Row -> bool) returns (n: nat)
    ensures n == Count(table, p)
  {
    n := 0;
    for i := 0 to |table|
      invariant n == Count(table[..i], p)
    {
      assert table[..i + 1][..i] == table[..i];
      if p(table[i]) {
        n := n + 1;
      }
    }
    assert table[..|table|] == table;
  }

  ghost predicate Keyed<T>(counts: map<int, T>, buckets: seq<Bucket>) {
    forall key :: key in counts <==> exists i :: 0 <= i < |buckets| && buckets[i].end == key
  }

  /** Writing the entry of one bucket leaves the keys and the entries of the others. */
  lemma SetKeeps<T>(counts: map<int, T>, buckets: seq<Bucket>, i: nat, value: T)
    requires Contiguous(buckets) && i < |buckets| && Keyed(counts, buckets)
    ensures Keyed(counts[buckets[i].end := value], buckets)
    ensures forall k | 0 <= k < |buckets| && k != i :: counts[buckets[i].end := value][buckets[k].end] == counts[buckets[k].end]
  {
    forall k | 0 <= k < |buckets| && k != i ensures buckets[k].end != buckets[i].end {
      if k < i { KeysIncrease(buckets, k, i); } else { KeysIncrease(buckets, i, k); }
    }
  }

  /** Writing a further bucket adds its key. */
  lemma AddKeeps<T>(counts: map<int, T>, buckets: seq<Bucket>, i: nat, value: T)
    requires i < |buckets| && Keyed(counts, buckets[..i])
    ensures Keyed(counts[buckets[i].end := value], buckets[..i + 1])
  {
    var after, before, now := counts[buckets[i].end := value], buckets[..i], buckets[..i + 1];
    assert now == before + [buckets[i]];
    forall key ensures key in after <==> exists k :: 0 <= k < |now| && now[k].end == key {
      if key in counts {
        var k :| 0 <= k < |before| && before[k].end == key;
        assert now[k].end == key;
      }
      if key == buckets[i].end {
        assert now[i].end == key;
      }
      if k :| 0 <= k < |now| && now[k].end == key {
        assert k < i ==> before[k].end == key;
      }
    }
  }

  /** `aggregateEventMetric`: zeros first, then one total for each bucket. */
  method AggregateEventMetric(table: seq<Row>, x: string, metric: Metric, buckets: seq<Bucket>, f: SeriesFilter)
    returns (counts: map<int, nat>)
    requires Contiguous(buckets)
    ensures Keyed(counts, buckets)
    ensures forall i | 0 <= i < |buckets| ::
              counts[buckets[i].end] == Events(table, f, x, metric, StartAt(buckets[i]), EndExclusive(buckets[i]))
  {
    counts := map[];
    for i := 0 to |buckets|
      invariant Keyed(counts, buckets[..i])
    {
      AddKeeps(counts, buckets, i, 0);
      counts := counts[buckets[i].end := 0];
    }
    assert buckets[..|buckets|] == buckets;
    for i := 0 to |buckets|
      invariant Keyed(counts, buckets)
      invariant forall k | 0 <= k < i ::
        counts[buckets[k].end] == Events(table, f, x, metric, StartAt(buckets[k]), EndExclusive(buckets[k]))
    {
      var from, to := StartAt(buckets[i]), EndExclusive(buckets[i]);
      var total := CountRows(table, (r: Row) => Joins(f, x, r) && Happened(metric, r, from, to));
      SetKeeps(counts, buckets, i, total);
      counts := counts[buckets[i].end := total];
    }
  }

  /** `aggregateBacklog`: the stock at the end of each bucket. */
  method AggregateBacklog(table: seq<Row>, x: string, buckets: seq<Bucket>, f: SeriesFilter) returns (counts: map<int, nat>)
    requires Contiguous(buckets)
    ensures Keyed(counts, buckets)
    ensures forall i | 0 <= i < |buckets| ::
              counts[buckets[i].end] == Backlog(table, f, x, EndExclusive(buckets[i]))
  {
    counts := map[];
    for i := 0 to |buckets|
      invariant Keyed(counts, buckets[..i])
    {
      AddKeeps(counts, buckets, i, 0);
      counts := counts[buckets[i].end := 0];
    }
    assert buckets[..|buckets|] == buckets;
    for i := 0 to |buckets|
      invariant Keyed(counts, buckets)
      invariant forall k | 0 <= k < i ::
        counts[buckets[k].end] == Backlog(table, f, x, EndExclusive(buckets[k]))
    {
      var cut := EndExclusive(buckets[i]);
      var total := CountRows(table, (r: Row) => Joins(f, x, r) && OpenAt(r, cut));
      SetKeeps(counts, buckets, i, total);
      counts := counts[buckets[i].end := total];
    }
  }

  datatype Kinds = Kinds(internal: nat, external: nat)

  /** `aggregateActiveByKind`. */
  method AggregateActiveByKind(table: seq<Row>, x: string, buckets: seq<Bucket>) returns (counts: map<int, Kinds>)
    requires Contiguous(buckets)
    ensures Keyed(counts, buckets)
    ensures forall i | 0 <= i < |buckets| ::
              var cut := EndExclusive(buckets[i]);
              counts[buckets[i].end] == Kinds(ActiveInternal(table, x, cut), ActiveExternal(table, x, cut))
  {
    counts := map[];
    for i := 0 to |buckets|
      invariant Keyed(counts, buckets[..i])
    {
      AddKeeps(counts, buckets, i, Kinds(0, 0));
      counts := counts[buckets[i].end := Kinds(0, 0)];
    }
    assert buckets[..|buckets|] == buckets;
    for i := 0 to |buckets|
      invariant Keyed(counts, buckets)
      invariant forall k | 0 <= k < i ::
        var cut := EndExclusive(buckets[k]);
        counts[buckets[k].end] == Kinds(ActiveInternal(table, x, cut), ActiveExternal(table, x, cut))
    {
      var cut := EndExclusive(buckets[i]);
      var internal := CountRows(table, (r: Row) => ActiveAtCut(r, x, cut) && r.kind == INTERNAL);
      var external := CountRows(table, (r: Row) => ActiveAtCut(r, x, cut) && r.kind == INTER_COORDINATION);
      SetKeeps(counts, buckets, i, Kinds(internal, external));
      counts := counts[buckets[i].end := Kinds(internal, external)];
    }
  }

  /** `aggregateByBucket` of the resolution repository, its closed counts; it does not fill zeros first. */
  method AggregateClosedByBucket(table: seq<Row>, x: string, buckets: seq<Bucket>) returns (stats: map<int, nat>)
    requires Contiguous(buckets)
    ensures Keyed(stats, buckets)
    ensures forall i | 0 <= i < |buckets| ::
              stats[buckets[i].end] == Events(table, NO_FILTER, x, CLOSED, StartAt(buckets[i]), EndExclusive(buckets[i]))
  {
    stats := map[];
    for i := 0 to |buckets|
      invariant Keyed(stats, buckets[..i])
      invariant forall k | 0 <= k < i ::
        stats[buckets[k].end] == Events(table, NO_FILTER, x, CLOSED, StartAt(buckets[k]), EndExclusive(buckets[k]))
    {
      var from, to := StartAt(buckets[i]), EndExclusive(buckets[i]);
      var universe := (r: Row) => r.coordinationId == Some(x) && r.closedAt.Some? && from <= r.closedAt.value < to;
      var closed := CountRows(table, universe);
      CountSame(table, universe, (r: Row) => Joins(NO_FILTER, x, r) && Happened(CLOSED, r, from, to));
      forall k | 0 <= k < i ensures buckets[k].end != buckets[i].end {
        KeysIncrease(buckets, k, i);
      }
      AddKeeps(stats, buckets, i, closed);
      stats := stats[buckets[i].end := closed];
    }
    assert buckets[..|buckets|] == buckets;
  }

  lemma {:induction false} CountSame(table: seq<Row>, p: Row -> bool, q: Row -> bool)
    requires forall r | r in table :: p(r) == q(r)
    ensures Count(table, p) == Count(table, q)
  {
    if table == [] {
    } else {
      assert table[|table| - 1] in table;
      CountSame(table[..|table| - 1], p, q);
    }
  }
}
