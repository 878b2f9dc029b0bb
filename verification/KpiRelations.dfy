/** Dependencies between coordinations: who owes whom, counted from both ends. */
module KpiRelations {
  import opened Common
  import opened KpiCounting
  import opened Seqs

  datatype RelationMetric = CreatedIn | ClosedIn | BacklogAt

  /** The condition of one metric over the days `from`..`to`; the stock only looks at its end. */
  predicate InRange(metric: RelationMetric, r: Row, from: int, to: int) {
    match metric
    case CreatedIn => Happened(CREATED, r, DayStart(from), DayStart(to + 1))
    case ClosedIn => Happened(CLOSED, r, DayStart(from), DayStart(to + 1))
    case BacklogAt => OpenAt(r, DayStart(to + 1))
  }

  datatype Query = Query(metric: RelationMetric, from: int, to: int)

  function OwnerOf(side: Side, r: Row): Option<string> {
    if side == Commitment then r.coordinationId else r.affectedId
  }

  function PartnerOf(side: Side, r: Row): Option<string> {
    if side == Commitment then r.affectedId else r.coordinationId
  }

  /** One joined row of `aggregateSide`: owner x, another partner y. */
  predicate Relates(q: Query, side: Side, x: string, y: string, r: Row) {
    && r.kind == INTER_COORDINATION
    && OwnerOf(side, r) == Some(x)
    && PartnerOf(side, r) == Some(y)
    && y != x
    && InRange(q.metric, r, q.from, q.to)
  }

  function Pair(table: seq<Row>, q: Query, side: Side, x: string, y: string): nat {
    Count(table, (r: Row) => Relates(q, side, x, y, r))
  }

  datatype RelationRow = RelationRow(coordinationId: string, value: nat)

  /** A line for each catalogued partner with a positive value. */
  function Lines(catalog: seq<string>, value: string -> nat): seq<RelationRow> {
    if catalog == [] then []
    else AddLine(Lines(catalog[..|catalog| - 1], value), catalog[|catalog| - 1], value(catalog[|catalog| - 1]))
  }

  /** `aggregateSide`: a line for each catalogued partner with at least one case. */
  function AggregateSide(table: seq<Row>, catalog: seq<string>, q: Query, side: Side, x: string): seq<RelationRow> {
    Lines(catalog, (y: string) => Pair(table, q, side, x, y))
  }

  function AddLine(rows: seq<RelationRow>, partner: string, value: nat): seq<RelationRow> {
    if value > 0 then rows + [RelationRow(partner, value)] else rows
  }

  function AggregateCommitments(table: seq<Row>, catalog: seq<string>, q: Query, x: string): seq<RelationRow> {
    AggregateSide(table, catalog, q, Commitment, x)
  }

  function AggregateDependencies(table: seq<Row>, catalog: seq<string>, q: Query, x: string): seq<RelationRow> {
    AggregateSide(table, catalog, q, Dependency, x)
  }

  /** The value shown for a partner; no line means zero. */
  function ValueFor(rows: seq<RelationRow>, y: string): nat {
    if rows == [] then 0
    else if rows[|rows| - 1].coordinationId == y then rows[|rows| - 1].value
    else ValueFor(rows[..|rows| - 1], y)
  }

  function Sum(rows: seq<RelationRow>): nat {
    if rows == [] then 0 else Sum(rows[..|rows| - 1]) + rows[|rows| - 1].value
  }

  lemma LineOfPartner(table: seq<Row>, catalog: seq<string>, q: Query, side: Side, x: string, y: string)
    requires Distinct(catalog)
    ensures ValueFor(AggregateSide(table, catalog, q, side, x), y) ==
            if y in catalog then Pair(table, q, side, x, y) else 0
  {
    LinesShow(catalog, (z: string) => Pair(table, q, side, x, z), y);
  }

  lemma {:induction false} LinesShow(catalog: seq<string>, value: string -> nat, y: string)
    requires Distinct(catalog)
    ensures ValueFor(Lines(catalog, value), y) == if y in catalog then value(y) else 0
  {
    if catalog == [] {
    } else {
      var n := |catalog| - 1;
      LinesShow(catalog[..n], value, y);
      assert y in catalog[..n] ==> y != catalog[n];
      AddLineShows(Lines(catalog[..n], value), catalog[n], value(catalog[n]), y);
    }
  }

  lemma AddLineShows(rows: seq<RelationRow>, partner: string, value: nat, y: string)
    requires y == partner ==> ValueFor(rows, y) == 0
    ensures ValueFor(AddLine(rows, partner, value), y) == if y == partner then value else ValueFor(rows, y)
  {
    assert (rows + [RelationRow(partner, value)])[..|rows|] == rows;
  }

  lemma AddLineAdds(rows: seq<RelationRow>, partner: string, value: nat)
    ensures Sum(AddLine(rows, partner, value)) == Sum(rows) + value
  {
    assert (rows + [RelationRow(partner, value)])[..|rows|] == rows;
  }

  /** DUALITY. X's commitments toward Y are Y's dependencies on X, for every metric and range. */
  lemma CommitmentsAreDependencies(table: seq<Row>, catalog: seq<string>, q: Query, x: string, y: string)
    requires Distinct(catalog) && x in catalog && y in catalog
    ensures ValueFor(AggregateCommitments(table, catalog, q, x), y)
         == ValueFor(AggregateDependencies(table, catalog, q, y), x)
  {
    LineOfPartner(table, catalog, q, Commitment, x, y);
    LineOfPartner(table, catalog, q, Dependency, y, x);
    CountSame(table, (r: Row) => Relates(q, Commitment, x, y, r), (r: Row) => Relates(q, Dependency, y, x, r));
  }

  /** The metric's condition on a case, by its columns and the instants of the range. */
  ghost predicate Counted(metric: RelationMetric, r: Row, start: int, cut: int) {
    match metric
    case CreatedIn => start <= r.createdAt < cut
    case ClosedIn => r.closedAt.Some? && start <= r.closedAt.value < cut
    case BacklogAt => r.createdAt < cut && !(r.closedAt.Some? && r.closedAt.value < cut)
  }

  /**
   * LINES. The line of Y among X's commitments counts exactly the INTER cases in the
   * range for which X is responsible and Y affected; among X's dependencies, those
   * for which Y is responsible and X affected. A partner is listed only with cases.
   */
  lemma LineIsExact(table: seq<Row>, catalog: seq<string>, q: Query, x: string, y: string, p: Row -> bool, d: Row -> bool)
    requires Distinct(catalog) && y in catalog && x != y
    requires forall r | r in table :: p(r) ==
               (r.kind == INTER_COORDINATION && r.coordinationId == Some(x) && r.affectedId == Some(y)
                && Counted(q.metric, r, DayStart(q.from), DayStart(q.to + 1)))
    requires forall r | r in table :: d(r) ==
               (r.kind == INTER_COORDINATION && r.coordinationId == Some(y) && r.affectedId == Some(x)
                && Counted(q.metric, r, DayStart(q.from), DayStart(q.to + 1)))
    ensures ValueFor(AggregateCommitments(table, catalog, q, x), y) == Count(table, p)
    ensures ValueFor(AggregateDependencies(table, catalog, q, x), y) == Count(table, d)
  {
    LineOfPartner(table, catalog, q, Commitment, x, y);
    LineOfPartner(table, catalog, q, Dependency, x, y);
    CountSame(table, p, (r: Row) => Relates(q, Commitment, x, y, r));
    CountSame(table, d, (r: Row) => Relates(q, Dependency, x, y, r));
  }

  lemma {:induction false} ListedWithCases(catalog: seq<string>, value: string -> nat, line: RelationRow)
    requires line in Lines(catalog, value)
    ensures line.coordinationId in catalog && line.value == value(line.coordinationId) && line.value > 0
  {
    var n := |catalog| - 1;
    if line in Lines(catalog[..n], value) {
      ListedWithCases(catalog[..n], value, line);
    }
  }

  /** Each coordination's lines name catalogued partners other than itself, with at least one case. */
  lemma LinesNamePartners(table: seq<Row>, catalog: seq<string>, q: Query, side: Side, x: string, line: RelationRow)
    requires line in AggregateSide(table, catalog, q, side, x)
    ensures line.coordinationId in catalog && line.coordinationId != x && line.value > 0
  {
    var value := (y: string) => Pair(table, q, side, x, y);
    ListedWithCases(catalog, value, line);
    if line.coordinationId == x {
      CountSame(table, (r: Row) => Relates(q, side, x, x, r), (r: Row) => false);
      NoneCounted(table);
    }
  }

  /**
   * DRILL-DOWN. The history series filtered by a partner adds up to the line of that
   * partner: the two queries, written apart, agree on who owes whom.
   */
  lemma SeriesMatchesLine(
    table: seq<Row>, catalog: seq<string>, x: string, y: string, side: Side, from: int, to: int, any: string)
    requires Distinct(catalog) && y in catalog && x != y
    ensures var f := SeriesFilter(None, AnyCategory, Some(Partner(x, y, side)));
            && ValueFor(AggregateSide(table, catalog, Query(CreatedIn, from, to), side, x), y) ==
               Events(table, f, any, CREATED, DayStart(from), DayStart(to + 1))
            && ValueFor(AggregateSide(table, catalog, Query(ClosedIn, from, to), side, x), y) ==
               Events(table, f, any, CLOSED, DayStart(from), DayStart(to + 1))
            && ValueFor(AggregateSide(table, catalog, Query(BacklogAt, from, to), side, x), y) ==
               Backlog(table, f, any, DayStart(to + 1))
  {
    SeriesEvents(table, catalog, x, y, side, from, to, any, CreatedIn, CREATED);
    SeriesEvents(table, catalog, x, y, side, from, to, any, ClosedIn, CLOSED);
    var f := SeriesFilter(None, AnyCategory, Some(Partner(x, y, side)));
    var q := Query(BacklogAt, from, to);
    LineOfPartner(table, catalog, q, side, x, y);
    CountSame(table, (r: Row) => Relates(q, side, x, y, r), (r: Row) => Joins(f, any, r) && OpenAt(r, DayStart(to + 1)));
  }

  lemma SeriesEvents(
    table: seq<Row>, catalog: seq<string>, x: string, y: string, side: Side, from: int, to: int, any: string,
    relation: RelationMetric, metric: Metric)
    requires Distinct(catalog) && y in catalog && x != y
    requires (relation, metric) in {(CreatedIn, CREATED), (ClosedIn, CLOSED)}
    ensures ValueFor(AggregateSide(table, catalog, Query(relation, from, to), side, x), y) ==
            Events(table, SeriesFilter(None, AnyCategory, Some(Partner(x, y, side))), any, metric, DayStart(from), DayStart(to + 1))
  {
    var f, q := SeriesFilter(None, AnyCategory, Some(Partner(x, y, side))), Query(relation, from, to);
    LineOfPartner(table, catalog, q, side, x, y);
    CountSame(table, (r: Row) => Relates(q, side, x, y, r),
              (r: Row) => Joins(f, any, r) && Happened(metric, r, DayStart(from), DayStart(to + 1)));
  }

  // ----- totals over all coordinations

  /** A dependency in the range between two different catalogued coordinations. */
  predicate Catalogued(q: Query, catalog: seq<string>, r: Row) {
    && r.kind == INTER_COORDINATION
    && r.coordinationId.Some? && r.affectedId.Some?
    && r.coordinationId.value in catalog && r.affectedId.value in catalog
    && r.coordinationId != r.affectedId
    && InRange(q.metric, r, q.from, q.to)
  }

  predicate FromOwner(q: Query, catalog: seq<string>, side: Side, x: string, r: Row) {
    && r.kind == INTER_COORDINATION
    && OwnerOf(side, r) == Some(x)
    && PartnerOf(side, r).Some? && PartnerOf(side, r).value in catalog && PartnerOf(side, r).value != x
    && InRange(q.metric, r, q.from, q.to)
  }

  function SumPairs(table: seq<Row>, ys: seq<string>, p: (Row, string) -> bool): nat {
    if ys == [] then 0
    else SumPairs(table, ys[..|ys| - 1], p) + Count(table, (r: Row) => p(r, ys[|ys| - 1]))
  }

  predicate SomeOf(ys: seq<string>, p: (Row, string) -> bool, r: Row) {
    exists i :: 0 <= i < |ys| && p(r, ys[i])
  }

  lemma {:induction false} CountEither(table: seq<Row>, p: Row -> bool, q: Row -> bool, either: Row -> bool)
    requires forall r | r in table :: !(p(r) && q(r)) && (either(r) <==> p(r) || q(r))
    ensures Count(table, either) == Count(table, p) + Count(table, q)
  {
    if table == [] {
    } else {
      assert table[|table| - 1] in table;
      CountEither(table[..|table| - 1], p, q, either);
    }
  }

  /** Counting by a label each row has at most once loses and repeats nothing. */
  lemma {:induction false} PairsPartition(table: seq<Row>, ys: seq<string>, p: (Row, string) -> bool)
    requires Distinct(ys)
    requires forall r, y, z | r in table && p(r, y) && p(r, z) :: y == z
    ensures SumPairs(table, ys, p) == Count(table, (r: Row) => SomeOf(ys, p, r))
  {
    if ys == [] {
      CountSame(table, (r: Row) => SomeOf(ys, p, r), (r: Row) => false);
      NoneCounted(table);
    } else {
      var n := |ys| - 1;
      PairsPartition(table, ys[..n], p);
      forall r | r in table
        ensures !(SomeOf(ys[..n], p, r) && p(r, ys[n])) && (SomeOf(ys, p, r) <==> SomeOf(ys[..n], p, r) || p(r, ys[n]))
      {
        if SomeOf(ys[..n], p, r) {
          var i :| 0 <= i < n && p(r, ys[..n][i]);
          assert p(r, ys[i]);
        }
        if SomeOf(ys, p, r) && !p(r, ys[n]) {
          var i :| 0 <= i < |ys| && p(r, ys[i]);
          assert p(r, ys[..n][i]);
        }
      }
      CountEither(table, (r: Row) => SomeOf(ys[..n], p, r), (r: Row) => p(r, ys[|ys| - 1]), (r: Row) => SomeOf(ys, p, r));
    }
  }

  lemma {:induction false} NoneCounted(table: seq<Row>)
    ensures Count(table, (r: Row) => false) == 0
  {
    if table == [] {
    } else {
      NoneCounted(table[..|table| - 1]);
    }
  }

  /** The total of one coordination: its cases with another catalogued coordination. */
  lemma SideTotal(table: seq<Row>, catalog: seq<string>, q: Query, side: Side, x: string)
    requires Distinct(catalog)
    ensures Sum(AggregateSide(table, catalog, q, side, x)) == Count(table, (r: Row) => FromOwner(q, catalog, side, x, r))
  {
    var p := (r: Row, y: string) => Relates(q, side, x, y, r);
    SumIsPairs(table, catalog, q, side, x, p);
    PairsPartition(table, catalog, p);
    forall r | r in table ensures SomeOf(catalog, p, r) <==> FromOwner(q, catalog, side, x, r) {
      if FromOwner(q, catalog, side, x, r) {
        var i :| 0 <= i < |catalog| && catalog[i] == PartnerOf(side, r).value;
        assert p(r, catalog[i]);
      }
    }
    CountSame(table, (r: Row) => SomeOf(catalog, p, r), (r: Row) => FromOwner(q, catalog, side, x, r));
  }

  lemma SumIsPairs(table: seq<Row>, ys: seq<string>, q: Query, side: Side, x: string, p: (Row, string) -> bool)
    requires forall r, y :: p(r, y) == Relates(q, side, x, y, r)
    ensures Sum(AggregateSide(table, ys, q, side, x)) == SumPairs(table, ys, p)
  {
    var value := (y: string) => Pair(table, q, side, x, y);
    forall y ensures value(y) == Count(table, (r: Row) => p(r, y)) {
      CountSame(table, (r: Row) => p(r, y), (r: Row) => Relates(q, side, x, y, r));
    }
    SumOfLines(table, ys, value, p);
  }

  lemma {:induction false} SumOfLines(table: seq<Row>, ys: seq<string>, value: string -> nat, p: (Row, string) -> bool)
    requires forall y :: value(y) == Count(table, (r: Row) => p(r, y))
    ensures Sum(Lines(ys, value)) == SumPairs(table, ys, p)
  {
    if ys == [] {
    } else {
      var n := |ys| - 1;
      SumOfLines(table, ys[..n], value, p);
      AddLineAdds(Lines(ys[..n], value), ys[n], value(ys[n]));
    }
  }

  function GrandTotal(table: seq<Row>, catalog: seq<string>, q: Query, side: Side, xs: seq<string>): nat {
    if xs == [] then 0
    else GrandTotal(table, catalog, q, side, xs[..|xs| - 1]) + Sum(AggregateSide(table, catalog, q, side, xs[|xs| - 1]))
  }

  lemma {:induction false} GrandTotalIsPairs(
    table: seq<Row>, catalog: seq<string>, q: Query, side: Side, xs: seq<string>, p: (Row, string) -> bool)
    requires Distinct(catalog)
    requires forall r, x :: p(r, x) == FromOwner(q, catalog, side, x, r)
    ensures GrandTotal(table, catalog, q, side, xs) == SumPairs(table, xs, p)
  {
    if xs == [] {
    } else {
      var n := |xs| - 1;
      GrandTotalIsPairs(table, catalog, q, side, xs[..n], p);
      SideTotal(table, catalog, q, side, xs[n]);
      CountSame(table, (r: Row) => p(r, xs[|xs| - 1]), (r: Row) => FromOwner(q, catalog, side, xs[n], r));
    }
  }

  /**
   * CONSERVATION. Summed over every coordination, commitments and dependencies
   * both count each dependency with two different catalogued ends exactly once.
   */
  lemma TotalsAgree(table: seq<Row>, catalog: seq<string>, q: Query, side: Side)
    requires Distinct(catalog)
    ensures GrandTotal(table, catalog, q, side, catalog) == Count(table, (r: Row) => Catalogued(q, catalog, r))
  {
    var p := (r: Row, x: string) => FromOwner(q, catalog, side, x, r);
    GrandTotalIsPairs(table, catalog, q, side, catalog, p);
    PairsPartition(table, catalog, p);
    forall r | r in table ensures SomeOf(catalog, p, r) <==> Catalogued(q, catalog, r) {
      if Catalogued(q, catalog, r) {
        var i :| 0 <= i < |catalog| && catalog[i] == OwnerOf(side, r).value;
        assert p(r, catalog[i]);
      }
    }
    CountSame(table, (r: Row) => SomeOf(catalog, p, r), (r: Row) => Catalogued(q, catalog, r));
  }
}
