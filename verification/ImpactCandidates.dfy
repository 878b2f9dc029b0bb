/** Which coordinations an impact simulation shows, and when it is available. */
module ImpactCandidates {
  import opened Common
  import opened Seqs

  const MAX_SIMULATED_COORDINATIONS: nat := 2

  datatype Coordination = Coordination(code: string, name: string, shortName: string)

  /** A row of the assessment; `coordination` is the joined row, when it loads. */
  datatype Affected = Affected(
    coordinationId: string, impactLevel: Severity, description: string, coordination: Option<Coordination>)

  datatype Candidate = Candidate(coordinationId: string, coordinationCode: string, impactLevel: Severity, description: string)

  function Rank(level: Severity): nat {
    match level
    case CRITICAL => 4
    case HIGH => 3
    case MEDIUM => 2
    case LOW => 1
  }

  predicate Eligible(item: Affected, origin: Option<string>) {
    Some(item.coordinationId) != origin && item.coordination.Some?
  }

  function CodeOf(item: Affected): string {
    if item.coordination.Some? then item.coordination.value.code else ""
  }

  /** How the locale compares two codes: "does not come after". */
  type CodeOrder = (string, string) -> bool

  /** The comparator: level descending, then code ascending in the order of the locale. */
  predicate NotAfter(le: CodeOrder, a: Affected, b: Affected) {
    Rank(a.impactLevel) > Rank(b.impactLevel) ||
    (Rank(a.impactLevel) == Rank(b.impactLevel) && le(CodeOf(a), CodeOf(b)))
  }

  function Comparator(le: CodeOrder): (Affected, Affected) -> bool {
    (a, b) => NotAfter(le, a, b)
  }

  predicate SeenIn(xs: seq<Affected>, id: string) {
    exists i :: 0 <= i < |xs| && xs[i].coordinationId == id
  }

  /** Keeps the first item of each coordination. */
  function FirstOfEach(xs: seq<Affected>): (r: seq<Affected>)
    ensures forall y :: y in r ==> y in xs
  {
    if xs == [] then []
    else
      var n := |xs| - 1;
      FirstOfEach(xs[..n]) + if SeenIn(xs[..n], xs[n].coordinationId) then [] else [xs[n]]
  }

  function ToCandidate(item: Affected): Candidate {
    Candidate(item.coordinationId, CodeOf(item), item.impactLevel, item.description)
  }

  function ToCandidates(xs: seq<Affected>): (r: seq<Candidate>)
    ensures |r| == |xs|
  {
    seq(|xs|, i requires 0 <= i < |xs| => ToCandidate(xs[i]))
  }

  function Ranked(le: CodeOrder, affected: seq<Affected>, origin: Option<string>): seq<Affected> {
    Sort(Comparator(le), Filter((item: Affected) => Eligible(item, origin), affected))
  }

  function Select(le: CodeOrder, affected: seq<Affected>, origin: Option<string>): seq<Candidate> {
    ToCandidates(FirstOfEach(Ranked(le, affected, origin)))
  }

  /** `selectSimulatedCandidates`: the last filter of the chain fills a set of seen ids. */
  method SelectSimulatedCandidates(le: CodeOrder, affected: seq<Affected>, origin: Option<string>)
    returns (candidates: seq<Candidate>)
    ensures candidates == Select(le, affected, origin)
  {
    var ranked := Ranked(le, affected, origin);
    var seen: set<string> := {};
    var kept: seq<Affected> := [];
    for i := 0 to |ranked|
      invariant kept == FirstOfEach(ranked[..i])
      invariant forall id :: id in seen <==> SeenIn(ranked[..i], id)
    {
      assert ranked[..i + 1][..i] == ranked[..i];
      SeenExtended(ranked, i);
      if ranked[i].coordinationId !in seen {
        seen := seen + {ranked[i].coordinationId};
        kept := kept + [ranked[i]];
      }
    }
    assert ranked[..|ranked|] == ranked;
    return ToCandidates(kept);
  }

  lemma SeenExtended(xs: seq<Affected>, i: nat)
    requires i < |xs|
    ensures forall id :: SeenIn(xs[..i + 1], id) <==> SeenIn(xs[..i], id) || xs[i].coordinationId == id
  {
    forall id ensures SeenIn(xs[..i + 1], id) <==> SeenIn(xs[..i], id) || xs[i].coordinationId == id {
      if SeenIn(xs[..i], id) {
        var k :| 0 <= k < i && xs[..i][k].coordinationId == id;
        assert xs[..i + 1][k].coordinationId == id;
      }
      if SeenIn(xs[..i + 1], id) && xs[i].coordinationId != id {
        var k :| 0 <= k < i + 1 && xs[..i + 1][k].coordinationId == id;
        assert xs[..i][k].coordinationId == id;
      }
      if xs[i].coordinationId == id {
        assert xs[..i + 1][i].coordinationId == id;
      }
    }
  }

  // ----- sorting

  ghost predicate Ordered(le: CodeOrder, xs: seq<Affected>) {
    forall i, j | 0 <= i < j < |xs| :: NotAfter(le, xs[i], xs[j])
  }

  lemma NotAfterTransitive(le: CodeOrder, a: Affected, b: Affected, c: Affected)
    requires TotalOrder(le) && NotAfter(le, a, b) && NotAfter(le, b, c)
    ensures NotAfter(le, a, c)
  {
    assert le(CodeOf(a), CodeOf(b)) && le(CodeOf(b), CodeOf(c)) ==> le(CodeOf(a), CodeOf(c));
  }

  lemma SortOrdered(le: CodeOrder, xs: seq<Affected>)
    requires TotalOrder(le)
    ensures Ordered(le, Sort(Comparator(le), xs))
  {
    var notAfter := Comparator(le);
    forall a: Affected, b: Affected ensures notAfter(a, b) || notAfter(b, a) {
      assert le(CodeOf(a), CodeOf(b)) || le(CodeOf(b), CodeOf(a));
    }
    forall a: Affected, b: Affected, c: Affected | notAfter(a, b) && notAfter(b, c) ensures notAfter(a, c) {
      NotAfterTransitive(le, a, b, c);
    }
    SortSorted(notAfter, xs);
    assert forall i, j | 0 <= i < j < |Sort(notAfter, xs)| :: notAfter(Sort(notAfter, xs)[i], Sort(notAfter, xs)[j]);
  }

  // ----- what is kept

  /** Some kept item stands for y: same coordination, level and code not after it. */
  predicate StandsFor(le: CodeOrder, kept: seq<Affected>, y: Affected) {
    exists k :: 0 <= k < |kept| && kept[k].coordinationId == y.coordinationId && NotAfter(le, kept[k], y)
  }

  ghost predicate DistinctIds(xs: seq<Affected>) {
    forall i, j | 0 <= i < j < |xs| :: xs[i].coordinationId != xs[j].coordinationId
  }

  /** The kept items of an ordered list: one for each id, still in order. */
  lemma {:induction false} FirstOfEachDistinct(le: CodeOrder, xs: seq<Affected>)
    requires Ordered(le, xs)
    ensures Ordered(le, FirstOfEach(xs)) && DistinctIds(FirstOfEach(xs))
  {
    if xs == [] {
    } else {
      var n := |xs| - 1;
      FirstOfEachDistinct(le, xs[..n]);
      var before := FirstOfEach(xs[..n]);
      forall k | 0 <= k < |before|
        ensures NotAfter(le, before[k], xs[n]) && SeenIn(xs[..n], before[k].coordinationId)
      {
        KeptIsBefore(le, xs, before[k]);
      }
      assert FirstOfEach(xs) == before + if SeenIn(xs[..n], xs[n].coordinationId) then [] else [xs[n]];
    }
  }

  /** What is kept of all but the last is not after the last, and its id has been seen. */
  lemma KeptIsBefore(le: CodeOrder, xs: seq<Affected>, y: Affected)
    requires Ordered(le, xs) && xs != [] && y in FirstOfEach(xs[..|xs| - 1])
    ensures NotAfter(le, y, xs[|xs| - 1]) && SeenIn(xs[..|xs| - 1], y.coordinationId)
  {
    var n := |xs| - 1;
    assert y in xs[..n];
    var m :| 0 <= m < n && xs[..n][m] == y;
    assert xs[m] == y;
  }

  lemma StandsForMore(le: CodeOrder, kept: seq<Affected>, more: seq<Affected>, y: Affected)
    requires StandsFor(le, kept, y)
    ensures StandsFor(le, kept + more, y)
  {
    var k :| 0 <= k < |kept| && kept[k].coordinationId == y.coordinationId && NotAfter(le, kept[k], y);
    assert (kept + more)[k] == kept[k];
  }

  /** Nothing is lost: every item has a kept one of its coordination that is no worse. */
  lemma {:induction false} FirstOfEachCovers(le: CodeOrder, xs: seq<Affected>, y: Affected)
    requires TotalOrder(le) && Ordered(le, xs) && y in xs
    ensures StandsFor(le, FirstOfEach(xs), y)
  {
    var n := |xs| - 1;
    var before := FirstOfEach(xs[..n]);
    var added := if SeenIn(xs[..n], xs[n].coordinationId) then [] else [xs[n]];
    if y in xs[..n] {
      FirstOfEachCovers(le, xs[..n], y);
      StandsForMore(le, before, added, y);
    } else if SeenIn(xs[..n], xs[n].coordinationId) {
      var m :| 0 <= m < n && xs[..n][m].coordinationId == y.coordinationId;
      FirstOfEachCovers(le, xs[..n], xs[m]);
      var k :| 0 <= k < |before| && before[k].coordinationId == y.coordinationId && NotAfter(le, before[k], xs[m]);
      NotAfterTransitive(le, before[k], xs[m], y);
      assert StandsFor(le, before, y);
      StandsForMore(le, before, added, y);
    } else {
      assert le(CodeOf(y), CodeOf(y));
      assert FirstOfEach(xs)[|before|] == y;
    }
  }

  /** One coordination has one code, and the locale tells the codes of different ones apart. */
  ghost predicate CodesIdentify(le: CodeOrder, affected: seq<Affected>) {
    forall a, b | a in affected && b in affected && a.coordination.Some? && b.coordination.Some? ::
      if a.coordinationId == b.coordinationId then CodeOf(a) == CodeOf(b)
      else !(le(CodeOf(a), CodeOf(b)) && le(CodeOf(b), CodeOf(a)))
  }

  /** The levels in order, one by one: LOW, MEDIUM, HIGH, CRITICAL. */
  predicate Higher(a: Severity, b: Severity) {
    match b
    case LOW => a != LOW
    case MEDIUM => a == HIGH || a == CRITICAL
    case HIGH => a == CRITICAL
    case CRITICAL => false
  }

  lemma RankIsLevel(a: Severity, b: Severity)
    ensures Rank(a) > Rank(b) <==> Higher(a, b)
    ensures Rank(a) == Rank(b) <==> a == b
  {
  }

  /** Not after in the shown order. */
  predicate Before(le: CodeOrder, a: Candidate, b: Candidate) {
    Higher(a.impactLevel, b.impactLevel) ||
    (a.impactLevel == b.impactLevel && le(a.coordinationCode, b.coordinationCode))
  }

  /** The row can be shown: its coordination loads, and it is not the origin. */
  predicate Showable(item: Affected, origin: Option<string>) {
    item.coordination.Some? && (origin.None? || item.coordinationId != origin.value)
  }

  /** A shown candidate carries the columns of a showable row. */
  predicate FromEligible(c: Candidate, affected: seq<Affected>, origin: Option<string>) {
    exists item :: item in affected && Showable(item, origin)
      && c.coordinationId == item.coordinationId && c.coordinationCode == item.coordination.value.code
      && c.impactLevel == item.impactLevel && c.description == item.description
  }

  /** A shown candidate has the coordination of the item, at least at its level. */
  predicate Shows(r: seq<Candidate>, item: Affected) {
    exists k :: 0 <= k < |r| && r[k].coordinationId == item.coordinationId && !Higher(item.impactLevel, r[k].impactLevel)
  }

  /**
   * SELECTION. Each eligible coordination appears exactly once, with its highest
   * level; the list goes by level, highest first, then by code.
   */
  lemma SelectionIsRanking(le: CodeOrder, affected: seq<Affected>, origin: Option<string>)
    requires TotalOrder(le)
    ensures var r := Select(le, affected, origin);
            && (forall i, j | 0 <= i < j < |r| :: r[i].coordinationId != r[j].coordinationId && Before(le, r[i], r[j]))
            && (forall c | c in r :: FromEligible(c, affected, origin))
            && (forall item | item in affected && Showable(item, origin) :: Shows(r, item))
  {
    var ranked := Ranked(le, affected, origin);
    var kept := FirstOfEach(ranked);
    SortOrdered(le, Filter((item: Affected) => Eligible(item, origin), affected));
    FirstOfEachDistinct(le, ranked);
    var r := Select(le, affected, origin);
    forall i, j | 0 <= i < j < |r| ensures r[i].coordinationId != r[j].coordinationId && Before(le, r[i], r[j]) {
      assert kept[i] in ranked && kept[j] in ranked;
      assert NotAfter(le, kept[i], kept[j]);
      RankIsLevel(kept[i].impactLevel, kept[j].impactLevel);
    }
    forall c | c in r ensures FromEligible(c, affected, origin) {
      var k :| 0 <= k < |kept| && r[k] == c;
      assert kept[k] in ranked;
    }
    forall item | item in affected && Showable(item, origin) ensures Shows(r, item) {
      FirstOfEachCovers(le, ranked, item);
      var k :| 0 <= k < |kept| && kept[k].coordinationId == item.coordinationId && NotAfter(le, kept[k], item);
      assert r[k] == ToCandidate(kept[k]);
      RankIsLevel(item.impactLevel, r[k].impactLevel);
    }
  }

  /** What the promise of order independence is about. */
  datatype Shown = Shown(coordinationId: string, code: string, level: Severity)

  function ShownOf(c: Candidate): Shown {
    Shown(c.coordinationId, c.coordinationCode, c.impactLevel)
  }

  function ShownList(cs: seq<Candidate>): (r: seq<Shown>)
    ensures |r| == |cs|
  {
    seq(|cs|, i requires 0 <= i < |cs| => ShownOf(cs[i]))
  }

  predicate ShownBefore(le: CodeOrder, a: Shown, b: Shown) {
    Higher(a.level, b.level) || (a.level == b.level && le(a.code, b.code) && !le(b.code, a.code))
  }

  function ShownOrder(le: CodeOrder): (Shown, Shown) -> bool {
    (a, b) => ShownBefore(le, a, b)
  }

  /** A shown line is exactly an eligible coordination with its highest level. */
  ghost predicate IsBest(s: Shown, affected: seq<Affected>, origin: Option<string>) {
    && (exists item :: item in affected && Showable(item, origin)
                       && item.coordinationId == s.coordinationId && CodeOf(item) == s.code && item.impactLevel == s.level)
    && (forall item | item in affected && Showable(item, origin) && item.coordinationId == s.coordinationId ::
         !Higher(item.impactLevel, s.level))
  }

  lemma ShownIsBest(le: CodeOrder, affected: seq<Affected>, origin: Option<string>, i: nat)
    requires TotalOrder(le) && i < |Select(le, affected, origin)|
    ensures IsBest(ShownOf(Select(le, affected, origin)[i]), affected, origin)
  {
    SelectionIsRanking(le, affected, origin);
    var r := Select(le, affected, origin);
    var s := ShownOf(r[i]);
    assert r[i] in r && FromEligible(r[i], affected, origin);
    forall item | item in affected && Showable(item, origin) && item.coordinationId == s.coordinationId
      ensures !Higher(item.impactLevel, s.level)
    {
      assert Shows(r, item);
      var k :| 0 <= k < |r| && r[k].coordinationId == item.coordinationId && !Higher(item.impactLevel, r[k].impactLevel);
      assert k == i;
    }
  }

  lemma ShownIffBest(le: CodeOrder, affected: seq<Affected>, origin: Option<string>, s: Shown)
    requires TotalOrder(le) && CodesIdentify(le, affected)
    ensures s in ShownList(Select(le, affected, origin)) <==> IsBest(s, affected, origin)
  {
    var r := Select(le, affected, origin);
    if s in ShownList(r) {
      var i :| 0 <= i < |r| && ShownList(r)[i] == s;
      ShownIsBest(le, affected, origin, i);
    }
    if IsBest(s, affected, origin) {
      SelectionIsRanking(le, affected, origin);
      var item :| item in affected && Showable(item, origin)
                  && item.coordinationId == s.coordinationId && CodeOf(item) == s.code && item.impactLevel == s.level;
      assert Shows(r, item);
      var k :| 0 <= k < |r| && r[k].coordinationId == item.coordinationId && !Higher(item.impactLevel, r[k].impactLevel);
      ShownIsBest(le, affected, origin, k);
      SameBest(le, ShownOf(r[k]), s, affected, origin);
      assert ShownList(r)[k] == s;
    }
  }

  lemma SameBest(le: CodeOrder, a: Shown, b: Shown, affected: seq<Affected>, origin: Option<string>)
    requires CodesIdentify(le, affected) && IsBest(a, affected, origin) && IsBest(b, affected, origin)
    requires a.coordinationId == b.coordinationId
    ensures a == b
  {
  }

  lemma ShownIncreasing(le: CodeOrder, affected: seq<Affected>, origin: Option<string>)
    requires TotalOrder(le) && CodesIdentify(le, affected)
    ensures Increasing(ShownOrder(le), ShownList(Select(le, affected, origin)))
  {
    SelectionIsRanking(le, affected, origin);
    var r, less := Select(le, affected, origin), ShownOrder(le);
    forall i, j | 0 <= i < j < |r| ensures less(ShownList(r)[i], ShownList(r)[j]) {
      assert Before(le, r[i], r[j]);
      assert r[i] in r && r[j] in r;
      StrictlyBefore(le, affected, origin, r[i], r[j]);
    }
  }

  lemma StrictlyBefore(le: CodeOrder, affected: seq<Affected>, origin: Option<string>, c: Candidate, d: Candidate)
    requires CodesIdentify(le, affected) && FromEligible(c, affected, origin) && FromEligible(d, affected, origin)
    requires Before(le, c, d) && c.coordinationId != d.coordinationId
    ensures ShownBefore(le, ShownOf(c), ShownOf(d))
  {
    var x :| x in affected && Showable(x, origin)
      && c.coordinationId == x.coordinationId && c.coordinationCode == x.coordination.value.code
      && c.impactLevel == x.impactLevel && c.description == x.description;
    var y :| y in affected && Showable(y, origin)
      && d.coordinationId == y.coordinationId && d.coordinationCode == y.coordination.value.code
      && d.impactLevel == y.impactLevel && d.description == y.description;
    assert CodeOf(x) == c.coordinationCode && CodeOf(y) == d.coordinationCode;
  }

  /**
   * ORDER INDEPENDENCE. The same rows in another order, or repeated, show the same
   * coordinations and levels in the same order, when the locale tells their codes apart.
   */
  lemma OrderIndependent(le: CodeOrder, a: seq<Affected>, b: seq<Affected>, origin: Option<string>)
    requires TotalOrder(le) && CodesIdentify(le, a) && forall item :: item in a <==> item in b
    ensures ShownList(Select(le, a, origin)) == ShownList(Select(le, b, origin))
  {
    forall s ensures s in ShownList(Select(le, a, origin)) <==> s in ShownList(Select(le, b, origin)) {
      ShownIffBest(le, a, origin, s);
      ShownIffBest(le, b, origin, s);
      assert IsBest(s, a, origin) <==> IsBest(s, b, origin);
    }
    ShownIncreasing(le, a, origin);
    ShownIncreasing(le, b, origin);
    IncreasingUnique(ShownOrder(le), ShownList(Select(le, a, origin)), ShownList(Select(le, b, origin)));
  }

  /** Otherwise it fails: two coordinations of one level whose codes tie are shown in input order. */
  lemma TiesKeepInputOrder(le: CodeOrder, u: Affected, v: Affected, origin: Option<string>)
    requires TotalOrder(le) && Eligible(u, origin) && Eligible(v, origin) && u.coordinationId != v.coordinationId
    requires u.impactLevel == v.impactLevel && le(CodeOf(u), CodeOf(v)) && le(CodeOf(v), CodeOf(u))
    ensures Select(le, [u, v], origin) == [ToCandidate(u), ToCandidate(v)]
    ensures Select(le, [v, u], origin) == [ToCandidate(v), ToCandidate(u)]
  {
    TiedPair(le, u, v, origin);
    TiedPair(le, v, u, origin);
  }

  lemma TiedPair(le: CodeOrder, u: Affected, v: Affected, origin: Option<string>)
    requires Eligible(u, origin) && Eligible(v, origin) && u.coordinationId != v.coordinationId
    requires NotAfter(le, u, v)
    ensures Select(le, [u, v], origin) == [ToCandidate(u), ToCandidate(v)]
  {
    var keep := (item: Affected) => Eligible(item, origin);
    assert Filter(keep, [v]) == [v] && Filter(keep, [u, v]) == [u, v];
    assert Sort(Comparator(le), [v]) == [v] && Sort(Comparator(le), [u, v]) == [u, v];
    assert [u, v][..1] == [u] && [u][..0] == [];
    assert FirstOfEach([u]) == [u];
    assert FirstOfEach([u, v]) == [u, v];
  }

  // ----- context and simulation

  datatype Source = AiAssessment | NoSource

  datatype Simulation = Simulation(source: Source, canSimulate: bool, hasDeclaredRelated: bool, potential: seq<Candidate>)

  datatype Context = Context(hasDeclaredRelated: bool, canSimulate: bool, simulationAvailable: bool)

  /** `getImpactContext`; `declared` are the coordinations the user declared. */
  function ImpactContext(le: CodeOrder, declared: seq<string>, assessment: Option<seq<Affected>>, origin: Option<string>): Context {
    var affected := if assessment.Some? then assessment.value else [];
    Context(declared != [], declared == [], declared == [] && Select(le, affected, origin) != [])
  }

  function SimulateImpact(
    le: CodeOrder, declared: seq<string>, assessment: Option<seq<Affected>>, origin: Option<string>,
    horizonMinutes: int): Result<Simulation>
  {
    if horizonMinutes < 1 || horizonMinutes > 24 * 60 then Err(BadRequest)
    else if declared != [] then Ok(Simulation(NoSource, false, true, []))
    else if assessment.None? then Ok(Simulation(NoSource, true, false, []))
    else
      var selected := Select(le, assessment.value, origin);
      var potential := selected[..if |selected| < MAX_SIMULATED_COORDINATIONS then |selected| else MAX_SIMULATED_COORDINATIONS];
      Ok(Simulation(if potential != [] then AiAssessment else NoSource, true, false, potential))
  }

  /**
   * AVAILABILITY AND DOMINANCE. A simulation shows something exactly when the
   * context said it was available, at most two coordinations, and no eligible
   * coordination left out ranks above one that is shown.
   */
  lemma SimulationMatchesContext(
    le: CodeOrder, declared: seq<string>, assessment: Option<seq<Affected>>, origin: Option<string>,
    horizonMinutes: int, item: Affected)
    requires TotalOrder(le)
    ensures SimulateImpact(le, declared, assessment, origin, horizonMinutes).Ok? <==> 1 <= horizonMinutes <= 1440
    ensures !(1 <= horizonMinutes <= 1440) ==> SimulateImpact(le, declared, assessment, origin, horizonMinutes) == Err(BadRequest)
    ensures SimulateImpact(le, declared, assessment, origin, horizonMinutes).Ok? ==>
            var s := SimulateImpact(le, declared, assessment, origin, horizonMinutes).value;
            var context := ImpactContext(le, declared, assessment, origin);
            && (s.potential != [] <==> context.simulationAvailable)
            && (s.source == AiAssessment <==> context.simulationAvailable)
            && s.canSimulate == context.canSimulate && s.hasDeclaredRelated == context.hasDeclaredRelated
            && |s.potential| <= 2
            && (context.simulationAvailable ==> s.potential <= Select(le, assessment.value, origin))
            && (assessment.Some? && item in assessment.value && Showable(item, origin) && context.simulationAvailable
                && (forall c | c in s.potential :: c.coordinationId != item.coordinationId) ==>
                  |s.potential| == 2 && forall c | c in s.potential :: !Higher(item.impactLevel, c.impactLevel))
  {
    ContextIsExact(le, declared, assessment, origin);
    if assessment.Some? && declared == [] {
      LeftOutIsNoHigher(le, assessment.value, origin, item);
    }
  }

  /** The context: a simulation is available when nothing was declared and some row can be shown. */
  lemma ContextIsExact(le: CodeOrder, declared: seq<string>, assessment: Option<seq<Affected>>, origin: Option<string>)
    requires TotalOrder(le)
    ensures var context := ImpactContext(le, declared, assessment, origin);
            && (context.hasDeclaredRelated <==> declared != [])
            && (context.canSimulate <==> declared == [])
            && (context.simulationAvailable <==>
                 declared == [] && assessment.Some? && exists item :: item in assessment.value && Showable(item, origin))
  {
    var affected := if assessment.Some? then assessment.value else [];
    SelectionIsRanking(le, affected, origin);
    var r := Select(le, affected, origin);
    if r != [] {
      assert r[0] in r && FromEligible(r[0], affected, origin);
    }
    forall item | item in affected && Showable(item, origin) ensures r != [] {
      assert Shows(r, item);
    }
  }

  /** Who is not among the first two is not above them. */
  lemma LeftOutIsNoHigher(le: CodeOrder, affected: seq<Affected>, origin: Option<string>, item: Affected)
    requires TotalOrder(le)
    ensures var r := Select(le, affected, origin);
            var shown := if |r| < 2 then r else r[..2];
            item in affected && Showable(item, origin) && (forall c | c in shown :: c.coordinationId != item.coordinationId) ==>
              |shown| == 2 && forall c | c in shown :: !Higher(item.impactLevel, c.impactLevel)
  {
    SelectionIsRanking(le, affected, origin);
    if item in affected && Showable(item, origin) {
      FirstTwoDominate(le, Select(le, affected, origin), item);
    }
  }

  lemma FirstTwoDominate(le: CodeOrder, r: seq<Candidate>, item: Affected)
    requires forall i, j | 0 <= i < j < |r| :: Before(le, r[i], r[j])
    requires Shows(r, item)
    ensures var shown := if |r| < 2 then r else r[..2];
            (forall c | c in shown :: c.coordinationId != item.coordinationId) ==>
              |shown| == 2 && forall c | c in shown :: !Higher(item.impactLevel, c.impactLevel)
  {
    var shown := if |r| < 2 then r else r[..2];
    if forall c | c in shown :: c.coordinationId != item.coordinationId {
      var k :| 0 <= k < |r| && r[k].coordinationId == item.coordinationId && !Higher(item.impactLevel, r[k].impactLevel);
      forall i | 0 <= i < |shown| ensures r[i].coordinationId != item.coordinationId {
        assert shown[i] in shown;
      }
      assert Before(le, r[0], r[k]) && Before(le, r[1], r[k]);
    }
  }
}
