/**
 * The data migration that folds one coordination into another: references are
 * moved, duplicates dropped first, and the emptied row deleted.
 */
module CoordinationMerge {
  import opened Common
  import opened Seqs

  datatype Coordination = Coordination(id: nat, code: string, name: string, displayOrder: int, isActive: bool)

  /** A user or a situation: its id and the coordination it names. */
  datatype Reference = Reference(id: nat, coordinationId: Option<nat>)

  /** A related or affected coordination of a parent (situation or assessment). */
  datatype Link = Link(id: nat, parentId: nat, coordinationId: nat)

  datatype Dependency = Dependency(sourceId: nat, targetId: nat)

  datatype Tables = Tables(
    coordinations: seq<Coordination>,
    users: seq<Reference>,
    situations: seq<Reference>,
    related: seq<Link>,
    affected: seq<Link>,
    dependencies: seq<Dependency>)

  const SOCIAL_LAB: string := "coord-social-lab"
  const PROYECCION: string := "coord-proyeccion-social"
  const SERVICIOS: string := "coord-servicios"

  // ----- the statements

  function Image(id: nat, from: nat, to: nat): nat {
    if id == from then to else id
  }

  function MoveReferences(rows: seq<Reference>, from: nat, to: nat): (r: seq<Reference>)
    ensures |r| == |rows|
  {
    seq(|rows|, i requires 0 <= i < |rows| =>
      if rows[i].coordinationId == Some(from) then rows[i].(coordinationId := Some(to)) else rows[i])
  }

  predicate HasLink(links: seq<Link>, parentId: nat, coordinationId: nat) {
    exists i :: 0 <= i < |links| && links[i].parentId == parentId && links[i].coordinationId == coordinationId
  }

  /** A link to `from` whose parent also has one to `to`. */
  predicate Duplicate(links: seq<Link>, from: nat, to: nat, l: Link) {
    l.coordinationId == from && HasLink(links, l.parentId, to)
  }

  function DropDuplicates(links: seq<Link>, from: nat, to: nat): seq<Link> {
    Filter((l: Link) => !Duplicate(links, from, to, l), links)
  }

  function MoveLinks(links: seq<Link>, from: nat, to: nat): (r: seq<Link>)
    ensures |r| == |links|
  {
    seq(|links|, i requires 0 <= i < |links| => links[i].(coordinationId := Image(links[i].coordinationId, from, to)))
  }

  function MergeLinks(links: seq<Link>, from: nat, to: nat): seq<Link> {
    MoveLinks(DropDuplicates(links, from, to), from, to)
  }

  function Merge(t: Tables, from: nat, to: nat): Tables {
    Tables(
      Filter((c: Coordination) => c.id != from, t.coordinations),
      MoveReferences(t.users, from, to),
      MoveReferences(t.situations, from, to),
      MergeLinks(t.related, from, to),
      MergeLinks(t.affected, from, to),
      Filter((d: Dependency) => d.sourceId != from && d.targetId != from, t.dependencies))
  }

  /** `SELECT id ... WHERE code = ... LIMIT 1`. */
  function IdOf(coordinations: seq<Coordination>, code: string): Option<nat> {
    if coordinations == [] then None
    else if coordinations[0].code == code then Some(coordinations[0].id)
    else IdOf(coordinations[1..], code)
  }

  function Rename(coordinations: seq<Coordination>, id: nat): (r: seq<Coordination>)
    ensures |r| == |coordinations|
  {
    seq(|coordinations|, i requires 0 <= i < |coordinations| =>
      if coordinations[i].id == id
      then coordinations[i].(code := PROYECCION, name := "Coordinador Proyección Social", displayOrder := 9, isActive := true)
      else coordinations[i])
  }

  function OrderOf(c: Coordination): int {
    match c.code
    case "coord-general" => 1
    case "coord-b2b" => 2
    case "coord-bellas-artes" => 3
    case "coord-desarrollo-profesional" => 4
    case "coord-empresarial" => 5
    case "coord-especializaciones" => 6
    case "coord-ingenierias" => 7
    case "coord-operaciones-academicas" => 8
    case "coord-proyeccion-social" => 9
    case "coord-saber-pro" => 10
    case "coord-transversales" => 11
    case "coord-negocios" => 12
    case "coord-homologaciones" => 14
    case "coord-fabrica-contenidos" => 15
    case "coord-servicios" => 16
    case _ => c.displayOrder
  }

  function Reorder(coordinations: seq<Coordination>): (r: seq<Coordination>)
    ensures |r| == |coordinations|
  {
    seq(|coordinations|, i requires 0 <= i < |coordinations| =>
      coordinations[i].(displayOrder := OrderOf(coordinations[i])))
  }

  /** The first part of `up`: merge, rename, or nothing. */
  function Unify(t: Tables): Tables {
    var from, to := IdOf(t.coordinations, SOCIAL_LAB), IdOf(t.coordinations, PROYECCION);
    if from.Some? && to.Some? && from != to then Merge(t, from.value, to.value)
    else if from.Some? && to.None? then t.(coordinations := Rename(t.coordinations, from.value))
    else t
  }

  function AddServicios(coordinations: seq<Coordination>, newId: nat): seq<Coordination> {
    if IdOf(coordinations, SERVICIOS).Some? then coordinations
    else coordinations + [Coordination(newId, SERVICIOS, "Servicios", 16, true)]
  }

  function Up(t: Tables, newId: nat): Tables {
    var u := Unify(t);
    u.(coordinations := Reorder(AddServicios(u.coordinations, newId)))
  }

  // ----- constraints

  ghost predicate UniqueLinks(links: seq<Link>) {
    && (forall i, j | 0 <= i < j < |links| :: links[i].id != links[j].id)
    && (forall i, j | 0 <= i < j < |links| ::
         links[i].parentId != links[j].parentId || links[i].coordinationId != links[j].coordinationId)
  }

  ghost predicate UniqueCoordinations(cs: seq<Coordination>) {
    forall i, j | 0 <= i < j < |cs| :: cs[i].id != cs[j].id && cs[i].code != cs[j].code
  }

  ghost predicate Exists(cs: seq<Coordination>, id: nat) {
    exists i :: 0 <= i < |cs| && cs[i].id == id
  }

  /** Foreign keys: every reference names a stored coordination. */
  ghost predicate ForeignKeys(t: Tables) {
    && (forall r | r in t.users && r.coordinationId.Some? :: Exists(t.coordinations, r.coordinationId.value))
    && (forall r | r in t.situations && r.coordinationId.Some? :: Exists(t.coordinations, r.coordinationId.value))
    && (forall l | l in t.related :: Exists(t.coordinations, l.coordinationId))
    && (forall l | l in t.affected :: Exists(t.coordinations, l.coordinationId))
    && (forall d | d in t.dependencies :: Exists(t.coordinations, d.sourceId) && Exists(t.coordinations, d.targetId))
  }

  ghost predicate Constraints(t: Tables) {
    UniqueCoordinations(t.coordinations) && UniqueLinks(t.related) && UniqueLinks(t.affected) && ForeignKeys(t)
  }

  // ----- links

  /** The relation a link table stores. */
  ghost function Pairs(links: seq<Link>): set<(nat, nat)> {
    set l | l in links :: (l.parentId, l.coordinationId)
  }

  ghost function PairsImage(pairs: set<(nat, nat)>, from: nat, to: nat): set<(nat, nat)> {
    set p | p in pairs :: (p.0, Image(p.1, from, to))
  }

  lemma MovedMember(links: seq<Link>, from: nat, to: nat, l: Link)
    requires l in MergeLinks(links, from, to)
    ensures exists old_ :: old_ in links && !Duplicate(links, from, to, old_)
                          && l == old_.(coordinationId := Image(old_.coordinationId, from, to))
  {
    var kept := DropDuplicates(links, from, to);
    var i :| 0 <= i < |kept| && MergeLinks(links, from, to)[i] == l;
    assert kept[i] in kept;
  }

  lemma KeptMoves(links: seq<Link>, from: nat, to: nat, l: Link)
    requires l in links && !Duplicate(links, from, to, l)
    ensures l.(coordinationId := Image(l.coordinationId, from, to)) in MergeLinks(links, from, to)
  {
    var kept := DropDuplicates(links, from, to);
    var i :| 0 <= i < |kept| && kept[i] == l;
    assert MergeLinks(links, from, to)[i] == l.(coordinationId := Image(l.coordinationId, from, to));
  }

  /** IMAGE. The merged relation is exactly the old one with `from` read as `to`. */
  lemma MergeIsImage(links: seq<Link>, from: nat, to: nat)
    requires from != to
    ensures Pairs(MergeLinks(links, from, to)) == PairsImage(Pairs(links), from, to)
  {
    forall p ensures p in Pairs(MergeLinks(links, from, to)) <==> p in PairsImage(Pairs(links), from, to) {
      if p in Pairs(MergeLinks(links, from, to)) {
        var l :| l in MergeLinks(links, from, to) && (l.parentId, l.coordinationId) == p;
        MovedMember(links, from, to, l);
        var old_ :| old_ in links && l == old_.(coordinationId := Image(old_.coordinationId, from, to));
        assert (old_.parentId, old_.coordinationId) in Pairs(links);
      }
      if p in PairsImage(Pairs(links), from, to) {
        var q :| q in Pairs(links) && p == (q.0, Image(q.1, from, to));
        var l :| l in links && (l.parentId, l.coordinationId) == q;
        if Duplicate(links, from, to, l) {
          var i :| 0 <= i < |links| && links[i].parentId == l.parentId && links[i].coordinationId == to;
          KeptMoves(links, from, to, links[i]);
        } else {
          KeptMoves(links, from, to, l);
        }
      }
    }
  }

  /** UNIQUENESS. Moving the ids after the duplicates are gone never violates the per-parent constraint. */
  lemma MergeKeepsUnique(links: seq<Link>, from: nat, to: nat)
    requires from != to && UniqueLinks(links)
    ensures UniqueLinks(DropDuplicates(links, from, to)) && UniqueLinks(MergeLinks(links, from, to))
  {
    var keep := (l: Link) => !Duplicate(links, from, to, l);
    var kept := DropDuplicates(links, from, to);
    FilterKeepsUnique(keep, links);
    forall i, j | 0 <= i < j < |kept|
      ensures kept[i].parentId != kept[j].parentId
              || Image(kept[i].coordinationId, from, to) != Image(kept[j].coordinationId, from, to)
    {
      assert kept[i] in kept && kept[j] in kept;
      if kept[i].parentId == kept[j].parentId {
        NoPairKept(links, from, to, kept[i], kept[j]);
        NoPairKept(links, from, to, kept[j], kept[i]);
      }
    }
  }

  lemma NoPairKept(links: seq<Link>, from: nat, to: nat, a: Link, b: Link)
    requires a in DropDuplicates(links, from, to) && b in DropDuplicates(links, from, to) && a.parentId == b.parentId
    ensures !(a.coordinationId == from && b.coordinationId == to)
  {
    var i :| 0 <= i < |links| && links[i] == b;
    assert HasLink(links, b.parentId, b.coordinationId);
  }

  lemma {:induction false} FilterKeepsUnique(keep: Link -> bool, links: seq<Link>)
    requires UniqueLinks(links)
    ensures UniqueLinks(Filter(keep, links))
  {
    if links == [] {
    } else {
      FilterKeepsUnique(keep, links[1..]);
      var rest := Filter(keep, links[1..]);
      forall j | 0 <= j < |rest|
        ensures links[0].id != rest[j].id
                && (links[0].parentId != rest[j].parentId || links[0].coordinationId != rest[j].coordinationId)
      {
        assert rest[j] in links[1..];
      }
    }
  }

  /** The parents that had a link to both coordinations. */
  ghost function ParentsWithBoth(links: seq<Link>, from: nat, to: nat): set<nat> {
    set l | l in links && Duplicate(links, from, to, l) :: l.parentId
  }

  lemma {:induction false} ParentsOfDistinct(links: seq<Link>, from: nat)
    requires UniqueLinks(links) && forall l | l in links :: l.coordinationId == from
    ensures |links| == |set l | l in links :: l.parentId|
  {
    if links == [] {
    } else {
      var n := |links| - 1;
      ParentsOfDistinct(links[..n], from);
      assert forall l :: l in links <==> l in links[..n] || l == links[n];
      assert (set l | l in links :: l.parentId) == (set l | l in links[..n] :: l.parentId) + {links[n].parentId};
    }
  }

  /** ONE ROW LESS for each parent that had both, and not one more. */
  lemma MergeDropsOnePerParent(links: seq<Link>, from: nat, to: nat)
    requires UniqueLinks(links)
    ensures |MergeLinks(links, from, to)| + |ParentsWithBoth(links, from, to)| == |links|
  {
    var keep := (l: Link) => !Duplicate(links, from, to, l);
    var drop := (l: Link) => Duplicate(links, from, to, l);
    FilterSplit(keep, drop, links);
    var dropped := Filter(drop, links);
    FilterKeepsUnique(drop, links);
    ParentsOfDistinct(dropped, from);
    assert (set l | l in dropped :: l.parentId) == ParentsWithBoth(links, from, to);
  }

  lemma MergeLeavesNoLink(links: seq<Link>, from: nat, to: nat)
    requires from != to
    ensures forall l | l in MergeLinks(links, from, to) :: l.coordinationId != from
  {
    forall l | l in MergeLinks(links, from, to) ensures l.coordinationId != from {
      MovedMember(links, from, to, l);
    }
  }

  // ----- the whole migration

  lemma {:induction false} IdOfFound(cs: seq<Coordination>, code: string)
    ensures var id := IdOf(cs, code);
            && (id.Some? ==> exists i :: 0 <= i < |cs| && cs[i].code == code && cs[i].id == id.value)
            && (id.None? ==> forall i | 0 <= i < |cs| :: cs[i].code != code)
  {
    if cs == [] {
    } else {
      IdOfFound(cs[1..], code);
      if cs[0].code != code && IdOf(cs, code).Some? {
        var i :| 0 <= i < |cs[1..]| && cs[1..][i].code == code && cs[1..][i].id == IdOf(cs, code).value;
        assert cs[i + 1].code == code;
      }
    }
  }

  lemma {:induction false} FilterKeepsCoordinations(keep: Coordination -> bool, cs: seq<Coordination>)
    requires UniqueCoordinations(cs)
    ensures UniqueCoordinations(Filter(keep, cs))
  {
    if cs == [] {
    } else {
      FilterKeepsCoordinations(keep, cs[1..]);
      var rest := Filter(keep, cs[1..]);
      forall j | 0 <= j < |rest| ensures cs[0].id != rest[j].id && cs[0].code != rest[j].code {
        assert rest[j] in cs[1..];
      }
    }
  }

  lemma StillExists(cs: seq<Coordination>, from: nat, id: nat)
    requires Exists(cs, id) && id != from
    ensures Exists(Filter((c: Coordination) => c.id != from, cs), id)
  {
    var i :| 0 <= i < |cs| && cs[i].id == id;
    var kept := Filter((c: Coordination) => c.id != from, cs);
    assert cs[i] in kept;
  }

  lemma MovedReference(rows: seq<Reference>, from: nat, to: nat, r: Reference)
    requires r in MoveReferences(rows, from, to)
    ensures exists old_ :: old_ in rows && r.id == old_.id
              && r.coordinationId == if old_.coordinationId == Some(from) then Some(to) else old_.coordinationId
  {
    var i :| 0 <= i < |rows| && MoveReferences(rows, from, to)[i] == r;
    assert rows[i] in rows;
  }

  /**
   * MERGE. With both coordinations stored, all constraints hold again afterwards,
   * nothing names the old one any more, and it is gone: its deletion was safe.
   */
  lemma MergeIsSafe(t: Tables, from: nat, to: nat)
    requires Constraints(t) && from != to && Exists(t.coordinations, from) && Exists(t.coordinations, to)
    ensures var m := Merge(t, from, to);
            && Constraints(m)
            && !Exists(m.coordinations, from)
            && (forall r | r in m.users + m.situations :: r.coordinationId != Some(from))
            && (forall l | l in m.related + m.affected :: l.coordinationId != from)
            && (forall d | d in m.dependencies :: d.sourceId != from && d.targetId != from)
  {
    var m := Merge(t, from, to);
    MergeKeepsUnique(t.related, from, to);
    MergeKeepsUnique(t.affected, from, to);
    MergeLeavesNoLink(t.related, from, to);
    MergeLeavesNoLink(t.affected, from, to);
    FilterKeepsCoordinations((c: Coordination) => c.id != from, t.coordinations);
    MergedReferences(t, t.users, from, to);
    MergedReferences(t, t.situations, from, to);
    MergedLinks(t, t.related, from, to);
    MergedLinks(t, t.affected, from, to);
    forall d | d in m.dependencies ensures Exists(m.coordinations, d.sourceId) && Exists(m.coordinations, d.targetId) {
      StillExists(t.coordinations, from, d.sourceId);
      StillExists(t.coordinations, from, d.targetId);
    }
    forall i | 0 <= i < |m.coordinations| ensures m.coordinations[i].id != from {
      assert m.coordinations[i] in m.coordinations;
    }
  }

  /** A row that named the old coordination names the new one; any other row is untouched. */
  ghost predicate Moved(rows: seq<Reference>, after: seq<Reference>, from: nat, to: nat) {
    && |after| == |rows|
    && (forall i | 0 <= i < |rows| ::
         && after[i].id == rows[i].id
         && (rows[i].coordinationId == Some(from) ==> after[i].coordinationId == Some(to))
         && (rows[i].coordinationId != Some(from) ==> after[i].coordinationId == rows[i].coordinationId))
  }

  lemma {:induction false} FilterKept<T(!new)>(keep: T -> bool, xs: seq<T>)
    ensures multiset(Filter(keep, xs)) <= multiset(xs)
    ensures forall x | keep(x) :: multiset(Filter(keep, xs))[x] == multiset(xs)[x]
  {
    if xs == [] {
    } else {
      FilterKept(keep, xs[1..]);
      assert xs == [xs[0]] + xs[1..];
    }
  }

  /**
   * ROW BY ROW. Users and situations move, the old coordination goes and takes
   * its dependencies, on either side, with it; every other row stays as often as it was there.
   */
  lemma MergeRowByRow(t: Tables, from: nat, to: nat, c: Coordination, d: Dependency)
    ensures var m := Merge(t, from, to);
            && Moved(t.users, m.users, from, to) && Moved(t.situations, m.situations, from, to)
            && multiset(m.coordinations)[c] == (if c.id == from then 0 else multiset(t.coordinations)[c])
            && multiset(m.dependencies)[d] ==
               (if d.sourceId == from || d.targetId == from then 0 else multiset(t.dependencies)[d])
  {
    var m := Merge(t, from, to);
    FilterKept((x: Coordination) => x.id != from, t.coordinations);
    FilterKept((x: Dependency) => x.sourceId != from && x.targetId != from, t.dependencies);
    assert c.id == from ==> c !in m.coordinations;
    assert d.sourceId == from || d.targetId == from ==> d !in m.dependencies;
  }

  lemma MergedReferences(t: Tables, rows: seq<Reference>, from: nat, to: nat)
    requires from != to && Exists(t.coordinations, to)
    requires forall r | r in rows && r.coordinationId.Some? :: Exists(t.coordinations, r.coordinationId.value)
    ensures forall r | r in MoveReferences(rows, from, to) && r.coordinationId.Some? ::
              r.coordinationId.value != from && Exists(Merge(t, from, to).coordinations, r.coordinationId.value)
  {
    forall r | r in MoveReferences(rows, from, to) && r.coordinationId.Some?
      ensures r.coordinationId.value != from && Exists(Merge(t, from, to).coordinations, r.coordinationId.value)
    {
      MovedReference(rows, from, to, r);
      StillExists(t.coordinations, from, r.coordinationId.value);
    }
  }

  lemma MergedLinks(t: Tables, links: seq<Link>, from: nat, to: nat)
    requires from != to && Exists(t.coordinations, to)
    requires forall l | l in links :: Exists(t.coordinations, l.coordinationId)
    ensures forall l | l in MergeLinks(links, from, to) :: Exists(Merge(t, from, to).coordinations, l.coordinationId)
  {
    forall l | l in MergeLinks(links, from, to) ensures Exists(Merge(t, from, to).coordinations, l.coordinationId) {
      MovedMember(links, from, to, l);
      StillExists(t.coordinations, from, l.coordinationId);
    }
  }

  lemma {:induction false} NoCode(cs: seq<Coordination>, code: string)
    requires forall c | c in cs :: c.code != code
    ensures IdOf(cs, code).None?
  {
    if cs == [] {
    } else {
      assert cs[0] in cs;
      NoCode(cs[1..], code);
    }
  }

  lemma UnifyRemovesSocialLab(t: Tables)
    requires UniqueCoordinations(t.coordinations)
    ensures IdOf(Unify(t).coordinations, SOCIAL_LAB).None?
  {
    var cs, after := t.coordinations, Unify(t).coordinations;
    IdOfFound(cs, SOCIAL_LAB);
    IdOfFound(cs, PROYECCION);
    CodesDiffer();
    if IdOf(cs, SOCIAL_LAB).Some? {
      var from := IdOf(cs, SOCIAL_LAB).value;
      var i :| 0 <= i < |cs| && cs[i].code == SOCIAL_LAB && cs[i].id == from;
      forall c | c in cs && c.id != from ensures c.code != SOCIAL_LAB {
        var k :| 0 <= k < |cs| && cs[k] == c;
      }
      forall c | c in after ensures c.code != SOCIAL_LAB {
        var k :| 0 <= k < |after| && after[k] == c;
      }
      NoCode(after, SOCIAL_LAB);
    }
  }

  lemma CodesDiffer()
    ensures SOCIAL_LAB != PROYECCION && SOCIAL_LAB != SERVICIOS && PROYECCION != SERVICIOS
  {
    assert |SOCIAL_LAB| == 16 && |PROYECCION| == 23 && |SERVICIOS| == 15;
  }

  lemma {:induction false} ReorderKeepsIds(cs: seq<Coordination>, code: string)
    ensures IdOf(Reorder(cs), code) == IdOf(cs, code)
  {
    if cs == [] {
    } else {
      assert Reorder(cs)[1..] == Reorder(cs[1..]);
      ReorderKeepsIds(cs[1..], code);
    }
  }

  lemma {:induction false} ServiciosKeepsIds(cs: seq<Coordination>, newId: nat, code: string)
    ensures IdOf(AddServicios(cs, newId), SERVICIOS).Some?
    ensures code != SERVICIOS ==> IdOf(AddServicios(cs, newId), code) == IdOf(cs, code)
  {
    if IdOf(cs, SERVICIOS).None? {
      AppendedId(cs, Coordination(newId, SERVICIOS, "Servicios", 16, true), code);
      AppendedId(cs, Coordination(newId, SERVICIOS, "Servicios", 16, true), SERVICIOS);
    }
  }

  lemma {:induction false} AppendedId(cs: seq<Coordination>, c: Coordination, code: string)
    ensures IdOf(cs + [c], code) == if IdOf(cs, code).Some? then IdOf(cs, code) else if c.code == code then Some(c.id) else None
  {
    if cs == [] {
    } else {
      assert (cs + [c])[1..] == cs[1..] + [c];
      AppendedId(cs[1..], c, code);
    }
  }

  /**
   * REFERENCES FOLLOW. Whichever branch runs, a user (and likewise a situation) of
   * the old coordination ends in one whose code is the new one; anybody else stays.
   */
  lemma ReferencesFollow(t: Tables, i: nat)
    requires UniqueCoordinations(t.coordinations) && i < |t.users|
    ensures var u := Unify(t);
            && |u.users| == |t.users| && u.users[i].id == t.users[i].id
            && (if t.users[i].coordinationId.Some? && t.users[i].coordinationId == IdOf(t.coordinations, SOCIAL_LAB)
                then exists c :: c in u.coordinations && Some(c.id) == u.users[i].coordinationId && c.code == PROYECCION
                else u.users[i] == t.users[i])
  {
    var cs := t.coordinations;
    var from, to := IdOf(cs, SOCIAL_LAB), IdOf(cs, PROYECCION);
    IdOfFound(cs, SOCIAL_LAB);
    IdOfFound(cs, PROYECCION);
    CodesDiffer();
    if from.Some? && t.users[i].coordinationId == from {
      var a :| 0 <= a < |cs| && cs[a].code == SOCIAL_LAB && cs[a].id == from.value;
      if to.Some? {
        var b :| 0 <= b < |cs| && cs[b].code == PROYECCION && cs[b].id == to.value;
        assert from != to;
        assert cs[b] in Unify(t).coordinations;
      } else {
        assert Unify(t).coordinations[a].code == PROYECCION;
      }
    }
  }

  /** The display order of each known code. */
  const DISPLAY_ORDER: map<string, int> := map[
    "coord-general" := 1, "coord-b2b" := 2, "coord-bellas-artes" := 3, "coord-desarrollo-profesional" := 4,
    "coord-empresarial" := 5, "coord-especializaciones" := 6, "coord-ingenierias" := 7,
    "coord-operaciones-academicas" := 8, "coord-proyeccion-social" := 9, "coord-saber-pro" := 10,
    "coord-transversales" := 11, "coord-negocios" := 12, "coord-homologaciones" := 14,
    "coord-fabrica-contenidos" := 15, "coord-servicios" := 16]

  /** Reordering touches the display order only: known codes take their place, others keep theirs. */
  lemma ReorderedRows(cs: seq<Coordination>, i: nat)
    requires i < |cs|
    ensures var c := Reorder(cs)[i];
            && c.id == cs[i].id && c.code == cs[i].code && c.name == cs[i].name && c.isActive == cs[i].isActive
            && c.displayOrder == if c.code in DISPLAY_ORDER then DISPLAY_ORDER[c.code] else cs[i].displayOrder
  {
  }

  /** The renamed coordination keeps its id and becomes the other one; the rest is untouched. */
  lemma RenamedRows(cs: seq<Coordination>, id: nat, i: nat)
    requires i < |cs|
    ensures var c := Rename(cs, id)[i];
            && c.id == cs[i].id
            && (cs[i].id == id ==> c.code == PROYECCION && c.name == "Coordinador Proyección Social"
                                   && c.displayOrder == 9 && c.isActive)
            && (cs[i].id != id ==> c == cs[i])
  {
  }

  /** The new coordination is added at the end when there is none of its code, and only then. */
  lemma AddedRow(cs: seq<Coordination>, newId: nat)
    ensures var after := AddServicios(cs, newId);
            && ((forall c | c in cs :: c.code != SERVICIOS) ==>
                 && |after| == |cs| + 1 && after[..|cs|] == cs
                 && after[|cs|] == Coordination(newId, SERVICIOS, "Servicios", 16, true))
            && ((exists c :: c in cs && c.code == SERVICIOS) ==> after == cs)
  {
    if IdOf(cs, SERVICIOS).Some? {
      IdOfFound(cs, SERVICIOS);
    }
    if exists c :: c in cs && c.code == SERVICIOS {
      CodeFound(cs, SERVICIOS);
    }
  }

  lemma {:induction false} CodeFound(cs: seq<Coordination>, code: string)
    requires exists c :: c in cs && c.code == code
    ensures IdOf(cs, code).Some?
  {
    if cs[0].code == code {
    } else {
      var c :| c in cs && c.code == code;
      assert c in cs[1..];
      CodeFound(cs[1..], code);
    }
  }

  /** RERUN. Applying the migration a second time changes nothing at all. */
  lemma UpTwiceIsUpOnce(t: Tables, newId: nat, otherId: nat)
    requires UniqueCoordinations(t.coordinations)
    ensures Up(Up(t, newId), otherId) == Up(t, newId)
  {
    var added := AddServicios(Unify(t).coordinations, newId);
    UnifyRemovesSocialLab(t);
    AddedIds(Unify(t).coordinations, newId);
    ReorderKeepsIds(added, SOCIAL_LAB);
    ReorderKeepsIds(added, SERVICIOS);
    ReorderTwice(added);
  }

  lemma AddedIds(cs: seq<Coordination>, newId: nat)
    ensures IdOf(AddServicios(cs, newId), SERVICIOS).Some?
    ensures IdOf(AddServicios(cs, newId), SOCIAL_LAB) == IdOf(cs, SOCIAL_LAB)
  {
    CodesDiffer();
    ServiciosKeepsIds(cs, newId, SOCIAL_LAB);
  }

  lemma ReorderTwice(cs: seq<Coordination>)
    ensures Reorder(Reorder(cs)) == Reorder(cs)
  {
    forall i | 0 <= i < |cs| ensures Reorder(Reorder(cs))[i] == Reorder(cs)[i] {
      assert Reorder(cs)[i].code == cs[i].code;
    }
  }

  // ----- the statements on mutable tables

  class MigrationTables {
    var coordinations: seq<Coordination>
    var users: seq<Reference>
    var situations: seq<Reference>
    var related: seq<Link>
    var affected: seq<Link>
    var dependencies: seq<Dependency>

    function View(): Tables
      reads this
    {
      Tables(coordinations, users, situations, related, affected, dependencies)
    }

    constructor (t: Tables)
      ensures View() == t
    {
      coordinations, users, situations := t.coordinations, t.users, t.situations;
      related, affected, dependencies := t.related, t.affected, t.dependencies;
    }

    /** Each statement leaves the constraints of the table it touches satisfied. */
    method MergeInto(from: nat, to: nat)
      requires Constraints(View()) && from != to
      requires Exists(coordinations, from) && Exists(coordinations, to)
      modifies this
      ensures View() == Merge(old(View()), from, to)
      ensures Constraints(View()) && !Exists(coordinations, from)
      ensures Pairs(related) == PairsImage(old(Pairs(related)), from, to)
      ensures Pairs(affected) == PairsImage(old(Pairs(affected)), from, to)
      ensures |related| + old(|ParentsWithBoth(related, from, to)|) == old(|related|)
      ensures |affected| + old(|ParentsWithBoth(affected, from, to)|) == old(|affected|)
    {
      MergeIsSafe(View(), from, to);
      MergeIsImage(related, from, to);
      MergeIsImage(affected, from, to);
      MergeDropsOnePerParent(related, from, to);
      MergeDropsOnePerParent(affected, from, to);
      MergeKeepsUnique(related, from, to);
      MergeKeepsUnique(affected, from, to);
      users := MoveReferences(users, from, to);
      situations := MoveReferences(situations, from, to);
      related := DropDuplicates(related, from, to);
      assert UniqueLinks(related);
      related := MoveLinks(related, from, to);
      assert UniqueLinks(related);
      affected := DropDuplicates(affected, from, to);
      assert UniqueLinks(affected);
      affected := MoveLinks(affected, from, to);
      assert UniqueLinks(affected);
      dependencies := Filter((d: Dependency) => d.sourceId != from && d.targetId != from, dependencies);
      coordinations := Filter((c: Coordination) => c.id != from, coordinations);
    }

    method RunUp(newId: nat)
      requires Constraints(View())
      modifies this
      ensures View() == Up(old(View()), newId)
      ensures Up(View(), newId) == View()
      ensures IdOf(coordinations, SOCIAL_LAB).None? && IdOf(coordinations, SERVICIOS).Some?
    {
      UpTwiceIsUpOnce(View(), newId, newId);
      UnifyRemovesSocialLab(View());
      CodesDiffer();
      var from, to := IdOf(coordinations, SOCIAL_LAB), IdOf(coordinations, PROYECCION);
      IdOfFound(coordinations, SOCIAL_LAB);
      IdOfFound(coordinations, PROYECCION);
      if from.Some? && to.Some? && from != to {
        MergeInto(from.value, to.value);
      } else if from.Some? && to.None? {
        coordinations := Rename(coordinations, from.value);
      }
      ServiciosKeepsIds(coordinations, newId, SOCIAL_LAB);
      var servicios := IdOf(coordinations, SERVICIOS);
      if servicios.None? {
        coordinations := coordinations + [Coordination(newId, SERVICIOS, "Servicios", 16, true)];
      }
      ReorderKeepsIds(coordinations, SOCIAL_LAB);
      ReorderKeepsIds(coordinations, SERVICIOS);
      coordinations := Reorder(coordinations);
    }
  }
}
