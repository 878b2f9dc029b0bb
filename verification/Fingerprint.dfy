/** The canonical form that `computeRegistrationFingerprint` hashes. */
module Fingerprint {
  import opened Common
  import opened Text
  import opened Seqs

  /** An optional property as JavaScript sees it. */
  datatype Field = Undefined | Null | Given(text: string)

  datatype Dto = Dto(
    title: string,
    description: string,
    coordinationId: Field,
    categoryId: Field,
    severity: string,
    occurredAt: string,
    relatedCoordinationIds: Option<seq<string>>,
    reportKind: Field,
    affectedCoordinationId: Field,
    affectedProcess: Field,
    pendingDelivery: Field,
    initialConsequence: Field)

  /** The property names, in the order the object lists them. */
  datatype Name =
    | Title | Description | CoordinationId | CategoryId | Severity | OccurredAt | RelatedCoordinationIds
    | ReportKind | AffectedCoordinationId | AffectedProcess | PendingDelivery | InitialConsequence

  datatype Json = JNull | JText(text: string) | JList(items: seq<string>)

  // ----- related ids: trimmed, without repeats or blanks, sorted

  function RelatedIds(dto: Dto): seq<string> {
    if dto.relatedCoordinationIds.None? then [] else dto.relatedCoordinationIds.value
  }

  function CanonicalRelated(ids: seq<string>): seq<string> {
    Sort(Leq, Filter((id: string) => id != "", Dedupe(Trimmed(ids))))
  }

  /** The nonempty trimmed ids, as a set. */
  ghost function RelatedSet(ids: seq<string>): set<string> {
    set i | 0 <= i < |ids| && Trim(ids[i]) != "" :: Trim(ids[i])
  }

  ghost predicate StrictlySorted(xs: seq<string>) {
    forall i, j | 0 <= i < j < |xs| :: Leq(xs[i], xs[j]) && xs[i] != xs[j]
  }

  /** A strictly sorted list is determined by its elements. */
  lemma SortedUnique(a: seq<string>, b: seq<string>)
    requires StrictlySorted(a) && StrictlySorted(b)
    requires forall x :: x in a <==> x in b
    ensures a == b
  {
    var less := (x: string, y: string) => Leq(x, y) && x != y;
    forall x, y | less(x, y) ensures !less(y, x) {
      if Leq(y, x) { LeqAntisymmetric(x, y); }
    }
    IncreasingUnique(less, a, b);
  }

  lemma RelatedElements(ids: seq<string>)
    ensures StrictlySorted(CanonicalRelated(ids))
    ensures forall x :: x in CanonicalRelated(ids) <==> x in RelatedSet(ids)
  {
    var trimmed := Trimmed(ids);
    DedupeDistinct(trimmed);
    FilterDistinct((id: string) => id != "", Dedupe(trimmed));
    LeqTotalOrder();
    SortSorted(Leq, Filter((id: string) => id != "", Dedupe(trimmed)));
    forall x ensures x in CanonicalRelated(ids) <==> x in RelatedSet(ids) {
      if x in CanonicalRelated(ids) {
        var i :| 0 <= i < |trimmed| && trimmed[i] == x;
        assert Trim(ids[i]) == x;
      }
      if x in RelatedSet(ids) {
        var i :| 0 <= i < |ids| && Trim(ids[i]) == x && x != "";
        assert trimmed[i] == x;
      }
    }
  }

  /** Equal canonical lists mean equal sets of trimmed, nonempty ids: order, repeats and blanks are gone. */
  lemma RelatedEqualIffSameSet(a: seq<string>, b: seq<string>)
    ensures CanonicalRelated(a) == CanonicalRelated(b) <==> RelatedSet(a) == RelatedSet(b)
  {
    RelatedElements(a);
    RelatedElements(b);
    if RelatedSet(a) == RelatedSet(b) {
      SortedUnique(CanonicalRelated(a), CanonicalRelated(b));
    } else if CanonicalRelated(a) == CanonicalRelated(b) {
      assert forall x :: x in RelatedSet(a) <==> x in RelatedSet(b);
    }
  }

  // ----- the object, and what `JSON.stringify` keeps of it

  /** A property value; `None` is `undefined`, which does not enter the JSON. */
  function Plain(f: Field): Option<Json> {
    match f
    case Undefined => None
    case Null => Some(JNull)
    case Given(text) => Some(JText(text))
  }

  /** `value ?? null`. */
  function OrNull(f: Field): Option<Json> {
    if f.Given? then Some(JText(f.text)) else Some(JNull)
  }

  /** `value?.trim()`: null and undefined both become undefined. */
  function OptionalTrim(f: Field): Option<Json> {
    if f.Given? then Some(JText(Trim(f.text))) else None
  }

  function Slots(dto: Dto): seq<(Name, Option<Json>)> {
    [ (Title, Some(JText(Trim(dto.title)))),
      (Description, Some(JText(Trim(dto.description)))),
      (CoordinationId, OrNull(dto.coordinationId)),
      (CategoryId, Plain(dto.categoryId)),
      (Severity, Some(JText(dto.severity))),
      (OccurredAt, Some(JText(dto.occurredAt))),
      (RelatedCoordinationIds, Some(JList(CanonicalRelated(RelatedIds(dto))))),
      (ReportKind, Plain(dto.reportKind)),
      (AffectedCoordinationId, Plain(dto.affectedCoordinationId)),
      (AffectedProcess, OptionalTrim(dto.affectedProcess)),
      (PendingDelivery, OptionalTrim(dto.pendingDelivery)),
      (InitialConsequence, OptionalTrim(dto.initialConsequence)) ]
  }

  /** What one property contributes. */
  function EmitOne(slot: (Name, Option<Json>)): seq<(Name, Json)> {
    if slot.1.Some? then [(slot.0, slot.1.value)] else []
  }

  function Emit(slots: seq<(Name, Option<Json>)>): seq<(Name, Json)> {
    if slots == [] then []
    else EmitOne(slots[0]) + Emit(slots[1..])
  }

  /** The properties written, in order. */
  function Canonical(dto: Dto): seq<(Name, Json)> {
    Emit(Slots(dto))
  }

  ghost predicate SameNames(a: seq<(Name, Option<Json>)>, b: seq<(Name, Option<Json>)>) {
    && |a| == |b|
    && (forall i | 0 <= i < |a| :: a[i].0 == b[i].0)
    && (forall i, j | 0 <= i < j < |a| :: a[i].0 != a[j].0)
  }

  lemma {:induction false} EmittedNames(slots: seq<(Name, Option<Json>)>, name: Name)
    requires forall i | 0 <= i < |slots| :: slots[i].0 != name
    ensures forall i | 0 <= i < |Emit(slots)| :: Emit(slots)[i].0 != name
  {
    if slots == [] {
    } else {
      EmittedNames(slots[1..], name);
    }
  }

  /** Leaving out the undefined properties loses nothing: names are distinct and in a fixed order. */
  lemma {:induction false} EmitInjective(a: seq<(Name, Option<Json>)>, b: seq<(Name, Option<Json>)>)
    requires SameNames(a, b) && Emit(a) == Emit(b)
    ensures a == b
  {
    if a == [] {
    } else {
      var name := a[0].0;
      EmittedNames(a[1..], name);
      EmittedNames(b[1..], name);
      var ra, rb := Emit(a[1..]), Emit(b[1..]);
      assert if a[0].1.Some? then Emit(a)[0].0 == name else Emit(a) == ra;
      assert if b[0].1.Some? then Emit(b)[0].0 == name else Emit(b) == rb;
      if a[0].1.Some? && b[0].1.Some? {
        assert Emit(a)[0] == Emit(b)[0];
        assert Emit(a)[1..] == ra && Emit(b)[1..] == rb;
      } else if a[0].1.Some? {
        assert false;
      } else if b[0].1.Some? {
        assert false;
      }
      EmitInjective(a[1..], b[1..]);
      assert a == [a[0]] + a[1..] && b == [b[0]] + b[1..];
    }
  }

  /** Two fields that `value?.trim()` does not tell apart. */
  predicate SameTrimmed(a: Field, b: Field) {
    if a.Given? && b.Given? then Trim(a.text) == Trim(b.text) else !a.Given? && !b.Given?
  }

  /** When two requests count as the same registration. */
  ghost predicate SameContent(a: Dto, b: Dto) {
    && Trim(a.title) == Trim(b.title)
    && Trim(a.description) == Trim(b.description)
    && (if a.coordinationId.Given? then a.coordinationId == b.coordinationId else !b.coordinationId.Given?)
    && a.categoryId == b.categoryId
    && a.severity == b.severity
    && a.occurredAt == b.occurredAt
    && RelatedSet(RelatedIds(a)) == RelatedSet(RelatedIds(b))
    && a.reportKind == b.reportKind
    && a.affectedCoordinationId == b.affectedCoordinationId
    && SameTrimmed(a.affectedProcess, b.affectedProcess)
    && SameTrimmed(a.pendingDelivery, b.pendingDelivery)
    && SameTrimmed(a.initialConsequence, b.initialConsequence)
  }

  lemma SlotsEqualIff(a: Dto, b: Dto)
    ensures Slots(a) == Slots(b) <==> SameContent(a, b)
  {
    RelatedEqualIffSameSet(RelatedIds(a), RelatedIds(b));
    var sa, sb := Slots(a), Slots(b);
    if sa == sb {
      assert forall i | 0 <= i < 12 :: sa[i].1 == sb[i].1;
      assert sa[0].1 == sb[0].1 && sa[1].1 == sb[1].1 && sa[2].1 == sb[2].1 && sa[3].1 == sb[3].1;
      assert sa[4].1 == sb[4].1 && sa[5].1 == sb[5].1 && sa[6].1 == sb[6].1 && sa[7].1 == sb[7].1;
      assert sa[8].1 == sb[8].1 && sa[9].1 == sb[9].1 && sa[10].1 == sb[10].1 && sa[11].1 == sb[11].1;
    }
  }

  /** CANONICAL FORM: equal exactly for the same content, whatever the padding, order and repetition. */
  lemma CanonicalEqualIff(a: Dto, b: Dto)
    ensures Canonical(a) == Canonical(b) <==> SameContent(a, b)
  {
    SlotsEqualIff(a, b);
    if Canonical(a) == Canonical(b) {
      NamesDistinct(a, b);
      EmitInjective(Slots(a), Slots(b));
    }
  }

  function NameAt(i: nat): Name {
    match i
    case 0 => Title case 1 => Description case 2 => CoordinationId case 3 => CategoryId
    case 4 => Severity case 5 => OccurredAt case 6 => RelatedCoordinationIds case 7 => ReportKind
    case 8 => AffectedCoordinationId case 9 => AffectedProcess case 10 => PendingDelivery
    case _ => InitialConsequence
  }

  function Position(name: Name): nat {
    match name
    case Title => 0 case Description => 1 case CoordinationId => 2 case CategoryId => 3
    case Severity => 4 case OccurredAt => 5 case RelatedCoordinationIds => 6 case ReportKind => 7
    case AffectedCoordinationId => 8 case AffectedProcess => 9 case PendingDelivery => 10
    case InitialConsequence => 11
  }

  lemma NamesOf(dto: Dto, i: nat)
    requires i < 12
    ensures Slots(dto)[i].0 == NameAt(i) && Position(NameAt(i)) == i
  {
  }

  lemma NamesDistinct(a: Dto, b: Dto)
    ensures SameNames(Slots(a), Slots(b))
  {
    var sa, sb := Slots(a), Slots(b);
    assert |sa| == 12 && |sb| == 12;
    forall i: nat | i < 12 ensures sa[i].0 == NameAt(i) && sb[i].0 == NameAt(i) && Position(sa[i].0) == i {
      NamesOf(a, i);
      NamesOf(b, i);
    }
  }

  /** The text with blanks around it, when there is one. */
  function PadField(left: string, f: Field, right: string): Field {
    if f.Given? then Given(left + f.text + right) else f
  }

  /** Blanks around every text the form trims. */
  function Padded(dto: Dto, left: string, right: string): Dto {
    dto.(
      title := left + dto.title + right,
      description := left + dto.description + right,
      affectedProcess := PadField(left, dto.affectedProcess, right),
      pendingDelivery := PadField(left, dto.pendingDelivery, right),
      initialConsequence := PadField(left, dto.initialConsequence, right))
  }

  lemma PaddedField(left: string, f: Field, right: string)
    requires Blank(left) && Blank(right)
    ensures SameTrimmed(PadField(left, f, right), f)
  {
    if f.Given? {
      TrimPadded(left, f.text, right);
    }
  }

  /** Padding any trimmed text, and reordering, repeating or padding related ids, leaves the canonical form alone. */
  lemma PaddingAndOrderInvisible(dto: Dto, left: string, right: string, ids: seq<string>)
    requires Blank(left) && Blank(right)
    requires RelatedSet(ids) == RelatedSet(RelatedIds(dto))
    ensures Canonical(Padded(dto, left, right).(relatedCoordinationIds := Some(ids))) == Canonical(dto)
  {
    TrimPadded(left, dto.title, right);
    TrimPadded(left, dto.description, right);
    PaddedField(left, dto.affectedProcess, right);
    PaddedField(left, dto.pendingDelivery, right);
    PaddedField(left, dto.initialConsequence, right);
    CanonicalEqualIff(Padded(dto, left, right).(relatedCoordinationIds := Some(ids)), dto);
  }

  /** LEGACY: a request with no card field writes the seven fields the previous contract hashed, and no other. */
  lemma LegacyFields(dto: Dto)
    requires dto.categoryId.Given? && dto.reportKind.Undefined? && dto.affectedCoordinationId.Undefined?
    requires !dto.affectedProcess.Given? && !dto.pendingDelivery.Given? && !dto.initialConsequence.Given?
    ensures Canonical(dto) ==
      [ (Title, JText(Trim(dto.title))),
        (Description, JText(Trim(dto.description))),
        (CoordinationId, if dto.coordinationId.Given? then JText(dto.coordinationId.text) else JNull),
        (CategoryId, JText(dto.categoryId.text)),
        (Severity, JText(dto.severity)),
        (OccurredAt, JText(dto.occurredAt)),
        (RelatedCoordinationIds, JList(CanonicalRelated(RelatedIds(dto)))) ]
  {
    CardFieldsAbsent(dto);
    EmitDefined(Slots(dto)[..7]);
  }

  /** CARDS: a request with every field writes the twelve of them, each with its own value, in order. */
  lemma CardFields(dto: Dto)
    requires dto.coordinationId.Given? && dto.categoryId.Given? && dto.reportKind.Given? && dto.affectedCoordinationId.Given?
    requires dto.affectedProcess.Given? && dto.pendingDelivery.Given? && dto.initialConsequence.Given?
    ensures Canonical(dto) ==
      [ (Title, JText(Trim(dto.title))),
        (Description, JText(Trim(dto.description))),
        (CoordinationId, JText(dto.coordinationId.text)),
        (CategoryId, JText(dto.categoryId.text)),
        (Severity, JText(dto.severity)),
        (OccurredAt, JText(dto.occurredAt)),
        (RelatedCoordinationIds, JList(CanonicalRelated(RelatedIds(dto)))),
        (ReportKind, JText(dto.reportKind.text)),
        (AffectedCoordinationId, JText(dto.affectedCoordinationId.text)),
        (AffectedProcess, JText(Trim(dto.affectedProcess.text))),
        (PendingDelivery, JText(Trim(dto.pendingDelivery.text))),
        (InitialConsequence, JText(Trim(dto.initialConsequence.text))) ]
  {
    EmitDefined(Slots(dto));
  }

  lemma CardFieldsAbsent(dto: Dto)
    requires dto.reportKind.Undefined? && dto.affectedCoordinationId.Undefined?
    requires !dto.affectedProcess.Given? && !dto.pendingDelivery.Given? && !dto.initialConsequence.Given?
    ensures Canonical(dto) == Emit(Slots(dto)[..7])
  {
    var slots := Slots(dto);
    var legacy, cards := slots[..7], slots[7..];
    assert slots == legacy + cards;
    EmitConcat(legacy, cards);
    EmitUndefined(cards);
  }

  lemma {:induction false} EmitConcat(a: seq<(Name, Option<Json>)>, b: seq<(Name, Option<Json>)>)
    ensures Emit(a + b) == Emit(a) + Emit(b)
  {
    if a == [] {
      assert a + b == b;
    } else {
      var head, tail := a[0], a[1..];
      EmitConcat(tail, b);
      EmitHead(head, tail);
      EmitHead(head, tail + b);
      assert a == [head] + tail;
      assert a + b == [head] + (tail + b);
      Regroup(EmitOne(head), Emit(tail), Emit(b));
    }
  }

  lemma Regroup(x: seq<(Name, Json)>, y: seq<(Name, Json)>, z: seq<(Name, Json)>)
    ensures x + (y + z) == (x + y) + z
  {
  }

  lemma EmitHead(head: (Name, Option<Json>), rest: seq<(Name, Option<Json>)>)
    ensures Emit([head] + rest) == EmitOne(head) + Emit(rest)
  {
    assert ([head] + rest)[1..] == rest;
  }

  lemma {:induction false} EmitUndefined(slots: seq<(Name, Option<Json>)>)
    requires forall i | 0 <= i < |slots| :: slots[i].1.None?
    ensures Emit(slots) == []
  {
    if slots == [] {
    } else {
      EmitUndefined(slots[1..]);
    }
  }

  lemma {:induction false} EmitDefined(slots: seq<(Name, Option<Json>)>)
    requires forall i | 0 <= i < |slots| :: slots[i].1.Some?
    ensures |Emit(slots)| == |slots|
    ensures forall i | 0 <= i < |slots| :: Emit(slots)[i] == (slots[i].0, slots[i].1.value)
  {
    if slots == [] {
    } else {
      EmitDefined(slots[1..]);
    }
  }
}
