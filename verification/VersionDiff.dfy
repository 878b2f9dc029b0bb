/** Comparison of two analysis versions by title -> priority (or code -> level). */
module VersionDiff {
  import opened Common
  import opened Seqs

  datatype Item = Item(title: string, priority: string)

  datatype Changed = Changed(title: string, fromPriority: string, toPriority: string)

  datatype Comparison = Comparison(added: seq<Item>, removed: seq<Item>, changed: seq<Changed>)

  // ----- a JavaScript `Map`, entries in insertion order

  /** `map.set`: an existing key keeps its place and takes the new value. */
  function Put(m: seq<Item>, item: Item): seq<Item> {
    if m == [] then [item]
    else if m[0].title == item.title then [item] + m[1..]
    else [m[0]] + Put(m[1..], item)
  }

  /** `new Map(items.map(...))`. */
  function MapOf(items: seq<Item>): seq<Item> {
    if items == [] then [] else Put(MapOf(items[..|items| - 1]), items[|items| - 1])
  }

  function Get(m: seq<Item>, title: string): Option<string> {
    if m == [] then None
    else if m[0].title == title then Some(m[0].priority)
    else Get(m[1..], title)
  }

  /** What a list of items says, the last item of a title winning. */
  function Content(items: seq<Item>): map<string, string> {
    if items == [] then map[]
    else Content(items[..|items| - 1])[items[|items| - 1].title := items[|items| - 1].priority]
  }

  ghost predicate DistinctTitles(m: seq<Item>) {
    forall i, j | 0 <= i < j < |m| :: m[i].title != m[j].title
  }

  /** A map with distinct titles says the same as a finite map. */
  ghost predicate Says(m: seq<Item>, content: map<string, string>) {
    && DistinctTitles(m)
    && (forall t :: t in content <==> Get(m, t).Some?)
    && (forall t | t in content :: Get(m, t) == Some(content[t]))
  }

  lemma {:induction false} GetIsMember(m: seq<Item>, title: string)
    ensures Get(m, title).Some? ==> Item(title, Get(m, title).value) in m
    ensures Get(m, title).None? ==> forall item | item in m :: item.title != title
  {
    if m != [] && m[0].title != title {
      GetIsMember(m[1..], title);
    }
  }

  lemma {:induction false} MemberIsGot(m: seq<Item>, item: Item)
    requires DistinctTitles(m) && item in m
    ensures Get(m, item.title) == Some(item.priority)
  {
    if m[0] == item {
    } else {
      var i :| 0 < i < |m| && m[i] == item;
      assert m[1..][i - 1] == item;
      MemberIsGot(m[1..], item);
    }
  }

  lemma {:induction false} PutSays(m: seq<Item>, item: Item, title: string)
    requires DistinctTitles(m)
    ensures DistinctTitles(Put(m, item))
    ensures forall i | 0 <= i < |Put(m, item)| ::
              Put(m, item)[i].title == item.title || exists j :: 0 <= j < |m| && m[j].title == Put(m, item)[i].title
    ensures Get(Put(m, item), title) == if title == item.title then Some(item.priority) else Get(m, title)
  {
    if m == [] {
    } else if m[0].title == item.title {
      assert Put(m, item)[1..] == m[1..];
    } else {
      PutSays(m[1..], item, title);
      assert Put(m, item)[1..] == Put(m[1..], item);
    }
  }

  /** Building the map keeps the last priority of each title and one entry for each. */
  lemma {:induction false} MapOfSays(items: seq<Item>)
    ensures Says(MapOf(items), Content(items))
  {
    if items == [] {
    } else {
      var n := |items| - 1;
      MapOfSays(items[..n]);
      PutSays(MapOf(items[..n]), items[n], items[n].title);
      forall t ensures Get(MapOf(items), t) == if t == items[n].title then Some(items[n].priority) else Get(MapOf(items[..n]), t) {
        PutSays(MapOf(items[..n]), items[n], t);
      }
    }
  }

  // ----- the comparison

  function ChangedOf(from: seq<Item>, to: seq<Item>): seq<Changed> {
    if to == [] then []
    else
      var rest := ChangedOf(from, to[1..]);
      var previous := Get(from, to[0].title);
      if previous.Some? && previous.value != to[0].priority
      then [Changed(to[0].title, previous.value, to[0].priority)] + rest
      else rest
  }

  function CompareMaps(from: seq<Item>, to: seq<Item>): Comparison {
    Comparison(
      Filter((item: Item) => Get(from, item.title).None?, to),
      Filter((item: Item) => Get(to, item.title).None?, from),
      ChangedOf(from, to))
  }

  function CompareRecommendations(from: seq<Item>, to: seq<Item>): Comparison {
    CompareMaps(MapOf(from), MapOf(to))
  }

  /** What each list of the comparison holds, in terms of the two versions. */
  ghost predicate Classified(d: Comparison, from: map<string, string>, to: map<string, string>) {
    && (forall t, p :: Item(t, p) in d.added <==> t in to && t !in from && to[t] == p)
    && (forall t, p :: Item(t, p) in d.removed <==> t in from && t !in to && from[t] == p)
    && (forall t, p, q :: Changed(t, p, q) in d.changed <==> t in from && t in to && from[t] == p && to[t] == q && p != q)
  }

  lemma {:induction false} ChangedMembers(from: seq<Item>, to: seq<Item>, c: Changed)
    ensures c in ChangedOf(from, to) <==>
            Item(c.title, c.toPriority) in to && Get(from, c.title) == Some(c.fromPriority) && c.fromPriority != c.toPriority
  {
    if to == [] {
    } else {
      ChangedMembers(from, to[1..], c);
    }
  }

  lemma MemberIff(m: seq<Item>, content: map<string, string>, t: string, p: string)
    requires Says(m, content)
    ensures Item(t, p) in m <==> t in content && content[t] == p
  {
    GetIsMember(m, t);
    if Item(t, p) in m {
      MemberIsGot(m, Item(t, p));
    }
  }

  /** The titles, in insertion order. */
  function TitleList(m: seq<Item>): seq<string> {
    if m == [] then [] else [m[0].title] + TitleList(m[1..])
  }

  /** `map.set` keeps the place of an existing key, and appends a new one. */
  lemma {:induction false} PutKeepsPlaces(m: seq<Item>, item: Item)
    ensures TitleList(Put(m, item)) == TitleList(m) + if item.title in TitleList(m) then [] else [item.title]
  {
    if m == [] {
    } else if m[0].title == item.title {
      assert ([item] + m[1..])[1..] == m[1..];
    } else {
      PutKeepsPlaces(m[1..], item);
      assert Put(m, item)[1..] == Put(m[1..], item);
    }
  }

  lemma {:induction false} ChangedConcat(from: seq<Item>, a: seq<Item>, b: seq<Item>)
    ensures ChangedOf(from, a + b) == ChangedOf(from, a) + ChangedOf(from, b)
  {
    if a == [] {
      assert a + b == b;
    } else {
      assert (a + b)[1..] == a[1..] + b;
      ChangedConcat(from, a[1..], b);
    }
  }

  /** ORDER. The lists go in the order of the versions: one more entry of the new version goes last, in the list it belongs to. */
  lemma OneMoreEntry(from: seq<Item>, to: seq<Item>, item: Item)
    ensures var d, e := CompareMaps(from, to), CompareMaps(from, to + [item]);
            var previous := Get(from, item.title);
            && e.added == d.added + (if previous.None? then [item] else [])
            && e.changed == d.changed +
               (if previous.Some? && previous.value != item.priority
                then [Changed(item.title, previous.value, item.priority)] else [])
    ensures var d, e := CompareMaps(to, from), CompareMaps(to + [item], from);
            e.removed == d.removed + (if Get(from, item.title).None? then [item] else [])
  {
    FilterConcat((x: Item) => Get(from, x.title).None?, to, [item]);
    ChangedConcat(from, to, [item]);
  }

  lemma ComparisonClassifies(from: seq<Item>, to: seq<Item>)
    ensures Classified(CompareRecommendations(from, to), Content(from), Content(to))
  {
    var a, b := MapOf(from), MapOf(to);
    MapOfSays(from);
    MapOfSays(to);
    var d := CompareRecommendations(from, to);
    forall t, p ensures Item(t, p) in d.added <==> t in Content(to) && t !in Content(from) && Content(to)[t] == p {
      MemberIff(b, Content(to), t, p);
    }
    forall t, p ensures Item(t, p) in d.removed <==> t in Content(from) && t !in Content(to) && Content(from)[t] == p {
      MemberIff(a, Content(from), t, p);
    }
    forall t, p, q ensures Changed(t, p, q) in d.changed <==>
        t in Content(from) && t in Content(to) && Content(from)[t] == p && Content(to)[t] == q && p != q {
      MemberIff(b, Content(to), t, q);
      ChangedMembers(a, b, Changed(t, p, q));
    }
  }

  function Titles(items: seq<Item>): set<string> {
    set item | item in items :: item.title
  }

  function ChangedTitles(items: seq<Changed>): set<string> {
    set item | item in items :: item.title
  }

  function NewItems(changed: seq<Changed>): (r: seq<Item>)
    ensures |r| == |changed|
  {
    seq(|changed|, i requires 0 <= i < |changed| => Item(changed[i].title, changed[i].toPriority))
  }

  /** Replays a comparison on the old version. */
  function ApplyTo(d: Comparison, old_: map<string, string>): map<string, string> {
    (old_ - Titles(d.removed)) + Content(d.added) + Content(NewItems(d.changed))
  }

  lemma {:induction false} ContentMembers(items: seq<Item>, t: string)
    ensures t in Content(items) ==> Item(t, Content(items)[t]) in items
    ensures t !in Content(items) ==> forall item | item in items :: item.title != t
  {
    if items == [] {
    } else {
      var n := |items| - 1;
      ContentMembers(items[..n], t);
      assert items[n] in items && forall item | item in items :: item == items[n] || item in items[..n];
    }
  }

  /** The lists as finite maps: which titles they hold and what they say about them. */
  lemma ListsSay(d: Comparison, a: map<string, string>, b: map<string, string>, t: string)
    requires Classified(d, a, b)
    ensures t in Content(d.added) <==> t in b && t !in a
    ensures t in Content(d.added) ==> Content(d.added)[t] == b[t]
    ensures t in Titles(d.added) <==> t in b && t !in a
    ensures t in Titles(d.removed) <==> t in a && t !in b
    ensures t in ChangedTitles(d.changed) <==> t in a && t in b && a[t] != b[t]
  {
    ContentMembers(d.added, t);
    if t in b && t !in a {
      assert Item(t, b[t]) in d.added;
    }
    if t in Titles(d.added) {
      var item :| item in d.added && item.title == t;
      assert item == Item(t, item.priority);
    }
    if t in a && t !in b {
      assert Item(t, a[t]) in d.removed;
    }
    if exists item :: item in d.removed && item.title == t {
      var item :| item in d.removed && item.title == t;
      assert item == Item(t, item.priority);
    }
    ChangedSay(d, a, b, t);
  }

  lemma ChangedSay(d: Comparison, a: map<string, string>, b: map<string, string>, t: string)
    requires Classified(d, a, b)
    ensures t in ChangedTitles(d.changed) <==> t in a && t in b && a[t] != b[t]
    ensures t in Content(NewItems(d.changed)) <==> t in a && t in b && a[t] != b[t]
    ensures t in Content(NewItems(d.changed)) ==> Content(NewItems(d.changed))[t] == b[t]
  {
    ContentMembers(NewItems(d.changed), t);
    if t in a && t in b && a[t] != b[t] {
      var i :| 0 <= i < |d.changed| && d.changed[i] == Changed(t, a[t], b[t]);
      assert NewItems(d.changed)[i] == Item(t, b[t]);
    }
    if t in Content(NewItems(d.changed)) {
      var i :| 0 <= i < |d.changed| && NewItems(d.changed)[i] == Item(t, Content(NewItems(d.changed))[t]);
      assert d.changed[i] == Changed(t, d.changed[i].fromPriority, d.changed[i].toPriority);
    }
    if exists c :: c in d.changed && c.title == t {
      var c :| c in d.changed && c.title == t;
      assert c == Changed(t, c.fromPriority, c.toPriority);
    }
  }

  /** ROUND TRIP. The comparison, replayed on the old version, gives the new one. */
  lemma ComparisonReplays(from: seq<Item>, to: seq<Item>)
    ensures ApplyTo(CompareRecommendations(from, to), Content(from)) == Content(to)
  {
    ComparisonClassifies(from, to);
    ClassifiedReplays(CompareRecommendations(from, to), Content(from), Content(to));
  }

  lemma ClassifiedReplays(d: Comparison, a: map<string, string>, b: map<string, string>)
    requires Classified(d, a, b)
    ensures ApplyTo(d, a) == b
  {
    var after := ApplyTo(d, a);
    forall t ensures (t in after <==> t in b) && (t in b ==> after[t] == b[t]) {
      ListsSay(d, a, b, t);
      ChangedSay(d, a, b, t);
    }
  }

  /** No title appears in two of the lists. */
  lemma TitleSetsDisjoint(from: seq<Item>, to: seq<Item>)
    ensures var d := CompareRecommendations(from, to);
            && Titles(d.added) !! Titles(d.removed)
            && Titles(d.added) !! ChangedTitles(d.changed)
            && Titles(d.removed) !! ChangedTitles(d.changed)
  {
    ComparisonClassifies(from, to);
    forall t {
      ListsSay(CompareRecommendations(from, to), Content(from), Content(to), t);
    }
  }

  lemma NothingClassified(d: Comparison, a: map<string, string>, b: map<string, string>)
    requires Classified(d, a, b)
    ensures d == Comparison([], [], []) <==> a == b
  {
    EmptyIffNoMember(d.added);
    EmptyIffNoMember(d.removed);
    EmptyIffNoMember(d.changed);
    if a == b {
      forall item ensures item !in d.added && item !in d.removed {
        assert item == Item(item.title, item.priority);
      }
      forall c ensures c !in d.changed {
        assert c == Changed(c.title, c.fromPriority, c.toPriority);
      }
    } else {
      var t :| (t in a) != (t in b) || (t in a && t in b && a[t] != b[t]);
      if t in a && t in b {
        assert Changed(t, a[t], b[t]) in d.changed;
      } else if t in a {
        assert Item(t, a[t]) in d.removed;
      } else {
        assert Item(t, b[t]) in d.added;
      }
    }
  }

  /** The comparison is empty exactly for versions that say the same; so it is for a version with itself. */
  lemma EmptyIffSameContent(from: seq<Item>, to: seq<Item>)
    ensures CompareRecommendations(from, to) == Comparison([], [], []) <==> Content(from) == Content(to)
  {
    ComparisonClassifies(from, to);
    NothingClassified(CompareRecommendations(from, to), Content(from), Content(to));
  }

  /** Swapping the versions swaps added with removed and turns each change around. */
  lemma SwapFlips(from: seq<Item>, to: seq<Item>)
    ensures var d, e := CompareRecommendations(from, to), CompareRecommendations(to, from);
            && e.added == d.removed && e.removed == d.added
            && (forall t, p, q :: Changed(t, p, q) in e.changed <==> Changed(t, q, p) in d.changed)
  {
    ComparisonClassifies(from, to);
    ComparisonClassifies(to, from);
  }

  // ----- affected areas: added and removed carry only the code

  datatype AreasComparison = AreasComparison(added: seq<string>, removed: seq<string>, changed: seq<Changed>)

  function Codes(items: seq<Item>): seq<string> {
    seq(|items|, i requires 0 <= i < |items| => items[i].title)
  }

  function CompareAffectedAreas(from: seq<Item>, to: seq<Item>): AreasComparison {
    var a, b := MapOf(from), MapOf(to);
    AreasComparison(
      Filter((code: string) => Get(a, code).None?, Codes(b)),
      Filter((code: string) => Get(b, code).None?, Codes(a)),
      ChangedOf(a, b))
  }

  lemma CodesOf(items: seq<Item>, content: map<string, string>)
    requires Says(items, content)
    ensures forall t :: t in Codes(items) <==> t in content
  {
    forall t ensures t in Codes(items) <==> t in content {
      GetIsMember(items, t);
      if t in Codes(items) {
        var i :| 0 <= i < |items| && Codes(items)[i] == t;
        MemberIsGot(items, items[i]);
      }
      if t in content {
        var i :| 0 <= i < |items| && items[i] == Item(t, content[t]);
        assert Codes(items)[i] == t;
      }
    }
  }

  lemma AreasMembers(from: seq<Item>, to: seq<Item>)
    ensures var d, a, b := CompareAffectedAreas(from, to), Content(from), Content(to);
            && (forall t :: t in d.added <==> t in b && t !in a)
            && (forall t :: t in d.removed <==> t in a && t !in b)
            && d.changed == CompareRecommendations(from, to).changed
  {
    MapOfSays(from);
    MapOfSays(to);
    CodesOf(MapOf(from), Content(from));
    CodesOf(MapOf(to), Content(to));
  }

  /** The areas lists classify every code of either version, and are empty exactly when nothing differs. */
  lemma AreasClassified(from: seq<Item>, to: seq<Item>)
    ensures var d, a, b := CompareAffectedAreas(from, to), Content(from), Content(to);
            && (forall t :: t in d.added <==> t in b && t !in a)
            && (forall t :: t in d.removed <==> t in a && t !in b)
            && (forall t, p, q :: Changed(t, p, q) in d.changed <==> t in a && t in b && a[t] == p && b[t] == q && p != q)
            && (d == AreasComparison([], [], []) <==> a == b)
  {
    AreasMembers(from, to);
    ComparisonClassifies(from, to);
    AreasEmptyIff(CompareAffectedAreas(from, to), Content(from), Content(to));
  }

  lemma AreasEmptyIff(d: AreasComparison, a: map<string, string>, b: map<string, string>)
    requires forall t :: t in d.added <==> t in b && t !in a
    requires forall t :: t in d.removed <==> t in a && t !in b
    requires forall t, p, q :: Changed(t, p, q) in d.changed <==> t in a && t in b && a[t] == p && b[t] == q && p != q
    ensures d == AreasComparison([], [], []) <==> a == b
  {
    EmptyIffNoMember(d.added);
    EmptyIffNoMember(d.removed);
    EmptyIffNoMember(d.changed);
    if a == b {
      forall c ensures c !in d.changed {
        assert c == Changed(c.title, c.fromPriority, c.toPriority);
      }
    } else {
      var t :| (t in a) != (t in b) || (t in a && t in b && a[t] != b[t]);
      if t in a && t in b {
        assert Changed(t, a[t], b[t]) in d.changed;
      }
    }
  }
}
