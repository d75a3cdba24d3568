// The collection guide (components/CollectionGuide.tsx): three badge lists of item ids,
// the picker that offers the items not yet on any list, and the badge total.

module CollectionGuide {
  import opened Types
  import opened Lists
  import App

  /** `[...guideData.common, ...guideData.rare, ...guideData.seasonal]`. */
  function Badges(g: GuideData): seq<string>
  {
    g.common + g.rare + g.seasonal
  }

  /** The elements of a list, as `new Set(list)` collects them. */
  function Elements(s: seq<string>): (r: set<string>)
    ensures forall x :: x in r <==> x in s
  {
    if s == [] then {} else {s[0]} + Elements(s[1..])
  }

  /** `allUsedIds`. */
  function AllUsedIds(g: GuideData): (r: set<string>)
    ensures forall id :: id in r <==> id in g.common || id in g.rare || id in g.seasonal
  {
    Elements(Badges(g))
  }

  /** The number shown as "Badges Collected". */
  function BadgeTotal(g: GuideData): (n: nat)
    ensures n == |Badges(g)|
  {
    |g.common| + |g.rare| + |g.seasonal|
  }

  function Unused(g: GuideData): CollectedItem -> bool
  {
    (item: CollectedItem) => item.id !in AllUsedIds(g)
  }

  /** `items.filter(i => !allUsedIds.has(i.id))`: what the picker offers. */
  function Candidates(items: seq<CollectedItem>, g: GuideData): seq<CollectedItem>
  {
    Filter(items, Unused(g))
  }

  /** The picker offers exactly the items on no list, in collection order, and shows its
      empty notice exactly when every item is already on a list. */
  lemma CandidatesExactly(items: seq<CollectedItem>, g: GuideData)
    ensures forall x :: x in Candidates(items, g) <==> x in items && x.id !in AllUsedIds(g)
    ensures Candidates(items, g) == [] <==> forall k :: 0 <= k < |items| ==> items[k].id in AllUsedIds(g)
  {
    FilterMembers(items, Unused(g));
    if Candidates(items, g) == [] {
      forall k | 0 <= k < |items|
        ensures items[k].id in AllUsedIds(g)
      {
        assert items[k] in items;
      }
    } else {
      assert Candidates(items, g)[0] in Candidates(items, g);
    }
  }

  /** No id occurs on two lists, or twice on one. */
  predicate NoDuplicates(g: GuideData)
  {
    forall id :: id in Badges(g) ==> multiset(Badges(g))[id] <= 1
  }

  /** The empty guide has no duplicates. */
  lemma EmptyGuideNoDuplicates()
    ensures NoDuplicates(GuideData([], [], []))
  {
  }

  /** Appending to one list adds one copy of the id to the badges. */
  lemma AppendAddsOneBadge(g: GuideData, kind: GuideKind, id: string)
    ensures multiset(Badges(App.AppendToGuide(g, kind, id))) == multiset(Badges(g)) + multiset{id}
  {
    var a, b, c := g.common, g.rare, g.seasonal;
    match kind
    case Common =>
      assert Badges(App.AppendToGuide(g, kind, id)) == (a + [id]) + b + c;
    case Rare =>
      assert Badges(App.AppendToGuide(g, kind, id)) == a + (b + [id]) + c;
    case Seasonal =>
      assert Badges(App.AppendToGuide(g, kind, id)) == a + b + (c + [id]);
  }

  /** Adding a picked item keeps the lists free of duplicates, and the total grows by one. */
  lemma PickKeepsNoDuplicates(items: seq<CollectedItem>, g: GuideData, kind: GuideKind, pick: CollectedItem)
    requires NoDuplicates(g)
    requires pick in Candidates(items, g)
    ensures NoDuplicates(App.AppendToGuide(g, kind, pick.id))
    ensures BadgeTotal(App.AppendToGuide(g, kind, pick.id)) == BadgeTotal(g) + 1
  {
    CandidatesExactly(items, g);
    var before, after := Badges(g), Badges(App.AppendToGuide(g, kind, pick.id));
    AppendAddsOneBadge(g, kind, pick.id);
    assert pick.id !in before;
    forall x | x in after
      ensures multiset(after)[x] <= 1
    {
      if x != pick.id {
        assert multiset(after)[x] == multiset(before)[x];
        assert x in before;
      }
    }
    assert |after| == |multiset(after)| == |before| + 1;
  }

  /** A list without repeats has as many elements as entries. */
  lemma {:induction false} DistinctElements(s: seq<string>)
    requires forall x :: x in s ==> multiset(s)[x] <= 1
    ensures |Elements(s)| == |s|
  {
    if s != [] {
      var t := s[1..];
      assert s == [s[0]] + t;
      assert multiset(s) == multiset{s[0]} + multiset(t);
      assert s[0] in s;
      assert multiset(t)[s[0]] == 0;
      forall x | x in t
        ensures multiset(t)[x] <= 1
      {
        assert x in s;
      }
      DistinctElements(t);
      assert s[0] !in Elements(t);
      assert Elements(s) == {s[0]} + Elements(t);
    }
  }

  /** With the lists free of duplicates, the badge total counts distinct items. */
  lemma BadgeTotalCountsUsedIds(g: GuideData)
    requires NoDuplicates(g)
    ensures BadgeTotal(g) == |AllUsedIds(g)|
  {
    DistinctElements(Badges(g));
  }

  /** `allItems.find(i => i.id === id)`: the first item with the id. */
  function FindItem(items: seq<CollectedItem>, id: string): (r: Option<CollectedItem>)
    ensures r.Some? ==> r.value in items && r.value.id == id
    ensures r.Some? ==> FirstWithId(items, id, r.value)
    ensures r.None? <==> forall k :: 0 <= k < |items| ==> items[k].id != id
  {
    if items == [] then None
    else if items[0].id == id then Some(items[0])
    else
      var r := FindItem(items[1..], id);
      if r.Some? then
        FirstWithIdShift(items, id, r.value);
        r
      else r
  }

  /** x is the first item of the list with the id: it sits at some index k, and no item
      before k has the id. */
  ghost predicate FirstWithId(items: seq<CollectedItem>, id: string, x: CollectedItem)
  {
    exists k :: 0 <= k < |items| && items[k] == x && forall j :: 0 <= j < k ==> items[j].id != id
  }

  lemma FirstWithIdShift(items: seq<CollectedItem>, id: string, x: CollectedItem)
    requires items != [] && items[0].id != id && FirstWithId(items[1..], id, x)
    ensures FirstWithId(items, id, x)
  {
    var k :| 0 <= k < |items[1..]| && items[1..][k] == x && forall j :: 0 <= j < k ==> items[1..][j].id != id;
    assert items[k + 1] == x;
    forall j | 0 <= j < k + 1
      ensures items[j].id != id
    {
      if j > 0 { assert items[j] == items[1..][j - 1]; }
    }
  }

  /** The ids of a list that name an item of the collection, in list order. */
  function ResolvedIds(ids: seq<string>, items: seq<CollectedItem>): seq<string>
  {
    Filter(ids, id => FindItem(items, id).Some?)
  }

  /** `itemIds.map(id => allItems.find(...)).filter(Boolean)`: slot k shows the item of the
      k-th id that names one, so ids with no item are skipped and the later ones move up. */
  function FilledItems(ids: seq<string>, items: seq<CollectedItem>): (r: seq<CollectedItem>)
    ensures |r| <= |ids|
    ensures forall k :: 0 <= k < |r| ==> r[k] in items && r[k].id in ids
    ensures |r| == |ResolvedIds(ids, items)|
    ensures forall k :: 0 <= k < |r| ==> Some(r[k]) == FindItem(items, ResolvedIds(ids, items)[k])
  {
    if ids == [] then []
    else
      var rest := FilledItems(ids[1..], items);
      var found := FindItem(items, ids[0]);
      assert ResolvedIds(ids, items)
          == (if found.Some? then [ids[0]] else []) + ResolvedIds(ids[1..], items);
      if found.Some? then [found.value] + rest else rest
  }

  /** When every id names an item, each slot shows the item of its id, in list order. */
  lemma {:induction false} FilledItemsInOrder(ids: seq<string>, items: seq<CollectedItem>)
    requires forall k :: 0 <= k < |ids| ==> FindItem(items, ids[k]).Some?
    ensures |FilledItems(ids, items)| == |ids|
    ensures forall k :: 0 <= k < |ids| ==> Some(FilledItems(ids, items)[k]) == FindItem(items, ids[k])
  {
    FilterKeepsAll(ids, id => FindItem(items, id).Some?);
    assert ResolvedIds(ids, items) == ids;
  }

  /** Ids with no matching item are dropped: the slots are those of the resolved ids alone,
      and a list none of whose ids names an item shows no slot. */
  lemma FilledItemsDropsMissing(ids: seq<string>, items: seq<CollectedItem>)
    ensures FilledItems(ids, items) == FilledItems(ResolvedIds(ids, items), items)
    ensures (forall k :: 0 <= k < |ids| ==> FindItem(items, ids[k]).None?) ==> FilledItems(ids, items) == []
  {
    var resolved := ResolvedIds(ids, items);
    ResolvedIdsResolve(ids, items);
    FilledItemsInOrder(resolved, items);
    var r, r' := FilledItems(ids, items), FilledItems(resolved, items);
    assert |r| == |resolved| == |r'|;
    forall k | 0 <= k < |r| ensures r[k] == r'[k] {
      assert Some(r[k]) == FindItem(items, resolved[k]);
      assert Some(r'[k]) == FindItem(items, resolved[k]);
    }
  }

  /** Every resolved id names an item, and no id resolves when none names an item. */
  lemma ResolvedIdsResolve(ids: seq<string>, items: seq<CollectedItem>)
    ensures forall k :: 0 <= k < |ResolvedIds(ids, items)| ==> FindItem(items, ResolvedIds(ids, items)[k]).Some?
    ensures (forall k :: 0 <= k < |ids| ==> FindItem(items, ids[k]).None?) ==> ResolvedIds(ids, items) == []
  {
    var keep := id => FindItem(items, id).Some?;
    var resolved := ResolvedIds(ids, items);
    FilterMembers(ids, keep);
    forall k | 0 <= k < |resolved| ensures FindItem(items, resolved[k]).Some? {
      assert resolved[k] in Filter(ids, keep);
    }
    if resolved != [] {
      assert resolved[0] in Filter(ids, keep);
      assert resolved[0] in ids;
    }
  }

  /** A request to `onUpdateGuide`. */
  datatype GuideUpdate = GuideUpdate(kind: GuideKind, itemId: string)

  /** The picker's state: which list it adds to, if open. */
  class Picker {
    var activeCategory: Option<GuideKind>

    constructor ()
      ensures activeCategory == None
    {
      activeCategory := None;
    }

    /** A section's ADD slot. */
    method Open(kind: GuideKind)
      modifies this
      ensures activeCategory == Some(kind)
    {
      activeCategory := Some(kind);
    }

    /** The picker's close button. */
    method Close()
      modifies this
      ensures activeCategory == None
    {
      activeCategory := None;
    }

    /** `handleAddItem`: with a list open, the pick is forwarded to it and the picker
        closes; with none open, nothing happens. */
    method AddItem(itemId: string) returns (update: Option<GuideUpdate>)
      modifies this
      ensures old(activeCategory).Some? ==> update == Some(GuideUpdate(old(activeCategory).value, itemId))
      ensures old(activeCategory).None? ==> update == None
      ensures activeCategory == None
    {
      update := None;
      if activeCategory.Some? {
        update := Some(GuideUpdate(activeCategory.value, itemId));
        activeCategory := None;
      }
    }
  }
}
