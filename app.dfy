// The application root (App.tsx): the seed data, the eco-points total shown in the header,
// and the handlers through which every component changes the shared lists.

module App {
  import opened Types
  import opened Lists
  import CuratorOffice

  // ================================================================ seed data

  /** `MOCK_ITEMS`: the three items the museum opens with; the circuit board is already remused. */
  const MockItems: seq<CollectedItem> := [
    CollectedItem(
      "1", "复古茶叶罐", CategoryName(Container), "金属",
      "https://picsum.photos/400/400?random=1", "2023-10-15",
      Some("承载着一个被遗忘冬日温暖的容器。"), ["复古", "收纳", "金属"],
      [RemuseIdea("多肉植物盆栽", "将铁罐改造成耐旱植物的田园风家园。", Easy,
                  ["土壤", "碎石", "多肉植物"],
                  ["在底部钻排水孔", "铺设碎石层", "填入土壤", "种下多肉植物"])],
      Raw),
    CollectedItem(
      "2", "电路板碎片", CategoryName(Electronic), "复合材料",
      "https://picsum.photos/400/400?random=2", "2023-11-02",
      Some("一台退役机器的神经系统。"), ["科技", "艺术", "环保"],
      [],
      Remused),
    CollectedItem(
      "3", "玻璃汽水瓶", CategoryName(Container), "玻璃",
      "https://picsum.photos/400/400?random=3", "2023-11-05",
      Some("夏日清凉的透明回声。"), ["透明", "蓝色", "装饰"],
      [RemuseIdea("LED氛围灯", "放入灯串，营造忧郁或温馨的夜间氛围灯。", Easy,
                  ["LED灯串", "软木塞"],
                  ["彻底清洗瓶子", "塞入灯串", "固定电池盒"])],
      Raw)
  ]

  /** `DEFAULT_COVERS`, one cover photo per built-in category. Every category has an
      entry, so the `|| DEFAULT_COVERS[ItemCategory.OTHER]` fallback of `INITIAL_HALLS` is
      never taken. */
  function DefaultCover(c: ItemCategory): string
  {
    match c
    case Packaging => "https://images.unsplash.com/photo-1513885535751-8b9238bd345a?auto=format&fit=crop&q=80&w=400"
    case Container => "https://images.unsplash.com/photo-1604079628040-94301bb21b91?auto=format&fit=crop&q=80&w=400"
    case Paper => "https://images.unsplash.com/photo-1456735190827-d1262f71b8a3?auto=format&fit=crop&q=80&w=400"
    case Electronic => "https://images.unsplash.com/photo-1526170375885-4d8ecf77b99f?auto=format&fit=crop&q=80&w=400"
    case Textile => "https://images.unsplash.com/photo-1489987707025-afc232f7ea0f?auto=format&fit=crop&q=80&w=400"
    case Other => "https://images.unsplash.com/photo-1513364776144-60967b0f800f?auto=format&fit=crop&q=80&w=400"
  }

  function BuiltInHall(c: ItemCategory): ExhibitionHall
  {
    ExhibitionHall(CategoryName(c), CategoryName(c), DefaultCover(c), false)
  }

  /** `INITIAL_HALLS`: `Object.values(ItemCategory).map(...)`. */
  function InitialHalls(): (r: seq<ExhibitionHall>)
    ensures |r| == |AllCategories|
  {
    seq(|AllCategories|, i requires 0 <= i < |AllCategories| => BuiltInHall(AllCategories[i]))
  }

  /** The position of a category in `Object.values(ItemCategory)`. */
  function CategoryIndex(c: ItemCategory): (i: nat)
    ensures i < |AllCategories| && AllCategories[i] == c
  {
    match c
    case Packaging => 0
    case Container => 1
    case Paper => 2
    case Electronic => 3
    case Textile => 4
    case Other => 5
  }

  /** `CategoryIndex` undoes indexing into `AllCategories`. */
  lemma CategoryAt(i: nat)
    requires i < |AllCategories|
    ensures CategoryIndex(AllCategories[i]) == i
  {
    if i == 0 {
    } else if i == 1 {
    } else if i == 2 {
    } else if i == 3 {
    } else if i == 4 {
    }
  }

  /** Different positions of `AllCategories` carry different names. */
  lemma CategoryNamesDiffer(i: nat, j: nat)
    requires i < j < |AllCategories|
    ensures CategoryName(AllCategories[i]) != CategoryName(AllCategories[j])
  {
    CategoryAt(i);
    CategoryAt(j);
    CategoryNameInjective(AllCategories[i], AllCategories[j]);
  }

  /** Hall i is the built-in hall of the i-th category: keyed and named by it, not custom. */
  lemma InitialHallsInEnumOrder(halls: seq<ExhibitionHall>)
    requires halls == InitialHalls()
    ensures forall i :: 0 <= i < |halls| ==>
              halls[i].id == CategoryName(AllCategories[i]) && halls[i].name == halls[i].id &&
              !halls[i].isCustom && halls[i].imageUrl == DefaultCover(AllCategories[i])
  {
  }

  /** No two built-in halls share an id. */
  lemma InitialHallIdsDistinct(halls: seq<ExhibitionHall>)
    requires halls == InitialHalls()
    ensures forall i, j :: 0 <= i < j < |halls| ==> halls[i].id != halls[j].id
  {
    InitialHallsInEnumOrder(halls);
    forall i, j | 0 <= i < j < |halls|
      ensures halls[i].id != halls[j].id
    {
      CategoryNamesDiffer(i, j);
    }
  }

  /** Every category has its hall. */
  lemma InitialHallsCoverCategories(halls: seq<ExhibitionHall>)
    requires halls == InitialHalls()
    ensures forall c :: halls[CategoryIndex(c)].id == CategoryName(c)
  {
  }

  // ================================================================ eco points

  /** The points one item contributes: 5 for collecting it, 10 more once remused. */
  function ItemPoints(item: CollectedItem): nat
  {
    5 + (if item.status == Remused then 10 else 0)
  }

  /** `items.reduce((total, item) => total + points, 0)`, folded from the left. */
  function EcoPoints(items: seq<CollectedItem>): nat
  {
    if items == [] then 0 else EcoPoints(items[..|items| - 1]) + ItemPoints(items[|items| - 1])
  }

  /** The header's total is the office's formula: 5 per item plus 10 per remused item. */
  lemma {:induction false} EcoPointsAgree(items: seq<CollectedItem>)
    ensures EcoPoints(items) == 5 * |items| + 10 * CuratorOffice.RemusedCount(items)
    ensures EcoPoints(items) == CuratorOffice.EcoPoints(items)
  {
    if items != [] {
      var init, last := items[..|items| - 1], items[|items| - 1];
      EcoPointsAgree(init);
      assert items == init + [last];
      CountWhereAppend(init, [last], CuratorOffice.IsRemused);
    }
  }

  /** Raising the points of items one by one never lowers the total. */
  lemma {:induction false} EcoPointsPointwise(a: seq<CollectedItem>, b: seq<CollectedItem>)
    requires |a| == |b|
    requires forall i :: 0 <= i < |a| ==> ItemPoints(a[i]) <= ItemPoints(b[i])
    ensures EcoPoints(a) <= EcoPoints(b)
  {
    if a != [] {
      EcoPointsPointwise(a[..|a| - 1], b[..|b| - 1]);
    }
  }

  /** The opening collection is worth 25 points: three items, one of them remused. */
  lemma MockEcoPoints(items: seq<CollectedItem>)
    requires items == MockItems
    ensures EcoPoints(items) == 25
  {
    var one, two := items[..1], items[..2];
    assert one[..0] == [] && two[..1] == one && items[..2] == two;
    assert items[0].status == Raw && items[1].status == Remused && items[2].status == Raw;
    assert EcoPoints(one) == 5;
    assert EcoPoints(two) == 20;
  }

  // ================================================================ list updates

  /** The map in `handleCompleteRemuse`. */
  function MarkRemused(items: seq<CollectedItem>, itemId: string): (r: seq<CollectedItem>)
    ensures |r| == |items|
  {
    seq(|items|, i requires 0 <= i < |items| =>
      if items[i].id == itemId then items[i].(status := Remused) else items[i])
  }

  /** Only the status of the matching items changes, and it becomes 'remused'. */
  lemma MarkRemusedTouchesOnlyStatus(items: seq<CollectedItem>, itemId: string)
    ensures var r := MarkRemused(items, itemId);
            (forall i :: 0 <= i < |r| ==> r[i] == items[i].(status := r[i].status)) &&
            (forall i :: 0 <= i < |r| && items[i].id != itemId ==> r[i] == items[i]) &&
            (forall i :: 0 <= i < |r| && items[i].id == itemId ==> r[i].status == Remused)
  {
  }

  /** Completing the same remuse twice is the same as once. */
  lemma MarkRemusedIdempotent(items: seq<CollectedItem>, itemId: string)
    ensures MarkRemused(MarkRemused(items, itemId), itemId) == MarkRemused(items, itemId)
  {
  }

  /** Completing a remuse never costs points. */
  lemma MarkRemusedKeepsPoints(items: seq<CollectedItem>, itemId: string)
    ensures EcoPoints(MarkRemused(items, itemId)) >= EcoPoints(items)
  {
    EcoPointsPointwise(items, MarkRemused(items, itemId));
  }

  /** A new item on top of the list adds its own points to the total. */
  lemma EcoPointsPrepend(item: CollectedItem, items: seq<CollectedItem>)
    ensures EcoPoints([item] + items) == ItemPoints(item) + EcoPoints(items)
  {
    EcoPointsAgree([item] + items);
    EcoPointsAgree(items);
    EcoPointsAgree([item]);
    CountWhereAppend([item], items, CuratorOffice.IsRemused);
  }

  function OtherId(id: string): Sticker -> bool
  {
    (s: Sticker) => s.id != id
  }

  /** The filter in `handleDeleteSticker` removes exactly the stickers with the id. */
  lemma DeleteStickerRemovesExactly(stickers: seq<Sticker>, id: string)
    ensures forall s :: s in Filter(stickers, OtherId(id)) <==> s in stickers && s.id != id
  {
    FilterMembers(stickers, OtherId(id));
  }

  /** The object spread in `handleUpdateGuide`. */
  function AppendToGuide(g: GuideData, kind: GuideKind, itemId: string): GuideData
  {
    match kind
    case Common => g.(common := g.common + [itemId])
    case Rare => g.(rare := g.rare + [itemId])
    case Seasonal => g.(seasonal := g.seasonal + [itemId])
  }

  /** The chosen list gains the id at its end; the other two lists stay as they were. */
  lemma AppendToGuideTouchesOneList(g: GuideData, kind: GuideKind, itemId: string)
    ensures AppendToGuide(g, kind, itemId).List(kind) == g.List(kind) + [itemId]
    ensures forall k :: k != kind ==> AppendToGuide(g, kind, itemId).List(k) == g.List(k)
  {
  }

  // ================================================================ application state

  /** The lists `App` holds in state and hands down to the components. */
  class AppState {
    var items: seq<CollectedItem>
    var halls: seq<ExhibitionHall>
    var stickers: seq<Sticker>
    var guideData: GuideData

    /** The built-in halls stay at the front of the hall list: halls are only ever appended. */
    ghost predicate Valid()
      reads this
    {
      |halls| >= |AllCategories| && halls[..|AllCategories|] == InitialHalls()
    }

    constructor ()
      ensures items == MockItems && halls == InitialHalls() && stickers == []
      ensures guideData == GuideData([], [], [])
      ensures Valid()
    {
      items := MockItems;
      halls := InitialHalls();
      stickers := [];
      guideData := GuideData([], [], []);
    }

    /** `handleAddItem`: the new item goes first. */
    method AddItem(newItem: CollectedItem)
      modifies this
      ensures items == [newItem] + old(items)
      ensures halls == old(halls) && stickers == old(stickers) && guideData == old(guideData)
      ensures EcoPoints(items) == EcoPoints(old(items)) + ItemPoints(newItem)
      ensures old(Valid()) ==> Valid()
    {
      EcoPointsPrepend(newItem, items);
      items := [newItem] + items;
    }

    /** `handleStickerCreated`: the new sticker goes first. */
    method StickerCreated(newSticker: Sticker)
      modifies this
      ensures stickers == [newSticker] + old(stickers)
      ensures items == old(items) && halls == old(halls) && guideData == old(guideData)
      ensures old(Valid()) ==> Valid()
    {
      stickers := [newSticker] + stickers;
    }

    /** `handleDeleteSticker`: every sticker with the id goes, the rest keep their order. */
    method DeleteSticker(id: string)
      modifies this
      ensures stickers == Filter(old(stickers), OtherId(id))
      ensures forall s :: s in stickers <==> s in old(stickers) && s.id != id
      ensures items == old(items) && halls == old(halls) && guideData == old(guideData)
      ensures old(Valid()) ==> Valid()
    {
      DeleteStickerRemovesExactly(stickers, id);
      stickers := Filter(stickers, OtherId(id));
    }

    /** `handleCompleteRemuse`: the matching items become 'remused'; points never drop. */
    method CompleteRemuse(itemId: string)
      modifies this
      ensures items == MarkRemused(old(items), itemId)
      ensures EcoPoints(items) >= EcoPoints(old(items))
      ensures halls == old(halls) && stickers == old(stickers) && guideData == old(guideData)
      ensures old(Valid()) ==> Valid()
    {
      MarkRemusedKeepsPoints(items, itemId);
      items := MarkRemused(items, itemId);
    }

    /** `handleAddHall`: a custom hall keyed by its name is appended, even when a hall of
        that name already exists. */
    method AddHall(name: string, imageUrl: string)
      modifies this
      ensures halls == old(halls) + [ExhibitionHall(name, name, imageUrl, true)]
      ensures items == old(items) && stickers == old(stickers) && guideData == old(guideData)
      ensures old(Valid()) ==> Valid()
    {
      ghost var before := halls;
      halls := halls + [ExhibitionHall(name, name, imageUrl, true)];
      if |before| >= |AllCategories| {
        assert halls[..|AllCategories|] == before[..|AllCategories|];
      }
    }

    /** `handleUpdateGuide`: the id is appended to the chosen guide list only. */
    method UpdateGuide(kind: GuideKind, itemId: string)
      modifies this
      ensures guideData == AppendToGuide(old(guideData), kind, itemId)
      ensures guideData.List(kind) == old(guideData).List(kind) + [itemId]
      ensures forall k :: k != kind ==> guideData.List(k) == old(guideData).List(k)
      ensures items == old(items) && halls == old(halls) && stickers == old(stickers)
      ensures old(Valid()) ==> Valid()
    {
      AppendToGuideTouchesOneList(guideData, kind, itemId);
      guideData := AppendToGuide(guideData, kind, itemId);
    }
  }
}
