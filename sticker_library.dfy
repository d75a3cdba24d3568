// The sticker library (components/StickerLibrary.tsx): the category filter, the selection of
// at most nine stickers, the collage grid and its z-order, and the integer arithmetic of the
// print sheet and the social-media card.

module StickerLibrary {
  import opened Types
  import opened Text
  import opened Lists

  // ================================================================ category filter

  const AllFilter := "ALL"

  /** `['ALL', ...Object.values(ItemCategory)]`: one chip for everything, then one per category. */
  function FilterOptions(): (r: seq<string>)
    ensures |r| == |AllCategories| + 1 && r[0] == AllFilter
    ensures forall i :: 1 <= i < |r| ==> r[i] == CategoryName(AllCategories[i - 1]) && r[i] != AllFilter
  {
    [AllFilter] + CategoryNames()
  }

  function HasCategory(filter: string): Sticker -> bool
  {
    (s: Sticker) => s.category == filter
  }

  /** `filteredStickers`. */
  function FilteredStickers(stickers: seq<Sticker>, filter: string): seq<Sticker>
  {
    if filter == AllFilter then stickers else Filter(stickers, HasCategory(filter))
  }

  /** 'ALL' shows every sticker; any other chip shows exactly the stickers of that category. */
  lemma FilteredStickersShown(stickers: seq<Sticker>, filter: string)
    ensures filter == AllFilter ==> FilteredStickers(stickers, filter) == stickers
    ensures filter != AllFilter ==>
              forall s :: s in FilteredStickers(stickers, filter) <==> s in stickers && s.category == filter
  {
    FilterMembers(stickers, HasCategory(filter));
  }

  // ================================================================ collage grid

  /** `Math.ceil(Math.sqrt(count))`: the smallest c with c² ≥ count. */
  function CeilSqrt(n: nat): (c: nat)
    ensures c * c >= n
    ensures c == 0 || (c - 1) * (c - 1) < n
  {
    if n == 0 then 0
    else
      var c := CeilSqrt(n - 1);
      if c * c >= n then c
      else
        NextSquare(c);
        c + 1
  }

  lemma NextSquare(c: nat)
    ensures (c + 1) * (c + 1) == c * c + 2 * c + 1 && (c + 1 - 1) * (c + 1 - 1) == c * c
  {
  }

  /** `Math.ceil(n / d)`. */
  function CeilDiv(n: nat, d: nat): (q: nat)
    requires d > 0
    ensures d * q >= n && d * (q - 1) < n
  {
    var q := (n + d - 1) / d;
    assert n + d - 1 == d * q + (n + d - 1) % d;
    q
  }

  function GridCols(count: nat): nat
  {
    CeilSqrt(count)
  }

  function GridRows(count: nat): nat
    requires count > 0
  {
    CeilDiv(count, GridCols(count))
  }

  lemma MulLeft(c: nat, a: nat, b: nat)
    requires a <= b
    ensures c * a <= c * b
  {
  }

  /** The grid has room for every sticker, no row of it is empty, and it is never taller
      than it is wide. */
  lemma GridFits(count: nat)
    requires count > 0
    ensures GridCols(count) >= 1
    ensures GridCols(count) * GridRows(count) >= count
    ensures GridCols(count) * (GridRows(count) - 1) < count
    ensures GridRows(count) <= GridCols(count)
  {
    var c, r := GridCols(count), GridRows(count);
    if r > c {
      MulLeft(c, c, r - 1);
    }
  }

  /** Column and row of grid cell `i` in a grid `cols` wide. */
  function CellCol(i: nat, cols: nat): nat
    requires cols > 0
  {
    i % cols
  }

  function CellRow(i: nat, cols: nat): nat
    requires cols > 0
  {
    i / cols
  }

  /** Cells are laid out row by row: cell i is column i mod cols of row i div cols, and in a
      grid of `rows` rows every i below cols·rows lands inside it. */
  lemma CellInGrid(i: nat, cols: nat, rows: nat)
    requires cols > 0 && i < cols * rows
    ensures CellCol(i, cols) < cols && CellRow(i, cols) < rows
    ensures CellRow(i, cols) * cols + CellCol(i, cols) == i
  {
    var q, m := i / cols, i % cols;
    assert i == cols * q + m;
    if q >= rows {
      MulLeft(cols, rows, q);
    }
  }

  /** `1.0, 0.9, 0.75, 0.65, 0.55` as a percentage, decided by the last test that holds. */
  function BaseScale(count: nat): (p: nat)
    ensures p in {100, 90, 75, 65, 55}
  {
    if count >= 9 then 55
    else if count > 6 then 65
    else if count > 4 then 75
    else if count > 1 then 90
    else 100
  }

  /** More stickers never get a larger base scale. */
  lemma BaseScaleNonIncreasing(a: nat, b: nat)
    requires a <= b
    ensures BaseScale(b) <= BaseScale(a)
  {
  }

  /** One placed sticker. The jittered percentage position, the rotation and the random
      scale variation are drawn from `Math.random()` and are not modelled; the cell the
      sticker is placed in and its base scale are. */
  datatype LayoutItem = LayoutItem(
    instanceId: string,
    sticker: Sticker,
    col: nat,
    row: nat,
    scalePercent: nat,
    zIndex: int)

  function InstancePrefix(stickerId: string, now: nat): (p: string)
    ensures p != [] && p[|p| - 1] == '-'
  {
    "layout-" + stickerId + "-" + NatToString(now) + "-"
  }

  /** `layout-${sticker.id}-${Date.now()}-${index}`. */
  function InstanceId(stickerId: string, now: nat, index: nat): string
  {
    InstancePrefix(stickerId, now) + NatToString(index)
  }

  /** `generateRandomLayout` after the shuffle: `shuffled` is the shuffled copy of the
      stickers and `now` the clock reading. Sticker `index` goes to the cell
      (index mod cols, index div cols) and gets the layer index + 1. */
  function GenerateLayout(shuffled: seq<Sticker>, now: nat): (r: seq<LayoutItem>)
    ensures |r| == |shuffled|
  {
    if shuffled == [] then []
    else
      var cols := GridCols(|shuffled|);
      assert cols != 0;
      seq(|shuffled|, i requires 0 <= i < |shuffled| =>
        LayoutItem(InstanceId(shuffled[i].id, now, i), shuffled[i], CellCol(i, cols), CellRow(i, cols),
                   BaseScale(|shuffled|), i + 1))
  }

  /** `layoutItems.map(item => item.sticker)`. */
  function LayoutStickers(items: seq<LayoutItem>): (r: seq<Sticker>)
    ensures |r| == |items| && forall i :: 0 <= i < |r| ==> r[i] == items[i].sticker
  {
    seq(|items|, i requires 0 <= i < |items| => items[i].sticker)
  }

  /** The layout holds the shuffled stickers in order, each in its own cell of the grid. */
  lemma LayoutCells(shuffled: seq<Sticker>, now: nat)
    requires shuffled != []
    ensures var r := GenerateLayout(shuffled, now);
            var cols := GridCols(|shuffled|);
            LayoutStickers(r) == shuffled &&
            forall i :: 0 <= i < |r| ==>
              r[i].col < cols && r[i].row < GridRows(|shuffled|) && r[i].row * cols + r[i].col == i
  {
    var r := GenerateLayout(shuffled, now);
    var cols := GridCols(|shuffled|);
    GridFits(|shuffled|);
    forall i | 0 <= i < |r|
      ensures r[i].col < cols && r[i].row < GridRows(|shuffled|) && r[i].row * cols + r[i].col == i
    {
      CellInGrid(i, cols, GridRows(|shuffled|));
    }
  }

  /** Two stickers never share a cell. */
  lemma LayoutCellsDistinct(shuffled: seq<Sticker>, now: nat, i: nat, j: nat)
    requires shuffled != [] && i < j < |shuffled|
    ensures var r := GenerateLayout(shuffled, now);
            r[i].col != r[j].col || r[i].row != r[j].row
  {
    LayoutCells(shuffled, now);
  }

  /** An empty selection lays out nothing. */
  lemma EmptyLayout(now: nat)
    ensures GenerateLayout([], now) == []
  {
  }

  /** Some item of the layout sits on layer z. */
  predicate HasLayer(items: seq<LayoutItem>, z: int)
  {
    exists i :: 0 <= i < |items| && items[i].zIndex == z
  }

  /** The layers of a fresh layout are exactly 1..count. */
  lemma LayoutLayers(shuffled: seq<Sticker>, now: nat)
    ensures var r := GenerateLayout(shuffled, now);
            forall z :: HasLayer(r, z) <==> 1 <= z <= |r|
  {
    var r := GenerateLayout(shuffled, now);
    forall z | 1 <= z <= |r|
      ensures HasLayer(r, z)
    {
      assert r[z - 1].zIndex == z;
    }
  }

  predicate DistinctIds(items: seq<LayoutItem>)
  {
    forall i, j :: 0 <= i < j < |items| ==> items[i].instanceId != items[j].instanceId
  }

  predicate DistinctLayers(items: seq<LayoutItem>)
  {
    forall i, j :: 0 <= i < j < |items| ==> items[i].zIndex != items[j].zIndex
  }

  /** Two ids that end in '-' followed by different indices differ, whatever comes before:
      the index is the run of digits after the last '-'. */
  lemma DashSuffixedDiffer(p: string, q: string, a: nat, b: nat)
    requires p != [] && q != [] && p[|p| - 1] == '-' && q[|q| - 1] == '-'
    requires a != b
    ensures p + NatToString(a) != q + NatToString(b)
  {
    var da, db := NatToString(a), NatToString(b);
    var x, y := p + da, q + db;
    if |x| == |y| {
      if |da| == |db| {
        NatToStringRoundTrip(a);
        NatToStringRoundTrip(b);
        assert x[|p|..] == da && y[|q|..] == db;
      } else if |da| < |db| {
        assert y[|p| - 1] == db[|p| - 1 - |q|];
        assert x[|p| - 1] != y[|p| - 1];
      } else {
        assert x[|q| - 1] == da[|q| - 1 - |p|];
        assert x[|q| - 1] != y[|q| - 1];
      }
    }
  }

  /** A fresh layout has one id and one layer per sticker. */
  lemma LayoutWellFormed(shuffled: seq<Sticker>, now: nat)
    ensures DistinctIds(GenerateLayout(shuffled, now)) && DistinctLayers(GenerateLayout(shuffled, now))
  {
    var r := GenerateLayout(shuffled, now);
    forall i, j | 0 <= i < j < |r|
      ensures r[i].instanceId != r[j].instanceId
    {
      DashSuffixedDiffer(InstancePrefix(shuffled[i].id, now), InstancePrefix(shuffled[j].id, now), i, j);
    }
  }

  // ================================================================ bring to front

  /** `Math.max(...prev.map(i => i.zIndex))` of a non-empty layout. */
  function MaxZ(items: seq<LayoutItem>): (m: int)
    requires items != []
    ensures forall i :: 0 <= i < |items| ==> items[i].zIndex <= m
    ensures exists i :: 0 <= i < |items| && items[i].zIndex == m
  {
    if |items| == 1 then items[0].zIndex
    else
      var m := MaxZ(items[1..]);
      assert forall i :: 1 <= i < |items| ==> items[i] == items[1..][i - 1];
      if items[0].zIndex >= m then items[0].zIndex else m
  }

  /** The map in `handlePointerDown`: the grabbed item moves one layer above the top. */
  function BringToFront(items: seq<LayoutItem>, id: string): seq<LayoutItem>
  {
    if items == [] then []
    else
      var top := MaxZ(items) + 1;
      seq(|items|, i requires 0 <= i < |items| =>
        if items[i].instanceId == id then items[i].(zIndex := top) else items[i])
  }

  /** Only the grabbed item changes, and only its layer: it lands one above the highest
      layer present, so strictly above every other item. */
  lemma BringToFrontLifts(items: seq<LayoutItem>, id: string)
    ensures var r := BringToFront(items, id);
            |r| == |items| &&
            (forall i :: 0 <= i < |r| ==> r[i] == items[i].(zIndex := r[i].zIndex)) &&
            (forall i :: 0 <= i < |r| && items[i].instanceId != id ==> r[i] == items[i]) &&
            (forall i :: 0 <= i < |r| && items[i].instanceId == id ==>
               (forall j :: 0 <= j < |items| ==> r[i].zIndex > items[j].zIndex) &&
               (exists j :: 0 <= j < |items| && r[i].zIndex == items[j].zIndex + 1))
  {
  }

  /** With distinct ids the lift keeps every layer distinct. */
  lemma BringToFrontKeepsLayersDistinct(items: seq<LayoutItem>, id: string)
    requires DistinctIds(items) && DistinctLayers(items)
    ensures DistinctIds(BringToFront(items, id)) && DistinctLayers(BringToFront(items, id))
  {
    var r := BringToFront(items, id);
    BringToFrontLifts(items, id);
    forall i, j | 0 <= i < j < |r|
      ensures r[i].zIndex != r[j].zIndex
    {
      if items[i].instanceId == id {
        assert r[i].zIndex > items[j].zIndex;
      } else if items[j].instanceId == id {
        assert r[j].zIndex > items[i].zIndex;
      }
    }
  }

  // ================================================================ library state

  const MaxSelected := 9

  datatype CanvasMode = Collage | Xiaohongshu | Print

  /** `stickers.filter(s => selectedIds.has(s.id))`. */
  function SelectedStickers(stickers: seq<Sticker>, ids: set<string>): seq<Sticker>
  {
    Filter(stickers, (s: Sticker) => s.id in ids)
  }

  /** The component's state. `canvasOpen` is `viewMode === 'CANVAS'` and `activeDragId`
      the sticker being dragged. */
  class Library {
    var filter: string
    var selectionMode: bool
    var selectedIds: set<string>
    var canvasOpen: bool
    var canvasMode: CanvasMode
    var layoutItems: seq<LayoutItem>
    var customMode: bool
    var activeDragId: Option<string>

    /** At most nine stickers are selected, and the layout has one id and one layer per item. */
    ghost predicate Valid()
      reads this
    {
      |selectedIds| <= MaxSelected && DistinctIds(layoutItems) && DistinctLayers(layoutItems)
    }

    constructor ()
      ensures filter == AllFilter && !selectionMode && selectedIds == {}
      ensures !canvasOpen && canvasMode == Collage && layoutItems == []
      ensures !customMode && activeDragId == None
      ensures Valid()
    {
      filter := AllFilter;
      selectionMode := false;
      selectedIds := {};
      canvasOpen := false;
      canvasMode := Collage;
      layoutItems := [];
      customMode := false;
      activeDragId := None;
    }

    method SetFilter(f: string)
      modifies this
      ensures filter == f
      ensures selectionMode == old(selectionMode) && selectedIds == old(selectedIds)
      ensures canvasOpen == old(canvasOpen) && canvasMode == old(canvasMode)
      ensures layoutItems == old(layoutItems) && customMode == old(customMode)
      ensures activeDragId == old(activeDragId)
    {
      filter := f;
    }

    /** `toggleSelectionMode`: leaving selection mode drops the whole selection. */
    method ToggleSelectionMode()
      modifies this
      ensures selectionMode == !old(selectionMode)
      ensures selectedIds == if old(selectionMode) then {} else old(selectedIds)
      ensures filter == old(filter) && canvasOpen == old(canvasOpen) && canvasMode == old(canvasMode)
      ensures layoutItems == old(layoutItems) && customMode == old(customMode)
      ensures activeDragId == old(activeDragId)
      ensures old(Valid()) ==> Valid()
    {
      if selectionMode {
        selectionMode := false;
        selectedIds := {};
      } else {
        selectionMode := true;
      }
    }

    /** `handleSelectSticker`: a selected id is dropped; an unselected one is added only
        while fewer than nine are selected, and otherwise `alerted` reports the refusal
        and nothing changes. */
    method SelectSticker(id: string) returns (alerted: bool)
      modifies this
      ensures id in old(selectedIds) ==> selectedIds == old(selectedIds) - {id} && !alerted
      ensures id !in old(selectedIds) && |old(selectedIds)| < MaxSelected ==>
                selectedIds == old(selectedIds) + {id} && !alerted
      ensures id !in old(selectedIds) && |old(selectedIds)| >= MaxSelected ==>
                selectedIds == old(selectedIds) && alerted
      ensures filter == old(filter) && selectionMode == old(selectionMode)
      ensures canvasOpen == old(canvasOpen) && canvasMode == old(canvasMode)
      ensures layoutItems == old(layoutItems) && customMode == old(customMode)
      ensures activeDragId == old(activeDragId)
      ensures old(Valid()) ==> Valid()
    {
      alerted := false;
      if id in selectedIds {
        selectedIds := selectedIds - {id};
      } else if |selectedIds| >= MaxSelected {
        alerted := true;
      } else {
        selectedIds := selectedIds + {id};
      }
    }

    /** `enterCanvasMode(mode)` over the `stickers` prop. The collage lays out the selected
        stickers afresh; `shuffled` is the order the random shuffle produced and `now` the
        clock. Every mode opens the canvas with dragging off. */
    method EnterCanvasMode(mode: CanvasMode, stickers: seq<Sticker>, shuffled: seq<Sticker>, now: nat)
      requires mode == Collage ==> multiset(shuffled) == multiset(SelectedStickers(stickers, selectedIds))
      modifies this
      ensures layoutItems == if mode == Collage then GenerateLayout(shuffled, now) else old(layoutItems)
      ensures canvasMode == mode && canvasOpen && !customMode
      ensures filter == old(filter) && selectionMode == old(selectionMode) && selectedIds == old(selectedIds)
      ensures activeDragId == old(activeDragId)
      ensures old(Valid()) ==> Valid()
    {
      if mode == Collage {
        LayoutWellFormed(shuffled, now);
        layoutItems := GenerateLayout(shuffled, now);
      }
      canvasMode := mode;
      canvasOpen := true;
      customMode := false;
    }

    /** `handleReLayout`: the stickers on the canvas, reshuffled and laid out again. */
    method ReLayout(shuffled: seq<Sticker>, now: nat)
      requires multiset(shuffled) == multiset(LayoutStickers(layoutItems))
      modifies this
      ensures layoutItems == GenerateLayout(shuffled, now)
      ensures filter == old(filter) && selectionMode == old(selectionMode) && selectedIds == old(selectedIds)
      ensures canvasOpen == old(canvasOpen) && canvasMode == old(canvasMode) && customMode == old(customMode)
      ensures activeDragId == old(activeDragId)
      ensures old(Valid()) ==> Valid()
    {
      LayoutWellFormed(shuffled, now);
      layoutItems := GenerateLayout(shuffled, now);
    }

    /** The "custom layout" button. */
    method ToggleCustomMode()
      modifies this
      ensures customMode == !old(customMode)
      ensures filter == old(filter) && selectionMode == old(selectionMode) && selectedIds == old(selectedIds)
      ensures canvasOpen == old(canvasOpen) && canvasMode == old(canvasMode)
      ensures layoutItems == old(layoutItems) && activeDragId == old(activeDragId)
      ensures old(Valid()) ==> Valid()
    {
      customMode := !customMode;
    }

    /** `handlePointerDown`: outside custom mode nothing happens; inside it the item is
        grabbed and brought to the front. */
    method PointerDown(instanceId: string)
      modifies this
      ensures !old(customMode) ==>
                layoutItems == old(layoutItems) && activeDragId == old(activeDragId)
      ensures old(customMode) ==>
                layoutItems == BringToFront(old(layoutItems), instanceId) && activeDragId == Some(instanceId)
      ensures filter == old(filter) && selectionMode == old(selectionMode) && selectedIds == old(selectedIds)
      ensures canvasOpen == old(canvasOpen) && canvasMode == old(canvasMode) && customMode == old(customMode)
      ensures old(Valid()) ==> Valid()
    {
      if customMode {
        activeDragId := Some(instanceId);
        if Valid() {
          BringToFrontKeepsLayersDistinct(layoutItems, instanceId);
        }
        layoutItems := BringToFront(layoutItems, instanceId);
      }
    }

    /** `handlePointerUp`: the drag ends. */
    method PointerUp()
      modifies this
      ensures activeDragId == None
      ensures filter == old(filter) && selectionMode == old(selectionMode) && selectedIds == old(selectedIds)
      ensures canvasOpen == old(canvasOpen) && canvasMode == old(canvasMode) && customMode == old(customMode)
      ensures layoutItems == old(layoutItems)
      ensures old(Valid()) ==> Valid()
    {
      activeDragId := None;
    }

    /** The canvas's close button: back to the library grid. */
    method CloseCanvas()
      modifies this
      ensures !canvasOpen
      ensures filter == old(filter) && selectionMode == old(selectionMode) && selectedIds == old(selectedIds)
      ensures canvasMode == old(canvasMode) && customMode == old(customMode)
      ensures layoutItems == old(layoutItems) && activeDragId == old(activeDragId)
      ensures old(Valid()) ==> Valid()
    {
      canvasOpen := false;
    }
  }

  /** A selection built by `SelectSticker` alone never passes nine. */
  lemma SelectionCap(ids: set<string>, id: string)
    requires |ids| <= MaxSelected
    ensures id in ids ==> |ids - {id}| <= MaxSelected
    ensures id !in ids && |ids| < MaxSelected ==> |ids + {id}| <= MaxSelected
  {
  }

  // ================================================================ print sheet

  /** `count <= 2 ? count : count <= 4 ? 2 : 3`. */
  function PrintCols(count: nat): nat
  {
    if count <= 2 then count else if count <= 4 then 2 else 3
  }

  /** `Math.ceil(count / cols)`; the export returns early when nothing is selected. */
  function PrintRows(count: nat): nat
    requires count > 0
  {
    CeilDiv(count, PrintCols(count))
  }

  /** The sheet is at most three columns wide, has room for every sticker and no empty row. */
  lemma PrintGridFits(count: nat)
    requires count > 0
    ensures 1 <= PrintCols(count) <= 3
    ensures PrintCols(count) * PrintRows(count) >= count
    ensures PrintCols(count) * (PrintRows(count) - 1) < count
  {
  }

  const Ellipsis: char := '…'
  const CaptionChars := 24

  /** The caption under a printed sticker: longer texts keep their first 24 characters and
      gain an ellipsis. */
  function PrintCaption(text: string): (r: string)
    ensures |r| <= CaptionChars + 1
    ensures |text| <= CaptionChars ==> r == text
    ensures |text| > CaptionChars ==> r == text[..CaptionChars] + [Ellipsis]
  {
    if |text| > CaptionChars then text[..CaptionChars] + [Ellipsis] else text
  }

  // ================================================================ social-media card

  const XhsMaxStickers := 4

  /** `selectedStickers.slice(0, 4)`. */
  function XhsStickers(selected: seq<Sticker>): (r: seq<Sticker>)
    ensures |r| <= XhsMaxStickers && |r| <= |selected| && r == selected[..|r|]
    ensures |selected| <= XhsMaxStickers ==> r == selected
  {
    Take(selected, XhsMaxStickers)
  }

  /** `XhsTemplate.layout`. */
  datatype XhsLayout = SingleCenter | DuoStack | TrioScatter | QuadGrid

  /** How many positions the if-chain pushes for a template layout and `n` stickers. */
  function XhsSlots(layout: XhsLayout, n: nat): (k: nat)
    ensures 1 <= k <= XhsMaxStickers
  {
    if layout == SingleCenter || n == 1 then 1
    else if layout == DuoStack || n == 2 then 2
    else if layout == TrioScatter || n == 3 then 3
    else 4
  }

  /** `i < stickersToDraw.length && i < positions.length`. */
  function XhsDrawn(layout: XhsLayout, selected: seq<Sticker>): nat
  {
    var n := |XhsStickers(selected)|;
    if n < XhsSlots(layout, n) then n else XhsSlots(layout, n)
  }

  /** At most four stickers are drawn, at least one of a non-empty selection; the four-cell
      template draws all of them and the single template only the first. */
  lemma XhsDrawnBounds(layout: XhsLayout, selected: seq<Sticker>)
    ensures XhsDrawn(layout, selected) <= |selected| && XhsDrawn(layout, selected) <= XhsMaxStickers
    ensures selected != [] ==> XhsDrawn(layout, selected) >= 1
    ensures layout == QuadGrid ==> XhsDrawn(layout, selected) == |XhsStickers(selected)|
    ensures layout == SingleCenter && selected != [] ==> XhsDrawn(layout, selected) == 1
  {
  }

  const LineChars := 20
  const MaxDramaLines := 2

  /** The text cut into consecutive 20-character lines, the last one possibly shorter. */
  function Chunks(s: string): seq<string>
    decreases |s|
  {
    if s == [] then []
    else if |s| <= LineChars then [s]
    else [s[..LineChars]] + Chunks(s[LineChars..])
  }

  function Concat(lines: seq<string>): string
  {
    if lines == [] then [] else lines[0] + Concat(lines[1..])
  }

  /** Appending one character either opens a new line (when the last one is full) or
      extends the last line. */
  lemma {:induction false} ChunksSnoc(s: string, c: char)
    ensures |s| % LineChars == 0 ==> |Chunks(s)| == |s| / LineChars && Chunks(s + [c]) == Chunks(s) + [[c]]
    ensures |s| % LineChars != 0 ==>
              |Chunks(s)| == |s| / LineChars + 1 &&
              Chunks(s + [c]) == Chunks(s)[..|Chunks(s)| - 1] + [Chunks(s)[|Chunks(s)| - 1] + [c]]
    decreases |s|
  {
    if |s| > LineChars {
      ChunksSnoc(s[LineChars..], c);
      ChunksSnocPastFirst(s, c);
    } else if |s| == LineChars {
      assert (s + [c])[..LineChars] == s;
      assert (s + [c])[LineChars..] == [c];
      assert Chunks([c]) == [[c]];
      assert Chunks(s + [c]) == [s] + Chunks([c]);
    } else if s == [] {
      assert s + [c] == [c];
      assert Chunks([c]) == [[c]];
    } else {
      assert |s| % LineChars == |s|;
      assert Chunks(s + [c]) == [s + [c]];
    }
  }

  /** The step of ChunksSnoc past the first line: the first line stays, the rest follows. */
  lemma ChunksSnocPastFirst(s: string, c: char)
    requires |s| > LineChars
    requires var t := s[LineChars..];
             (|t| % LineChars == 0 ==> |Chunks(t)| == |t| / LineChars && Chunks(t + [c]) == Chunks(t) + [[c]]) &&
             (|t| % LineChars != 0 ==>
                |Chunks(t)| == |t| / LineChars + 1 &&
                Chunks(t + [c]) == Chunks(t)[..|Chunks(t)| - 1] + [Chunks(t)[|Chunks(t)| - 1] + [c]])
    ensures |s| % LineChars == 0 ==> |Chunks(s)| == |s| / LineChars && Chunks(s + [c]) == Chunks(s) + [[c]]
    ensures |s| % LineChars != 0 ==>
              |Chunks(s)| == |s| / LineChars + 1 &&
              Chunks(s + [c]) == Chunks(s)[..|Chunks(s)| - 1] + [Chunks(s)[|Chunks(s)| - 1] + [c]]
  {
    var t := s[LineChars..];
    LineShift(|s|);
    ChunksFirstLine(s, c);
    if |t| % LineChars == 0 {
      PrependFull(s[..LineChars], Chunks(t), Chunks(t + [c]), c);
    } else {
      PrependPartial(s[..LineChars], Chunks(t), Chunks(t + [c]), c);
    }
  }

  lemma PrependFull(line: string, ct: seq<string>, ctc: seq<string>, c: char)
    requires ctc == ct + [[c]]
    ensures [line] + ctc == ([line] + ct) + [[c]]
  {
  }

  lemma PrependPartial(line: string, ct: seq<string>, ctc: seq<string>, c: char)
    requires ct != [] && ctc == ct[..|ct| - 1] + [ct[|ct| - 1] + [c]]
    ensures var cs := [line] + ct;
            [line] + ctc == cs[..|cs| - 1] + [cs[|cs| - 1] + [c]]
  {
    var cs := [line] + ct;
    assert cs[..|cs| - 1] == [line] + ct[..|ct| - 1];
  }

  /** Past 20 characters the first line is the first 20 characters, with or without one more
      character at the end. */
  lemma ChunksFirstLine(s: string, c: char)
    requires |s| > LineChars
    ensures Chunks(s) == [s[..LineChars]] + Chunks(s[LineChars..])
    ensures Chunks(s + [c]) == [s[..LineChars]] + Chunks(s[LineChars..] + [c])
  {
    assert (s + [c])[..LineChars] == s[..LineChars];
    assert (s + [c])[LineChars..] == s[LineChars..] + [c];
  }

  /** Dropping the first line shifts the line count by one and keeps the last line's length. */
  lemma LineShift(n: nat)
    requires n > LineChars
    ensures n % LineChars == (n - LineChars) % LineChars
    ensures n / LineChars == (n - LineChars) / LineChars + 1
  {
  }

  /** The drama-text `reduce`: character i is appended to line `Math.floor(i / 20)`, which
      is created when it does not exist yet. */
  method DramaLines(text: string) returns (lines: seq<string>)
    ensures lines == Chunks(text)
  {
    lines := [];
    var i := 0;
    while i < |text|
      invariant 0 <= i <= |text|
      invariant lines == Chunks(text[..i])
    {
      ChunksSnoc(text[..i], text[i]);
      ghost var before := lines;
      var lineIndex := i / LineChars;
      if lineIndex >= |lines| {
        lines := lines + [""];
      }
      lines := lines[lineIndex := lines[lineIndex] + [text[i]]];
      if i % LineChars == 0 {
        assert [] + [text[i]] == [text[i]];
        assert lines == before + [[text[i]]];
      } else {
        assert lines == before[..|before| - 1] + [before[|before| - 1] + [text[i]]];
      }
      assert text[..i + 1] == text[..i] + [text[i]];
      i := i + 1;
    }
    assert text[..i] == text;
  }

  /** Putting the lines back together gives the text. */
  lemma {:induction false} ChunksConcat(s: string)
    ensures Concat(Chunks(s)) == s
    decreases |s|
  {
    if |s| > LineChars {
      ChunksConcat(s[LineChars..]);
      assert s == s[..LineChars] + s[LineChars..];
    }
  }

  /** Every line has 1 to 20 characters, and all but the last have exactly 20. */
  lemma {:induction false} ChunkLengths(s: string)
    ensures forall k :: 0 <= k < |Chunks(s)| ==> 1 <= |Chunks(s)[k]| <= LineChars
    ensures forall k :: 0 <= k < |Chunks(s)| - 1 ==> |Chunks(s)[k]| == LineChars
    decreases |s|
  {
    if |s| > LineChars {
      ChunkLengths(s[LineChars..]);
    }
  }

  /** `dramaLines.slice(0, 2)`. */
  function DrawnDramaLines(text: string): seq<string>
  {
    Take(Chunks(text), MaxDramaLines)
  }

  /** At most two lines are drawn, and together they are the first 40 characters. */
  lemma DrawnDramaLinesShape(text: string)
    ensures |DrawnDramaLines(text)| <= MaxDramaLines
    ensures Concat(DrawnDramaLines(text)) == Take(text, MaxDramaLines * LineChars)
  {
    if |text| > LineChars {
      var rest := text[LineChars..];
      if |rest| > LineChars {
        assert Chunks(rest) == [rest[..LineChars]] + Chunks(rest[LineChars..]);
        assert DrawnDramaLines(text) == [text[..LineChars], rest[..LineChars]];
        assert Concat([rest[..LineChars]]) == rest[..LineChars];
        assert text[..2 * LineChars] == text[..LineChars] + rest[..LineChars];
      } else {
        ChunksConcat(text);
      }
    } else {
      ChunksConcat(text);
    }
  }
}
