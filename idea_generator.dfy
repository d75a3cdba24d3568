// The remuse plan viewer (components/IdeaGenerator.tsx): the difficulty bars, the idea
// selected on opening and the guarded "mark as complete" button.

module IdeaGenerator {
  import opened Types
  import opened Lists
  import App

  // ================================================================ difficulty bars

  /** The `stars` table of `DifficultyRating`. */
  function Stars(level: Difficulty): (n: nat)
    ensures 1 <= n <= 3
  {
    match level
    case Easy => 1
    case Medium => 2
    case Hard => 3
  }

  /** Different difficulties get different stars, and harder plans get strictly more. */
  lemma StarsRank(a: Difficulty, b: Difficulty)
    ensures Stars(a) == Stars(b) <==> a == b
    ensures a == Easy && b != Easy ==> Stars(a) < Stars(b)
    ensures a != Hard && b == Hard ==> Stars(a) < Stars(b)
  {
    assert Stars(Easy) == 1 && Stars(Medium) == 2 && Stars(Hard) == 3;
  }

  /** Bar `i` of `[1, 2, 3]` is drawn in the accent colour. */
  function BarLit(level: Difficulty, i: int): bool
  {
    i <= Stars(level)
  }

  /** The three bars, left to right. */
  function Bars(level: Difficulty): (r: seq<bool>)
    ensures |r| == 3
  {
    seq(3, k requires 0 <= k < 3 => BarLit(level, k + 1))
  }

  function IsLit(b: bool): bool { b }

  /** Exactly `stars` bars are lit, and they are the leftmost ones. */
  lemma BarsShowStars(level: Difficulty)
    ensures CountWhere(Bars(level), IsLit) == Stars(level)
    ensures forall k :: 0 <= k < 3 ==> (Bars(level)[k] <==> k < Stars(level))
  {
    var r := Bars(level);
    assert r == [r[0]] + [r[1]] + [r[2]];
    CountWhereAppend([r[0]] + [r[1]], [r[2]], IsLit);
    CountWhereAppend([r[0]], [r[1]], IsLit);
    CountWhereOne(r[0], IsLit);
    CountWhereOne(r[1], IsLit);
    CountWhereOne(r[2], IsLit);
  }

  // ================================================================ opening the viewer

  /** `item.ideas?.[0] || null`: the first plan, or none when there are no plans. */
  function InitialIdea(ideas: seq<RemuseIdea>): (r: Option<RemuseIdea>)
    ensures r.None? <==> ideas == []
    ensures r.Some? ==> r.value == ideas[0]
  {
    if ideas == [] then None else Some(ideas[0])
  }

  // ================================================================ marking complete

  /** `isCompleted`: the item's status is 'remused'. */
  predicate IsCompleted(item: CollectedItem)
  {
    item.status == Remused
  }

  /** What a click on the complete button does: start the celebration and ask for the
      item to be completed, or nothing at all. */
  datatype ClickOutcome = ClickOutcome(celebrate: bool, completeRequest: Option<string>)

  /** `handleCompleteClick`: an item already remused is left alone; otherwise the
      celebration starts and `onComplete(item.id)` is called. */
  function CompleteClick(item: CollectedItem): (o: ClickOutcome)
    ensures IsCompleted(item) ==> o == ClickOutcome(false, None)
    ensures !IsCompleted(item) ==> o.celebrate && o.completeRequest == Some(item.id)
  {
    if IsCompleted(item) then ClickOutcome(false, None)
    else ClickOutcome(true, Some(item.id))
  }

  /** `onComplete` is `handleCompleteRemuse`: once the request is applied, the list holds the
      same item marked remused, and a viewer opened on that entry ignores the button. */
  lemma SecondClickIgnored(items: seq<CollectedItem>, k: nat)
    requires k < |items|
    requires CompleteClick(items[k]).completeRequest.Some?
    ensures var after := App.MarkRemused(items, CompleteClick(items[k]).completeRequest.value);
            after[k] == items[k].(status := Remused) &&
            CompleteClick(after[k]) == ClickOutcome(false, None)
  {
  }

  /** When ids are unique, completing a raw item earns exactly the "+10 PTS" the
      celebration announces. */
  lemma {:induction false} CompletionEarnsTen(items: seq<CollectedItem>, id: string, k: nat)
    requires k < |items| && items[k].id == id && !IsCompleted(items[k])
    requires forall j :: 0 <= j < |items| && j != k ==> items[j].id != id
    ensures App.EcoPoints(App.MarkRemused(items, id)) == App.EcoPoints(items) + 10
  {
    var n := |items|;
    var init := items[..n - 1];
    var r := App.MarkRemused(items, id);
    assert r[..n - 1] == App.MarkRemused(init, id);
    if k == n - 1 {
      assert App.MarkRemused(init, id) == init;
    } else {
      CompletionEarnsTen(init, id, k);
      assert r[n - 1] == items[n - 1];
    }
  }

  // ================================================================ staying on the page

  /** While the viewer stays open: the item it was opened with and the App's item list. */
  datatype Session = Session(shown: CollectedItem, items: seq<CollectedItem>)

  /** A click as written: `onComplete` updates the App's list, but the viewer goes on
      showing the `selectedItem` it was opened with, so `isCompleted` keeps its old value. */
  function ClickAsWritten(s: Session): (r: (Session, ClickOutcome))
    ensures r.0.shown == s.shown && r.1 == CompleteClick(s.shown)
    ensures r.1.completeRequest.Some? ==> r.0.items == App.MarkRemused(s.items, s.shown.id)
    ensures r.1.completeRequest.None? ==> r.0.items == s.items
  {
    var o := CompleteClick(s.shown);
    (Session(s.shown, if o.completeRequest.Some? then App.MarkRemused(s.items, s.shown.id) else s.items), o)
  }

  /** As written, a second click on the same page starts the "+10 PTS" celebration again
      and asks for the completion again, although the total does not move. */
  lemma AsWrittenSecondClickCelebrates(s: Session)
    requires !IsCompleted(s.shown)
    ensures var first := ClickAsWritten(s);
            var second := ClickAsWritten(first.0);
            first.1.celebrate && second.1.celebrate && second.1.completeRequest == Some(s.shown.id) &&
            App.EcoPoints(second.0.items) == App.EcoPoints(first.0.items)
  {
    App.MarkRemusedIdempotent(s.items, s.shown.id);
  }

  /** A click that also counts the completion made "just now": after the request the viewer
      shows the item as the updated list holds it. */
  function Click(s: Session): (r: (Session, ClickOutcome))
    ensures r.1 == CompleteClick(s.shown)
    ensures r.1.completeRequest.Some? ==>
              r.0 == Session(s.shown.(status := Remused), App.MarkRemused(s.items, s.shown.id))
    ensures r.1.completeRequest.None? ==> r.0 == s
  {
    var o := CompleteClick(s.shown);
    if o.completeRequest.Some? then (Session(s.shown.(status := Remused), App.MarkRemused(s.items, s.shown.id)), o)
    else (s, o)
  }

  /** With the completion counted, the viewer keeps showing the list's own entry, the first
      click earns exactly ten points and a second click does nothing. */
  lemma SecondClickDoesNothing(s: Session, k: nat)
    requires k < |s.items| && s.items[k] == s.shown && !IsCompleted(s.shown)
    requires forall j :: 0 <= j < |s.items| && j != k ==> s.items[j].id != s.shown.id
    ensures var first := Click(s);
            var second := Click(first.0);
            first.1.celebrate && first.0.items[k] == first.0.shown &&
            App.EcoPoints(first.0.items) == App.EcoPoints(s.items) + 10 &&
            second.1 == ClickOutcome(false, None) && second.0 == first.0
  {
    CompletionEarnsTen(s.items, s.shown.id, k);
  }
}
