// The museum lobby and its halls (components/Gallery.tsx): per-hall item counts, the
// create-hall form, the item list inside a hall and the zero-padded counters.

module Gallery {
  import opened Types
  import opened Text
  import opened Lists

  // ================================================================ counting

  function InCategory(c: string): CollectedItem -> bool
  {
    (item: CollectedItem) => item.category == c
  }

  /** Number of items filed under category (hall id) c. */
  function CountIn(items: seq<CollectedItem>, c: string): nat
  {
    CountWhere(items, InCategory(c))
  }

  /** `acc[key] || 0`. */
  function Lookup(counts: map<string, nat>, key: string): nat
  {
    if key in counts then counts[key] else 0
  }

  /** The `categoryCounts` reduce, folded from the left: each item adds one to its category. */
  function CountsOf(items: seq<CollectedItem>): map<string, nat>
  {
    if items == [] then map[]
    else
      var acc := CountsOf(items[..|items| - 1]);
      var c := items[|items| - 1].category;
      acc[c := Lookup(acc, c) + 1]
  }

  /** Some item is filed under c. */
  predicate Mentions(items: seq<CollectedItem>, c: string)
  {
    exists k :: 0 <= k < |items| && items[k].category == c
  }

  /** The table holds exactly the categories in use, each with its number of items; a
      category nobody uses reads as 0. */
  lemma {:induction false} CountsOfCounts(items: seq<CollectedItem>)
    ensures forall c :: Lookup(CountsOf(items), c) == CountIn(items, c)
    ensures forall c :: c in CountsOf(items) <==> Mentions(items, c)
  {
    if items != [] {
      var init, last := items[..|items| - 1], items[|items| - 1];
      CountsOfCounts(init);
      assert items == init + [last];
      forall c
        ensures Lookup(CountsOf(items), c) == CountIn(items, c)
        ensures c in CountsOf(items) <==> Mentions(items, c)
      {
        CountStep(init, last, c);
        MentionStep(init, last, c);
      }
    }
  }

  /** One more item adds one to its own category's count and leaves the others. */
  lemma CountStep(init: seq<CollectedItem>, last: CollectedItem, c: string)
    requires Lookup(CountsOf(init), c) == CountIn(init, c)
    ensures Lookup(CountsOf(init + [last]), c) == CountIn(init + [last], c)
  {
    var items := init + [last];
    assert items[..|items| - 1] == init;
    CountWhereAppend(init, [last], InCategory(c));
    CountWhereOne(last, InCategory(c));
  }

  /** One more item puts its own category in the table and leaves the others. */
  lemma MentionStep(init: seq<CollectedItem>, last: CollectedItem, c: string)
    requires c in CountsOf(init) <==> Mentions(init, c)
    ensures c in CountsOf(init + [last]) <==> Mentions(init + [last], c)
  {
    var items := init + [last];
    assert items[..|items| - 1] == init;
    if c != last.category {
      if Mentions(init, c) {
        var k :| 0 <= k < |init| && init[k].category == c;
        assert items[k].category == c;
      }
      if Mentions(items, c) {
        var k :| 0 <= k < |items| && items[k].category == c;
        assert init[k].category == c;
      }
    } else {
      assert items[|items| - 1].category == c;
    }
  }

  /** The counts shown against a list of halls, added up. */
  function SumCounts(counts: map<string, nat>, keys: seq<string>): nat
  {
    if keys == [] then 0 else Lookup(counts, keys[0]) + SumCounts(counts, keys[1..])
  }

  function InAny(keys: seq<string>): CollectedItem -> bool
  {
    (item: CollectedItem) => item.category in keys
  }

  lemma {:induction false} SumCountsCountsAny(items: seq<CollectedItem>, keys: seq<string>)
    requires forall i, j :: 0 <= i < j < |keys| ==> keys[i] != keys[j]
    ensures SumCounts(CountsOf(items), keys) == CountWhere(items, InAny(keys))
  {
    CountsOfCounts(items);
    if keys != [] {
      var rest := keys[1..];
      assert forall j :: 0 <= j < |rest| ==> rest[j] == keys[j + 1];
      assert keys[0] !in rest;
      SumCountsCountsAny(items, rest);
      assert forall x: CollectedItem :: InAny(keys)(x) == (InCategory(keys[0])(x) || InAny(rest)(x));
      assert forall x: CollectedItem :: !(InCategory(keys[0])(x) && InAny(rest)(x));
      CountWhereUnion(items, InCategory(keys[0]), InAny(rest), InAny(keys));
      assert SumCounts(CountsOf(items), keys) == Lookup(CountsOf(items), keys[0]) + SumCounts(CountsOf(items), rest);
      assert Lookup(CountsOf(items), keys[0]) == CountWhere(items, InCategory(keys[0]));
    } else {
      CountWhereNone(items, InAny(keys));
    }
  }

  /** When the halls have distinct ids and every item sits in one of them, the lobby's
      counts add up to the number of items. */
  lemma CountsSumToLength(items: seq<CollectedItem>, hallIds: seq<string>)
    requires forall i, j :: 0 <= i < j < |hallIds| ==> hallIds[i] != hallIds[j]
    requires forall k :: 0 <= k < |items| ==> items[k].category in hallIds
    ensures SumCounts(CountsOf(items), hallIds) == |items|
  {
    SumCountsCountsAny(items, hallIds);
    FilterKeepsAll(items, InAny(hallIds));
  }

  /** `categoryCounts`: the reduce that fills the `acc` object in place. */
  method CategoryCounts(items: seq<CollectedItem>) returns (counts: map<string, nat>)
    ensures counts == CountsOf(items)
  {
    counts := map[];
    var i := 0;
    while i < |items|
      invariant 0 <= i <= |items|
      invariant counts == CountsOf(items[..i])
    {
      var c := items[i].category;
      counts := counts[c := Lookup(counts, c) + 1];
      assert items[..i + 1][..i] == items[..i];
      i := i + 1;
    }
    assert items[..i] == items;
  }

  // ================================================================ inside a hall

  /** `items.filter(i => i.category === selectedHallId)`. */
  function HallItems(items: seq<CollectedItem>, hallId: string): seq<CollectedItem>
  {
    Filter(items, InCategory(hallId))
  }

  /** The hall shows exactly its own items, in collection order, and as many as the lobby
      counted for it; the empty notice appears exactly when that count is 0. */
  lemma HallItemsMatchLobby(items: seq<CollectedItem>, hallId: string)
    ensures forall x :: x in HallItems(items, hallId) <==> x in items && x.category == hallId
    ensures |HallItems(items, hallId)| == Lookup(CountsOf(items), hallId)
    ensures HallItems(items, hallId) == [] <==> !Mentions(items, hallId)
  {
    FilterMembers(items, InCategory(hallId));
    CountsOfCounts(items);
    if !Mentions(items, hallId) {
      assert hallId !in CountsOf(items);
    }
  }

  /** The items of two halls, taken from consecutive parts of the collection, come in order. */
  lemma HallItemsKeepOrder(a: seq<CollectedItem>, b: seq<CollectedItem>, hallId: string)
    ensures HallItems(a + b, hallId) == HallItems(a, hallId) + HallItems(b, hallId)
  {
    FilterAppend(a, b, InCategory(hallId));
  }

  /** `halls.find(h => h.id === id)`: the first hall with the id. */
  function FindHall(halls: seq<ExhibitionHall>, id: string): (r: Option<ExhibitionHall>)
    ensures r.Some? ==> r.value in halls && r.value.id == id
    ensures r.Some? ==> FirstWithId(halls, id, r.value)
    ensures r.None? <==> forall k :: 0 <= k < |halls| ==> halls[k].id != id
  {
    if halls == [] then None
    else if halls[0].id == id then Some(halls[0])
    else
      var r := FindHall(halls[1..], id);
      if r.Some? then
        FirstWithIdShift(halls, id, r.value);
        r
      else r
  }

  /** h is the first hall of the list with the id: it sits at some index k, and no hall
      before k has the id. */
  ghost predicate FirstWithId(halls: seq<ExhibitionHall>, id: string, h: ExhibitionHall)
  {
    exists k :: 0 <= k < |halls| && halls[k] == h && forall j :: 0 <= j < k ==> halls[j].id != id
  }

  lemma FirstWithIdShift(halls: seq<ExhibitionHall>, id: string, h: ExhibitionHall)
    requires halls != [] && halls[0].id != id && FirstWithId(halls[1..], id, h)
    ensures FirstWithId(halls, id, h)
  {
    var k :| 0 <= k < |halls[1..]| && halls[1..][k] == h && forall j :: 0 <= j < k ==> halls[1..][j].id != id;
    assert halls[k + 1] == h;
    forall j | 0 <= j < k + 1
      ensures halls[j].id != id
    {
      if j > 0 { assert halls[j] == halls[1..][j - 1]; }
    }
  }

  /** `currentHall?.name || selectedHallId`: the name of the first hall with the id, or the id
      itself when there is no such hall or its name is empty. */
  function HallTitle(halls: seq<ExhibitionHall>, id: string): (t: string)
    ensures forall k :: 0 <= k < |halls| && halls[k].id == id
                        && (forall j :: 0 <= j < k ==> halls[j].id != id) ==>
              t == (if halls[k].name != [] then halls[k].name else id)
    ensures (forall k :: 0 <= k < |halls| ==> halls[k].id != id) ==> t == id
  {
    var h := FindHall(halls, id);
    if h.Some? && h.value.name != [] then h.value.name else id
  }

  // ================================================================ counters

  /** `filteredItems.length.toString().padStart(2, '0')`. */
  function HallCounter(n: nat): string
  {
    ZeroPadded(n, 2)
  }

  /** `No.${count.toString().padStart(3, '0')}` under each hall in the lobby. */
  function LobbyCounter(n: nat): string
  {
    "No." + ZeroPadded(n, 3)
  }

  /** Counters have at least two (inside) or three (lobby) digits and still read as n;
      larger numbers are written out in full. */
  lemma CountersKeepValue(n: nat)
    ensures |HallCounter(n)| >= 2 && DigitsValue(HallCounter(n)) == n
    ensures LobbyCounter(n)[..3] == "No." && |LobbyCounter(n)| >= 6
    ensures var d := LobbyCounter(n)[3..];
            (forall i :: 0 <= i < |d| ==> IsDigit(d[i])) && DigitsValue(d) == n
    ensures |NatToString(n)| >= 3 ==> HallCounter(n) == NatToString(n) && LobbyCounter(n)[3..] == NatToString(n)
  {
    ZeroPaddedKeepsValue(n, 2);
    ZeroPaddedKeepsValue(n, 3);
    assert LobbyCounter(n)[3..] == ZeroPadded(n, 3);
  }

  // ================================================================ create-hall form

  /** What `onAddHall` receives. */
  datatype HallRequest = HallRequest(name: string, imageUrl: string)

  /** The lobby's navigation and the create-hall modal. */
  class Lobby {
    var selectedHallId: Option<string>
    var showAddModal: bool
    var newHallName: string
    var newHallImage: string

    constructor ()
      ensures selectedHallId == None && !showAddModal && newHallName == "" && newHallImage == ""
    {
      selectedHallId := None;
      showAddModal := false;
      newHallName := "";
      newHallImage := "";
    }

    /** `handleHallClick`, after its 400 ms animation: enter the hall. */
    method EnterHall(hallId: string)
      modifies this
      ensures selectedHallId == Some(hallId)
      ensures showAddModal == old(showAddModal) && newHallName == old(newHallName) && newHallImage == old(newHallImage)
    {
      selectedHallId := Some(hallId);
    }

    /** The back arrow inside a hall. */
    method BackToLobby()
      modifies this
      ensures selectedHallId == None
      ensures showAddModal == old(showAddModal) && newHallName == old(newHallName) && newHallImage == old(newHallImage)
    {
      selectedHallId := None;
    }

    method SetShowAddModal(show: bool)
      modifies this
      ensures showAddModal == show
      ensures selectedHallId == old(selectedHallId) && newHallName == old(newHallName) && newHallImage == old(newHallImage)
    {
      showAddModal := show;
    }

    method SetNewHallName(name: string)
      modifies this
      ensures newHallName == name
      ensures selectedHallId == old(selectedHallId) && showAddModal == old(showAddModal) && newHallImage == old(newHallImage)
    {
      newHallName := name;
    }

    /** `handleImageUpload`: when a file was picked, its object URL becomes the cover. */
    method UploadImage(objectUrl: Option<string>)
      modifies this
      ensures newHallImage == if objectUrl.Some? then objectUrl.value else old(newHallImage)
      ensures selectedHallId == old(selectedHallId) && showAddModal == old(showAddModal) && newHallName == old(newHallName)
    {
      if objectUrl.Some? {
        newHallImage := objectUrl.value;
      }
    }

    /** `handleCreateHall`: with a name that is not blank and a cover, the trimmed name and
        the cover are handed on and the form is reset and closed; otherwise nothing happens. */
    method CreateHall() returns (request: Option<HallRequest>)
      modifies this
      ensures Blank(old(newHallName)) || old(newHallImage) == [] ==>
                request == None && showAddModal == old(showAddModal) &&
                newHallName == old(newHallName) && newHallImage == old(newHallImage)
      ensures !Blank(old(newHallName)) && old(newHallImage) != [] ==>
                request == Some(HallRequest(Trim(old(newHallName)), old(newHallImage))) &&
                !showAddModal && newHallName == "" && newHallImage == ""
      ensures selectedHallId == old(selectedHallId)
    {
      request := None;
      if !Blank(newHallName) && newHallImage != [] {
        request := Some(HallRequest(Trim(newHallName), newHallImage));
        showAddModal := false;
        newHallName := "";
        newHallImage := "";
      }
    }
  }

  /** A hall that is handed on has a name without surrounding white space that is not empty. */
  lemma CreatedHallNameTrimmed(name: string)
    requires !Blank(name)
    ensures Trim(name) != [] && IsTrimmed(Trim(name))
  {
    TrimShape(name);
  }
}
