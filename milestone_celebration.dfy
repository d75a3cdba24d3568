// The milestone overlay (components/MilestoneCelebration.tsx): the table of collection
// sizes worth celebrating, the membership test and the confetti colours.

module MilestoneCelebration {
  import opened Types

  /** One row of `MILESTONES`. */
  datatype Milestone = Milestone(emoji: string, title: string, subtitle: string)

  /** `MILESTONES`, keyed by the number of items collected. */
  function Milestones(): map<int, Milestone>
  {
    map[
      1 := Milestone("🌱", "第一件藏品！", "万物再生之旅正式开始"),
      3 := Milestone("🌿", "初露锋芒", "已收集 3 件藏品"),
      5 := Milestone("🪴", "收藏新星", "5 件藏品达成！"),
      10 := Milestone("🌳", "博物小馆长", "10 件藏品里程碑"),
      20 := Milestone("🏛️", "再生大师", "20 件！了不起的收藏"),
      50 := Milestone("✨", "传奇策展人", "半百藏品殿堂级成就")
    ]
  }

  /** `isMilestone`: `count in MILESTONES`. */
  predicate IsMilestone(count: int)
  {
    count in Milestones()
  }

  /** Exactly six collection sizes are celebrated: 1, 3, 5, 10, 20 and 50. */
  lemma MilestoneCounts(count: int)
    ensures IsMilestone(count) <==>
            count == 1 || count == 3 || count == 5 || count == 10 || count == 20 || count == 50
  {
  }

  /** `MILESTONES[itemCount]`: defined exactly when the count is a milestone. */
  function Lookup(count: int): (r: Option<Milestone>)
    ensures r.Some? <==> IsMilestone(count)
    ensures r.Some? ==> r.value == Milestones()[count]
  {
    if count in Milestones() then Some(Milestones()[count]) else None
  }

  /** `CONFETTI_COLORS`. */
  const ConfettiColors: seq<string> := ["#ccff00", "#00ffff", "#ff6b9d", "#ffd700", "#a78bfa", "#ffffff"]

  /** The number of confetti pieces drawn. */
  const ConfettiPieces: nat := 30

  /** `CONFETTI_COLORS[i % CONFETTI_COLORS.length]`. */
  function ConfettiColor(i: nat): string
  {
    ConfettiColors[i % |ConfettiColors|]
  }

  /** The colour of every piece, in drawing order. */
  function Confetti(): (r: seq<string>)
    ensures |r| == ConfettiPieces
  {
    seq(ConfettiPieces, i requires 0 <= i < ConfettiPieces => ConfettiColor(i))
  }

  /** Piece i takes colour i mod 6: the palette repeats every six pieces, runs five times
      over the 30 pieces, and neighbouring pieces never share a colour. */
  lemma ConfettiCycles()
    ensures |ConfettiColors| == 6
    ensures forall i :: 0 <= i < ConfettiPieces ==> Confetti()[i] == ConfettiColors[i % 6]
    ensures forall i :: 0 <= i < ConfettiPieces - 6 ==> Confetti()[i + 6] == Confetti()[i]
    ensures forall i :: 0 <= i < ConfettiPieces - 1 ==> Confetti()[i + 1] != Confetti()[i]
  {
    forall i | 0 <= i < ConfettiPieces - 6
      ensures Confetti()[i + 6] == Confetti()[i]
    {
      assert (i + 6) % 6 == i % 6;
    }
    forall i | 0 <= i < ConfettiPieces - 1
      ensures Confetti()[i + 1] != Confetti()[i]
    {
      NextColour(i);
      NeighbourColoursDiffer(i % 6);
    }
  }

  /** The palette index of the next piece is the next index, wrapping after the last. */
  lemma NextColour(i: nat)
    ensures (i + 1) % 6 == if i % 6 == 5 then 0 else i % 6 + 1
  {
  }

  /** Consecutive palette entries, the last and the first included, differ. */
  lemma NeighbourColoursDiffer(k: nat)
    requires k < 6
    ensures ConfettiColors[k] != ConfettiColors[if k == 5 then 0 else k + 1]
  {
    var c := ConfettiColors;
    assert c[0] != c[1] && c[1] != c[2] && c[2] != c[3] && c[3] != c[4] && c[4] != c[5] && c[5] != c[0];
  }

  /** What the overlay shows: the row, the item just collected and the confetti. */
  datatype Card = Card(milestone: Milestone, itemName: string, confetti: seq<string>)

  /** The component: nothing at all unless the count is a milestone. */
  function Render(itemCount: int, itemName: string): (r: Option<Card>)
    ensures r.None? <==> !IsMilestone(itemCount)
    ensures r.Some? ==> r.value.milestone == Milestones()[itemCount] && r.value.itemName == itemName
    ensures r.Some? ==> |r.value.confetti| == ConfettiPieces
  {
    match Lookup(itemCount)
    case None => None
    case Some(m) => Some(Card(m, itemName, Confetti()))
  }
}
