// The curator's office (components/CuratorOffice.tsx): the keyword-to-icon matcher, the
// achievement conditions, the level and eco-point formulas, the toolkit grid and the toolkit
// itself, whose tool list and add-tool form are component state.

module CuratorOffice {
  import opened Types
  import opened Text
  import opened Lists

  // ================================================================ icon matcher

  const ScissorsKeys: seq<string> := ["剪", "scissors", "cut"]
  const TapeKeys: seq<string> := ["胶带", "tape"]
  const GlueKeys: seq<string> := ["胶", "glue", "粘"]
  const ScrewdriverKeys: seq<string> := ["螺", "driver", "screw", "wrench", "扳"]
  const BrushKeys: seq<string> := ["笔", "刷", "brush", "paint"]
  const RulerKeys: seq<string> := ["尺", "ruler", "量"]
  const KnifeKeys: seq<string> := ["刀", "knife"]

  /** The tests of `determineIconType`, in the order they are made. */
  const IconRules: seq<Rule<IconType>> := [
    Rule(ScissorsKeys, Scissors),
    Rule(TapeKeys, Tape),
    Rule(GlueKeys, Glue),
    Rule(ScrewdriverKeys, Screwdriver),
    Rule(BrushKeys, Brush),
    Rule(RulerKeys, Ruler),
    Rule(KnifeKeys, Knife)
  ]

  /** `name.trim().toLowerCase()`: the text the keywords are looked for in. */
  function IconKey(name: string): string
  {
    Lower(Trim(name))
  }

  /** A name without surrounding whitespace or capitals is matched as it is. */
  lemma IconKeyOfPlainName(name: string)
    requires IsTrimmed(name) && NoCapitals(name)
    ensures IconKey(name) == name
  {
    TrimKeepsTrimmed(name);
    LowerKeepsLowercase(name);
  }

  /** `determineIconType`: match the trimmed, lowercased name; 'other' when nothing matches. */
  function DetermineIconType(name: string): (r: IconType)
    ensures r == OtherIcon <==>
            NoneMatch(IconKey(name), IconRules, |IconRules|)
  {
    IconRulesNeverOther();
    ClassifyFallback(IconKey(name), IconRules, OtherIcon);
    Classify(IconKey(name), IconRules, OtherIcon)
  }

  lemma IconRulesNeverOther()
    ensures forall i :: 0 <= i < |IconRules| ==> IconRules[i].outcome != OtherIcon
  {
  }

  /** A test decides the icon exactly when one of its keywords occurs and no earlier test's does. */
  lemma IconFirstMatch(name: string, i: nat)
    requires i < |IconRules|
    requires ContainsAny(IconKey(name), IconRules[i].keys)
    requires NoneMatch(IconKey(name), IconRules, i)
    ensures DetermineIconType(name) == IconRules[i].outcome
  {
    FirstRuleExactly(IconKey(name), IconRules, i);
  }

  /** The icon depends only on the trimmed, lowercased name: two names that agree once
      lowercased and trimmed get the same icon, whatever their padding and capitals. */
  lemma IconIgnoresCaseAndPadding(a: string, b: string)
    requires Trim(Lower(a)) == Trim(Lower(b))
    ensures DetermineIconType(a) == DetermineIconType(b)
  {
    LowerTrim(a);
    LowerTrim(b);
  }

  /** Whenever "胶带" occurs (and no scissors keyword), the icon is tape, although the glue
      keyword "胶" then occurs as well: the tape test comes first. */
  lemma TapeBeforeGlue(name: string)
    requires Contains(IconKey(name), "胶带")
    requires !ContainsAny(IconKey(name), IconRules[0].keys)
    ensures ContainsAny(IconKey(name), GlueKeys)
    ensures DetermineIconType(name) == Tape
  {
    TapeKeyword(IconKey(name));
    assert NoneMatch(IconKey(name), IconRules, 1);
    IconFirstMatch(name, 1);
  }

  /** "胶带" is the first tape keyword and holds the first glue keyword. */
  lemma TapeKeyword(s: string)
    requires Contains(s, "胶带")
    ensures ContainsAny(s, IconRules[1].keys) && ContainsAny(s, GlueKeys)
  {
    ContainsSlice(s, "胶带", 0, 1);
    assert "胶带"[0..1] == GlueKeys[0];
    assert TapeKeys[0] == "胶带";
  }

  /** Whenever "螺丝刀" occurs (and no keyword of the first three tests), the icon is
      screwdriver, although the knife keyword "刀" then occurs as well. */
  lemma ScrewdriverBeforeKnife(name: string)
    requires Contains(IconKey(name), "螺丝刀")
    requires NoneMatch(IconKey(name), IconRules, 3)
    ensures ContainsAny(IconKey(name), KnifeKeys)
    ensures DetermineIconType(name) == Screwdriver
  {
    ScrewdriverKeyword(IconKey(name));
    IconFirstMatch(name, 3);
  }

  // The lemmas about single names take the name as a parameter equal to the literal and reach
  // the icon through small steps, so that the verifier does not evaluate the matcher.

  /** A name without surrounding whitespace or capitals is decided by test i when it holds a
      keyword of test i and none of an earlier test. */
  lemma PlainNameIcon(s: string, i: nat)
    requires i < |IconRules|
    requires IsTrimmed(s) && NoCapitals(s)
    requires ContainsAny(s, IconRules[i].keys)
    requires NoneMatch(s, IconRules, i)
    ensures DetermineIconType(s) == IconRules[i].outcome
  {
    IconKeyOfPlainName(s);
    IconFirstMatch(s, i);
  }

  /** '胶带' gives 'tape', not 'glue'. */
  lemma TapeName(name: string)
    requires name == "胶带"
    ensures ContainsAny(IconKey(name), GlueKeys)
    ensures DetermineIconType(name) == Tape
  {
    TapeNameFacts(name);
    PlainTapeBeforeGlue(name);
  }

  lemma TapeNameFacts(s: string)
    requires s == "胶带"
    ensures Contains(s, "胶带") && !ContainsAny(s, IconRules[0].keys)
  {
    MissesScissors(s);
    assert OccursAt(s, "胶带", 0);
    ContainsMeans(s, "胶带");
  }

  lemma PlainTapeBeforeGlue(s: string)
    requires IsTrimmed(s) && NoCapitals(s)
    requires Contains(s, "胶带") && !ContainsAny(s, IconRules[0].keys)
    ensures ContainsAny(IconKey(s), GlueKeys)
    ensures DetermineIconType(s) == Tape
  {
    IconKeyOfPlainName(s);
    TapeBeforeGlue(s);
  }

  /** "螺丝刀" holds the first screwdriver keyword and the first knife keyword. */
  lemma ScrewdriverKeyword(s: string)
    requires Contains(s, "螺丝刀")
    ensures ContainsAny(s, IconRules[3].keys) && ContainsAny(s, KnifeKeys)
  {
    ContainsSlice(s, "螺丝刀", 0, 1);
    ContainsSlice(s, "螺丝刀", 2, 3);
    assert "螺丝刀"[0..1] == ScrewdriverKeys[0];
    assert "螺丝刀"[2..3] == KnifeKeys[0];
  }

  /** '螺丝刀' gives 'screwdriver', not 'knife'. */
  lemma ScrewdriverName(name: string)
    requires name == "螺丝刀"
    ensures ContainsAny(IconKey(name), KnifeKeys)
    ensures DetermineIconType(name) == Screwdriver
  {
    ScrewdriverNameFacts(name);
    PlainScrewdriverBeforeKnife(name);
  }

  lemma ScrewdriverNameFacts(s: string)
    requires s == "螺丝刀"
    ensures Contains(s, "螺丝刀")
    ensures NoneMatch(s, IconRules, 3)
  {
    NoIconChars(s, 3);
    assert OccursAt(s, "螺丝刀", 0);
    ContainsMeans(s, "螺丝刀");
  }

  lemma PlainScrewdriverBeforeKnife(s: string)
    requires IsTrimmed(s) && NoCapitals(s)
    requires Contains(s, "螺丝刀")
    requires NoneMatch(s, IconRules, 3)
    ensures ContainsAny(IconKey(s), KnifeKeys)
    ensures DetermineIconType(s) == Screwdriver
  {
    IconKeyOfPlainName(s);
    ScrewdriverBeforeKnife(s);
  }

  /** A name with none of the keywords falls through to 'other'. */
  lemma UnmatchedNameIsOther(name: string)
    requires name == "锤子"
    ensures DetermineIconType(name) == OtherIcon
  {
    IconKeyOfPlainName(name);
    HammerMisses(name);
  }

  lemma HammerMisses(s: string)
    requires s == "锤子"
    ensures NoneMatch(s, IconRules, |IconRules|)
  {
    NoIconChars(s, 7);
  }

  /** A string that lacks the marked characters of the first n tests matches none of them. */
  lemma NoIconChars(s: string, n: nat)
    requires n <= |IconRules|
    requires n > 0 ==> '剪' !in s && 's' !in s && 'c' !in s
    requires n > 1 ==> '带' !in s && 't' !in s
    requires n > 2 ==> '胶' !in s && 'g' !in s && '粘' !in s
    requires n > 3 ==> '螺' !in s && 'd' !in s && 's' !in s && 'w' !in s && '扳' !in s
    requires n > 4 ==> '笔' !in s && '刷' !in s && 'b' !in s && 'p' !in s
    requires n > 5 ==> '尺' !in s && 'r' !in s && '量' !in s
    requires n > 6 ==> '刀' !in s && 'k' !in s
    ensures NoneMatch(s, IconRules, n)
  {
    forall j | 0 <= j < n ensures !ContainsAny(s, IconRules[j].keys) {
      if j == 0 { MissesScissors(s); }
      else if j == 1 { MissesTape(s); }
      else if j == 2 { MissesGlue(s); }
      else if j == 3 { MissesScrewdriver(s); }
      else if j == 4 { MissesBrush(s); }
      else if j == 5 { MissesRuler(s); }
      else { MissesKnife(s); }
    }
  }

  // Each keyword of a test has a character (listed here) that a string lacking all of them
  // cannot contain.

  lemma MissesScissors(s: string)
    requires '剪' !in s && 's' !in s && 'c' !in s
    ensures !ContainsAny(s, IconRules[0].keys)
  {
    KeysNeedAbsentChars(s, ScissorsKeys, "剪sc");
  }

  lemma MissesTape(s: string)
    requires '带' !in s && 't' !in s
    ensures !ContainsAny(s, IconRules[1].keys)
  {
    KeysNeedAbsentChars(s, TapeKeys, "带t");
  }

  lemma MissesGlue(s: string)
    requires '胶' !in s && 'g' !in s && '粘' !in s
    ensures !ContainsAny(s, IconRules[2].keys)
  {
    KeysNeedAbsentChars(s, GlueKeys, "胶g粘");
  }

  lemma MissesScrewdriver(s: string)
    requires '螺' !in s && 'd' !in s && 's' !in s && 'w' !in s && '扳' !in s
    ensures !ContainsAny(s, IconRules[3].keys)
  {
    KeysNeedAbsentChars(s, ScrewdriverKeys, "螺dsw扳");
  }

  lemma MissesBrush(s: string)
    requires '笔' !in s && '刷' !in s && 'b' !in s && 'p' !in s
    ensures !ContainsAny(s, IconRules[4].keys)
  {
    KeysNeedAbsentChars(s, BrushKeys, "笔刷bp");
  }

  lemma MissesRuler(s: string)
    requires '尺' !in s && 'r' !in s && '量' !in s
    ensures !ContainsAny(s, IconRules[5].keys)
  {
    KeysNeedAbsentChars(s, RulerKeys, "尺r量");
  }

  lemma MissesKnife(s: string)
    requires '刀' !in s && 'k' !in s
    ensures !ContainsAny(s, IconRules[6].keys)
  {
    KeysNeedAbsentChars(s, KnifeKeys, "刀k");
  }

  // ================================================================ achievements

  /** The five entries of `ACHIEVEMENTS`, in display order. */
  datatype Achievement = Beginner | Creator | Hoarder | Master | Guardian

  const Achievements: seq<Achievement> := [Beginner, Creator, Hoarder, Master, Guardian]

  predicate IsRemused(i: CollectedItem)
  {
    i.status == Remused
  }

  /** `items.filter(i => i.status === 'remused').length`. */
  function RemusedCount(items: seq<CollectedItem>): (n: nat)
    ensures n <= |items|
  {
    CountWhere(items, IsRemused)
  }

  /** `achievement.condition(items)`. */
  predicate Unlocked(a: Achievement, items: seq<CollectedItem>)
  {
    match a
    case Beginner => |items| >= 1
    case Creator => exists k :: 0 <= k < |items| && items[k].status == Remused
    case Hoarder => |items| >= 10
    case Master => RemusedCount(items) >= 5
    case Guardian => |items| >= 20
  }

  /** 'creator' (`some` item remused) is the same as a positive remused count. */
  lemma CreatorMeansRemused(items: seq<CollectedItem>)
    ensures Unlocked(Creator, items) <==> RemusedCount(items) >= 1
  {
    CountWherePositive(items, IsRemused);
  }

  /** The achievements form two chains: guardian ⇒ hoarder ⇒ beginner, and
      master ⇒ creator ⇒ beginner. */
  lemma AchievementChains(items: seq<CollectedItem>)
    ensures Unlocked(Guardian, items) ==> Unlocked(Hoarder, items)
    ensures Unlocked(Hoarder, items) ==> Unlocked(Beginner, items)
    ensures Unlocked(Master, items) ==> Unlocked(Creator, items)
    ensures Unlocked(Creator, items) ==> Unlocked(Beginner, items)
  {
    CreatorMeansRemused(items);
  }

  /** Adding an item never locks an achievement again. */
  lemma AchievementsStayUnlocked(a: Achievement, items: seq<CollectedItem>, item: CollectedItem)
    requires Unlocked(a, items)
    ensures Unlocked(a, [item] + items)
  {
    CountWhereAppend([item], items, IsRemused);
    if a == Creator {
      var k :| 0 <= k < |items| && items[k].status == Remused;
      assert ([item] + items)[k + 1] == items[k];
    }
  }

  // ================================================================ level and points

  /** `Math.floor(items.length / 5) + 1`: one level per five items. */
  function Level(count: nat): (l: nat)
    ensures l >= 1 && 5 * (l - 1) <= count < 5 * l
  {
    count / 5 + 1
  }

  /** `remusedCount * 10 + items.length * 5`. */
  function EcoPoints(items: seq<CollectedItem>): (p: nat)
    ensures 5 * |items| <= p <= 15 * |items|
    ensures p % 5 == 0
  {
    RemusedCount(items) * 10 + |items| * 5
  }

  // ================================================================ toolkit grid

  /** The add slot is rendered while the kit has fewer than 16 tools. */
  predicate AddSlotShown(toolCount: nat)
  {
    toolCount < 16
  }

  /** `Math.max(0, 11 - myTools.length)` empty filler slots. */
  function FillerCount(toolCount: nat): (n: nat)
    ensures toolCount + n >= 11 && (toolCount < 11 ==> toolCount + n == 11)
  {
    if toolCount < 11 then 11 - toolCount else 0
  }

  /** Every cell of the cabinet: one per tool, the add slot, then the fillers. */
  function CellCount(toolCount: nat): (c: nat)
  {
    toolCount + (if AddSlotShown(toolCount) then 1 else 0) + FillerCount(toolCount)
  }

  /** A kit of up to 11 tools fills exactly 12 cells; the cabinet grows past that. */
  lemma CellCountShape(toolCount: nat)
    ensures toolCount <= 11 ==> CellCount(toolCount) == 12
    ensures 11 <= toolCount < 16 ==> CellCount(toolCount) == toolCount + 1
    ensures 16 <= toolCount ==> CellCount(toolCount) == toolCount
  {
  }

  /** `SLOT-${String(idx + 1).padStart(2, '0')}`: slots are numbered from 1. */
  function SlotLabel(idx: nat): string
  {
    "SLOT-" + ZeroPadded(idx + 1, 2)
  }

  lemma SlotLabelNumbersFromOne(idx: nat)
    ensures SlotLabel(idx)[..5] == "SLOT-"
    ensures |SlotLabel(idx)| >= 7
    ensures var digits := SlotLabel(idx)[5..];
            (forall i :: 0 <= i < |digits| ==> IsDigit(digits[i])) && DigitsValue(digits) == idx + 1
  {
    ZeroPaddedKeepsValue(idx + 1, 2);
    assert SlotLabel(idx)[5..] == ZeroPadded(idx + 1, 2);
  }

  // ================================================================ toolkit state

  const MaxTools := 16
  const DefaultColor := "#ccff00"

  /** `DEFAULT_TOOLS`. */
  const DefaultTools: seq<Tool> := [
    Tool("1", "精密剪刀", Scissors, "#ff0055"),
    Tool("2", "强力胶带", Tape, "#ccff00"),
    Tool("3", "万能胶水", Glue, "#00ffff"),
    Tool("4", "螺丝刀组", Screwdriver, "#ff9900"),
    Tool("5", "刻刀", Knife, "#e5e5e5"),
    Tool("6", "钢尺", Ruler, "#a3a3a3")
  ]

  /** The tool list and the add-tool form of the office. */
  class Toolkit {
    var tools: seq<Tool>
    var newToolName: string
    var newToolColor: string
    var showAddToolModal: bool

    /** The kit stays within the 16 slots: the form only opens while a slot is free. */
    ghost predicate Valid()
      reads this
    {
      |tools| <= MaxTools && (showAddToolModal ==> |tools| < MaxTools)
    }

    constructor ()
      ensures tools == DefaultTools && newToolName == "" && newToolColor == DefaultColor
      ensures !showAddToolModal && Valid()
    {
      tools := DefaultTools;
      newToolName := "";
      newToolColor := DefaultColor;
      showAddToolModal := false;
    }

    /** The add slot's click; the slot exists only while fewer than 16 tools are held. */
    method OpenAddToolModal()
      modifies this
      ensures showAddToolModal == (old(showAddToolModal) || AddSlotShown(|tools|))
      ensures tools == old(tools) && newToolName == old(newToolName) && newToolColor == old(newToolColor)
      ensures old(Valid()) ==> Valid()
    {
      if AddSlotShown(|tools|) {
        showAddToolModal := true;
      }
    }

    method CloseAddToolModal()
      modifies this
      ensures !showAddToolModal
      ensures tools == old(tools) && newToolName == old(newToolName) && newToolColor == old(newToolColor)
      ensures old(Valid()) ==> Valid()
    {
      showAddToolModal := false;
    }

    method SetNewToolName(name: string)
      modifies this
      ensures newToolName == name
      ensures tools == old(tools) && newToolColor == old(newToolColor) && showAddToolModal == old(showAddToolModal)
      ensures old(Valid()) ==> Valid()
    {
      newToolName := name;
    }

    method SetNewToolColor(color: string)
      modifies this
      ensures newToolColor == color
      ensures tools == old(tools) && newToolName == old(newToolName) && showAddToolModal == old(showAddToolModal)
      ensures old(Valid()) ==> Valid()
    {
      newToolColor := color;
    }

    /** The tool the form creates: the name as typed, with the icon derived from it. */
    static function NewTool(id: string, name: string, color: string): Tool
    {
      Tool(id, name, DetermineIconType(name), color)
    }

    /** `handleAddTool`, the form's submit; `id` is the fresh `crypto.randomUUID()`.
        A blank name changes nothing; otherwise one tool is appended, carrying the name as
        typed and the icon derived from it, and the form is reset and closed. */
    method AddTool(id: string)
      modifies this
      ensures Blank(old(newToolName)) ==>
                tools == old(tools) && newToolName == old(newToolName) &&
                newToolColor == old(newToolColor) && showAddToolModal == old(showAddToolModal)
      ensures !Blank(old(newToolName)) ==>
                tools == old(tools) + [NewTool(id, old(newToolName), old(newToolColor))] &&
                newToolName == "" && newToolColor == DefaultColor && !showAddToolModal
      ensures old(Valid()) && old(showAddToolModal) ==> Valid()
    {
      var name := newToolName;
      if !Blank(name) {
        tools := tools + [NewTool(id, name, newToolColor)];
        newToolName := "";
        newToolColor := DefaultColor;
        showAddToolModal := false;
      }
    }

    /** `handleDeleteTool`: drop every tool with this id, keeping the others in order. */
    method DeleteTool(id: string)
      modifies this
      ensures tools == Filter(old(tools), (t: Tool) => t.id != id)
      ensures newToolName == old(newToolName) && newToolColor == old(newToolColor)
      ensures showAddToolModal == old(showAddToolModal)
      ensures old(Valid()) ==> Valid()
    {
      tools := Filter(tools, (t: Tool) => t.id != id);
    }
  }

  /** After a delete no tool has the id, and every other tool is still there. */
  lemma DeleteToolRemovesExactly(tools: seq<Tool>, id: string)
    ensures forall t :: t in Filter(tools, (u: Tool) => u.id != id) <==> t in tools && t.id != id
  {
    FilterMembers(tools, (u: Tool) => u.id != id);
  }

  /** Deleting an id no tool has leaves the list as it was. */
  lemma DeleteAbsentToolKeepsList(tools: seq<Tool>, id: string)
    requires forall i :: 0 <= i < |tools| ==> tools[i].id != id
    ensures Filter(tools, (u: Tool) => u.id != id) == tools
  {
    FilterKeepsAll(tools, (u: Tool) => u.id != id);
  }

  /** The icon stored with each default tool is the one its name would be given. */
  lemma DefaultIconsAgree(tools: seq<Tool>)
    requires tools == DefaultTools
    ensures forall i :: 0 <= i < |tools| ==> tools[i].iconType == DetermineIconType(tools[i].name)
  {
    forall i | 0 <= i < |tools|
      ensures tools[i].iconType == DetermineIconType(tools[i].name)
    {
      DefaultToolIcon(tools, i);
    }
  }

  lemma DefaultToolIcon(tools: seq<Tool>, i: nat)
    requires tools == DefaultTools && i < |tools|
    ensures tools[i].iconType == DetermineIconType(tools[i].name)
  {
    if i == 0 {
      DefaultScissors(tools[0].name);
    } else if i == 1 {
      DefaultTape(tools[1].name);
    } else if i == 2 {
      DefaultGlue(tools[2].name);
    } else if i == 3 {
      DefaultScrewdriver(tools[3].name);
    } else if i == 4 {
      DefaultKnife(tools[4].name);
    } else {
      DefaultRuler(tools[5].name);
    }
  }

  lemma DefaultScissors(name: string)
    requires name == "精密剪刀"
    ensures DetermineIconType(name) == Scissors
  {
    assert OccursAt(name, "剪", 2);
    ContainsMeans(name, "剪");
    PlainNameIcon(name, 0);
  }

  lemma DefaultTape(name: string)
    requires name == "强力胶带"
    ensures DetermineIconType(name) == Tape
  {
    NoIconChars(name, 1);
    assert OccursAt(name, "胶带", 2);
    ContainsMeans(name, "胶带");
    PlainNameIcon(name, 1);
  }

  lemma DefaultGlue(name: string)
    requires name == "万能胶水"
    ensures DetermineIconType(name) == Glue
  {
    DefaultGlueMisses(name);
    assert OccursAt(name, "胶", 2);
    ContainsMeans(name, "胶");
    PlainNameIcon(name, 2);
  }

  lemma DefaultGlueMisses(s: string)
    requires s == "万能胶水"
    ensures NoneMatch(s, IconRules, 2)
  {
    NoIconChars(s, 2);
  }

  lemma DefaultScrewdriver(name: string)
    requires name == "螺丝刀组"
    ensures DetermineIconType(name) == Screwdriver
  {
    DefaultScrewdriverMisses(name);
    assert OccursAt(name, "螺", 0);
    ContainsMeans(name, "螺");
    PlainNameIcon(name, 3);
  }

  lemma DefaultScrewdriverMisses(s: string)
    requires s == "螺丝刀组"
    ensures NoneMatch(s, IconRules, 3)
  {
    NoIconChars(s, 3);
  }

  lemma DefaultKnife(name: string)
    requires name == "刻刀"
    ensures DetermineIconType(name) == Knife
  {
    DefaultKnifeMisses(name);
    assert OccursAt(name, "刀", 1);
    ContainsMeans(name, "刀");
    PlainNameIcon(name, 6);
  }

  lemma DefaultKnifeMisses(s: string)
    requires s == "刻刀"
    ensures NoneMatch(s, IconRules, 6)
  {
    NoIconChars(s, 6);
  }

  lemma DefaultRuler(name: string)
    requires name == "钢尺"
    ensures DetermineIconType(name) == Ruler
  {
    DefaultRulerMisses(name);
    assert OccursAt(name, "尺", 1);
    ContainsMeans(name, "尺");
    PlainNameIcon(name, 5);
  }

  lemma DefaultRulerMisses(s: string)
    requires s == "钢尺"
    ensures NoneMatch(s, IconRules, 5)
  {
    NoIconChars(s, 5);
  }
}
