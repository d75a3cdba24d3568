// The record shapes shared by the service and the components (types.ts).

module Types {

  datatype Option<T> = None | Some(value: T)

  /** The six built-in exhibition categories; the enum's values are Chinese labels. */
  datatype ItemCategory = Packaging | Container | Paper | Electronic | Textile | Other

  function CategoryName(c: ItemCategory): string
  {
    match c
    case Packaging => "包装"
    case Container => "容器"
    case Paper => "纸质"
    case Electronic => "电子"
    case Textile => "纺织"
    case Other => "其他"
  }

  /** `Object.values(ItemCategory)`: every category, in declaration order. */
  const AllCategories: seq<ItemCategory> := [Packaging, Container, Paper, Electronic, Textile, Other]

  /** The string values of the enum, in declaration order. */
  function CategoryNames(): (r: seq<string>)
    ensures |r| == |AllCategories|
    ensures forall i :: 0 <= i < |r| ==> r[i] == CategoryName(AllCategories[i])
  {
    ["包装", "容器", "纸质", "电子", "纺织", "其他"]
  }

  lemma CategoryNameInjective(c: ItemCategory, d: ItemCategory)
    ensures CategoryName(c) == CategoryName(d) ==> c == d
  {
    assert CategoryName(c)[0] == CategoryName(d)[0] ==> c == d;
  }

  datatype Difficulty = Easy | Medium | Hard

  function DifficultyName(d: Difficulty): string
  {
    match d
    case Easy => "简单"
    case Medium => "中等"
    case Hard => "困难"
  }

  datatype RemuseIdea = RemuseIdea(
    title: string,
    description: string,
    difficulty: Difficulty,
    materials: seq<string>,
    steps: seq<string>)

  /** `CollectedItem.status`. */
  datatype ItemStatus = Raw | InProgress | Remused

  /** `category` is a plain string so that custom halls can hold items. */
  datatype CollectedItem = CollectedItem(
    id: string,
    name: string,
    category: string,
    material: string,
    imageUrl: string,
    dateCollected: string,
    story: Option<string>,
    tags: seq<string>,
    ideas: seq<RemuseIdea>,
    status: ItemStatus)

  datatype Sticker = Sticker(
    id: string,
    originalItemId: string,
    stickerImageUrl: string,
    dramaText: string,
    category: string,
    dateCreated: string)

  /** Every hall the program builds sets `isCustom`, so it is a plain flag here. */
  datatype ExhibitionHall = ExhibitionHall(id: string, name: string, imageUrl: string, isCustom: bool)

  /** `Tool.iconType`; `OtherIcon` is the value 'other'. */
  datatype IconType = Scissors | Tape | Glue | Screwdriver | Brush | Ruler | Knife | OtherIcon

  datatype Tool = Tool(id: string, name: string, iconType: IconType, color: string)

  /** `keyof GuideData`: the three lists of the collection guide. */
  datatype GuideKind = Common | Rare | Seasonal

  datatype GuideData = GuideData(common: seq<string>, rare: seq<string>, seasonal: seq<string>)
  {
    function List(kind: GuideKind): seq<string>
    {
      match kind
      case Common => common
      case Rare => rare
      case Seasonal => seasonal
    }
  }
}
