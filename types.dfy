/**
 * The data of the score tracker (src/types.ts, src/constants/colors.ts):
 * the five score categories, the three bonus categories, the five player
 * colours, a player's per-category breakdown, history records, players and
 * the ledger commands the screens issue.
 */
module Types {

  datatype ScoreType = Castle | Road | Monastery | Garden | Field

  datatype BonusType = Barrel | Wheat | Cloth

  /** The keys of the colour table, in declaration order. */
  datatype PlayerColor = Red | Blue | Green | Yellow | Black

  /** The colours indexed by position when a roster is created. */
  const Palette: seq<PlayerColor> := [Red, Blue, Green, Yellow, Black]

  /** The CSS colour a player's colour key stands for. */
  function ColorCss(c: PlayerColor): (css: string)
    ensures |css| > 0
  {
    match c
    case Red => "rgb(220 38 38)"
    case Blue => "rgb(59 130 246)"
    case Green => "rgb(34 197 94)"
    case Yellow => "rgb(234 179 8)"
    case Black => "rgb(61, 65, 73)"
  }

  datatype GameState = Setup | ColorSelection | Playing

  /** Points per score category. */
  datatype Breakdown = Breakdown(castle: int, road: int, monastery: int, garden: int, field: int)
  {
    function Get(t: ScoreType): int {
      match t
      case Castle => castle
      case Road => road
      case Monastery => monastery
      case Garden => garden
      case Field => field
    }

    /** The breakdown with category `t` replaced by `v` (an object spread
        with one computed key). */
    function With(t: ScoreType, v: int): (b: Breakdown)
      ensures b.Get(t) == v
      ensures forall u :: u != t ==> b.Get(u) == Get(u)
    {
      match t
      case Castle => this.(castle := v)
      case Road => this.(road := v)
      case Monastery => this.(monastery := v)
      case Garden => this.(garden := v)
      case Field => this.(field := v)
    }

    /** The sum of the five categories. */
    function Total(): int {
      castle + road + monastery + garden + field
    }

    predicate NonNegative() {
      forall t :: Get(t) >= 0
    }
  }

  /** What a history record scored: a score category or a bonus category. */
  datatype RecordKind = Score(scoreType: ScoreType) | Bonus(bonusType: BonusType)

  datatype ScoreRecord = ScoreRecord(id: string, timestamp: int, kind: RecordKind, points: int)

  datatype Player = Player(
    id: int,
    name: string,
    score: int,
    color: PlayerColor,
    breakdown: Breakdown,
    history: seq<ScoreRecord>)

  /** The ledger commands the input screens hand to the application. */
  datatype Command =
    | AddScore(playerId: int, points: int, scoreType: ScoreType)
    | AddBonus(playerId: int, points: int, bonusType: BonusType)

  /** The label of each score category. */
  function ScoreLabel(t: ScoreType): (text: string)
    ensures |text| > 0
  {
    match t
    case Castle => "城堡"
    case Road => "道路"
    case Monastery => "修道院"
    case Garden => "花圃"
    case Field => "草地"
  }

  /** No two score categories share a label. */
  lemma ScoreLabelsDistinct(a: ScoreType, b: ScoreType)
    ensures ScoreLabel(a) == ScoreLabel(b) <==> a == b
  {
  }

  /** The icon of each score category. */
  function ScoreIcon(t: ScoreType): (icon: string)
    ensures |icon| > 0
  {
    match t
    case Castle => "🏰"
    case Road => "🛣️"
    case Monastery => "⛪"
    case Garden => "🌸"
    case Field => "🌾"
  }

  /** No two score categories share an icon. */
  lemma ScoreIconsDistinct(a: ScoreType, b: ScoreType)
    ensures ScoreIcon(a) == ScoreIcon(b) <==> a == b
  {
  }

  /** No two player colours share a CSS colour, so a history row's border
      tells its owner's colour. */
  lemma ColorCssDistinct(a: PlayerColor, b: PlayerColor)
    ensures ColorCss(a) == ColorCss(b) <==> a == b
  {
  }
}
