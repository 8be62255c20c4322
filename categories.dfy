/**
 * The two category enumerations and their display-name tables. Each enumeration ends in a
 * `Max` member that marks one past the last real category; `len()` of the enumeration counts it.
 */
module Categories {
  import opened Wrappers

  datatype DressupCategory =
    | Base | Accessory | Bag | Eye | Foot | Glove | Head
    | Hair | Leg | Dress | Face | LowerBody | UpperBody | Max
  {
    /** The member's `.value`. */
    function Ordinal(): (n: nat)
      ensures n < DRESSUP_CATEGORY_LEN
      ensures n == DRESSUP_CATEGORY_LEN - 1 <==> this == DressupCategory.Max
    {
      match this
      case Base => 0
      case Accessory => 1
      case Bag => 2
      case Eye => 3
      case Foot => 4
      case Glove => 5
      case Head => 6
      case Hair => 7
      case Leg => 8
      case Dress => 9
      case Face => 10
      case LowerBody => 11
      case UpperBody => 12
      case Max => 13
    }
  }

  /** `len(DressupCategory)`, the sentinel included. */
  const DRESSUP_CATEGORY_LEN: nat := 14

  /** `DressupCategory(n)`: the member with value n, if there is one. */
  function DressupFromOrdinal(n: int): (r: Option<DressupCategory>)
    ensures r.Some? <==> 0 <= n < DRESSUP_CATEGORY_LEN
    ensures r.Some? ==> r.value.Ordinal() == n
  {
    if n == 0 then Some(Base)
    else if n == 1 then Some(Accessory)
    else if n == 2 then Some(Bag)
    else if n == 3 then Some(Eye)
    else if n == 4 then Some(Foot)
    else if n == 5 then Some(Glove)
    else if n == 6 then Some(Head)
    else if n == 7 then Some(Hair)
    else if n == 8 then Some(Leg)
    else if n == 9 then Some(Dress)
    else if n == 10 then Some(Face)
    else if n == 11 then Some(LowerBody)
    else if n == 12 then Some(UpperBody)
    else if n == 13 then Some(DressupCategory.Max)
    else None
  }

  /** Values name members uniquely. */
  lemma DressupOrdinalRoundTrip(c: DressupCategory)
    ensures DressupFromOrdinal(c.Ordinal()) == Some(c)
  {
    match c
    case Base =>
    case Accessory =>
    case Bag =>
    case Eye =>
    case Foot =>
    case Glove =>
    case Head =>
    case Hair =>
    case Leg =>
    case Dress =>
    case Face =>
    case LowerBody =>
    case UpperBody =>
    case Max =>
  }

  /** One short name per addressable dressup category (the sentinel has none). */
  const DRESSUP_CATEGORY_NAMES: seq<string> := [
    "base", "acc", "bag", "eyw", "ftw", "glv", "hdw", "hrs",
    "lgw", "drs", "face", "lwb", "upb"
  ]

  lemma DressupNamesCoverAddressable()
    ensures |DRESSUP_CATEGORY_NAMES| == DRESSUP_CATEGORY_LEN - 1 == DressupCategory.Max.Ordinal()
    ensures forall i, j :: 0 <= i < j < |DRESSUP_CATEGORY_NAMES| ==> DRESSUP_CATEGORY_NAMES[i] != DRESSUP_CATEGORY_NAMES[j]
  {
  }

  datatype StyleCategory =
    | SkinColor | LipColor | DarkCircleColor | EyeColor | EyebrowsColor | EyebrowsVolume
    | EyelashesColor | EyelashesVolume | Mole | Mole_01 | Freckles | HairColor_00 | HairColor_01
    | HairColor_02 | HairColor_03 | ShapeFace | ShapeFhr | HairColorStyle | Max
  {
    /** The member's `.value`. */
    function Ordinal(): (n: nat)
      ensures n < STYLE_CATEGORY_LEN
      ensures n == STYLE_CATEGORY_LEN - 1 <==> this == StyleCategory.Max
    {
      match this
      case SkinColor => 0
      case LipColor => 1
      case DarkCircleColor => 2
      case EyeColor => 3
      case EyebrowsColor => 4
      case EyebrowsVolume => 5
      case EyelashesColor => 6
      case EyelashesVolume => 7
      case Mole => 8
      case Mole_01 => 9
      case Freckles => 10
      case HairColor_00 => 11
      case HairColor_01 => 12
      case HairColor_02 => 13
      case HairColor_03 => 14
      case ShapeFace => 15
      case ShapeFhr => 16
      case HairColorStyle => 17
      case Max => 18
    }
  }

  /** `len(StyleCategory)`, the sentinel included. */
  const STYLE_CATEGORY_LEN: nat := 19

  /** `StyleCategory(n)`: the member with value n, if there is one. */
  function StyleFromOrdinal(n: int): (r: Option<StyleCategory>)
    ensures r.Some? <==> 0 <= n < STYLE_CATEGORY_LEN
    ensures r.Some? ==> r.value.Ordinal() == n
  {
    if n == 0 then Some(SkinColor)
    else if n == 1 then Some(LipColor)
    else if n == 2 then Some(DarkCircleColor)
    else if n == 3 then Some(EyeColor)
    else if n == 4 then Some(EyebrowsColor)
    else if n == 5 then Some(EyebrowsVolume)
    else if n == 6 then Some(EyelashesColor)
    else if n == 7 then Some(EyelashesVolume)
    else if n == 8 then Some(Mole)
    else if n == 9 then Some(Mole_01)
    else if n == 10 then Some(Freckles)
    else if n == 11 then Some(HairColor_00)
    else if n == 12 then Some(HairColor_01)
    else if n == 13 then Some(HairColor_02)
    else if n == 14 then Some(HairColor_03)
    else if n == 15 then Some(ShapeFace)
    else if n == 16 then Some(ShapeFhr)
    else if n == 17 then Some(HairColorStyle)
    else if n == 18 then Some(StyleCategory.Max)
    else None
  }

  lemma StyleOrdinalRoundTrip(c: StyleCategory)
    ensures StyleFromOrdinal(c.Ordinal()) == Some(c)
  {
    match c
    case SkinColor =>
    case LipColor =>
    case DarkCircleColor =>
    case EyeColor =>
    case EyebrowsColor =>
    case EyebrowsVolume =>
    case EyelashesColor =>
    case EyelashesVolume =>
    case Mole =>
    case Mole_01 =>
    case Freckles =>
    case HairColor_00 =>
    case HairColor_01 =>
    case HairColor_02 =>
    case HairColor_03 =>
    case ShapeFace =>
    case ShapeFhr =>
    case HairColorStyle =>
    case Max =>
  }

  /** One short name per addressable style category (the sentinel has none). */
  const STYLE_CATEGORY_NAMES: seq<string> := [
    "color_skin", "color_lip", "color_darkcircle", "color_eye",
    "color_eyebrow", "volume_eyebrow", "color_eyelash", "volume_eyelash",
    "mole", "mole_01", "freckles", "color_hrs_00", "color_hrs_01",
    "color_hrs_02", "color_hrs_03", "shape_face", "shape_fhr", "style_hrs"
  ]

  lemma StyleNamesCoverAddressable()
    ensures |STYLE_CATEGORY_NAMES| == STYLE_CATEGORY_LEN - 1 == StyleCategory.Max.Ordinal()
    ensures forall i, j :: 0 <= i < j < |STYLE_CATEGORY_NAMES| ==> STYLE_CATEGORY_NAMES[i] != STYLE_CATEGORY_NAMES[j]
  {
  }
}
