/**
 * Categorical bucketing of a race: surface, going, distance band,
 * popularity tier and course name. Every mapping is total: unexpected
 * codes fall into an "other"/"unknown" bucket or pass through unchanged.
 */
module Buckets {

  // ---------------------------------------------------------------- surface

  datatype TrackType = Turf | Dirt | OtherTrack

  /** `CASE SUBSTRING(track_code, 1, 1)`: '1' is turf, '2' is dirt, anything else (and an empty code) is other. */
  function TrackTypeOf(trackCode: string): (t: TrackType)
    ensures t == Turf <==> |trackCode| > 0 && trackCode[0] == '1'
    ensures t == Dirt <==> |trackCode| > 0 && trackCode[0] == '2'
  {
    var first := if |trackCode| > 0 then trackCode[..1] else "";
    if first == "1" then Turf
    else if first == "2" then Dirt
    else OtherTrack
  }

  function TrackTypeLabel(t: TrackType): string {
    match t
    case Turf => "芝"
    case Dirt => "ダート"
    case OtherTrack => "その他"
  }

  /** Comparing labels, as the queries do, is the same as comparing surfaces. */
  lemma TrackTypeLabelInjective(a: TrackType, b: TrackType)
    ensures TrackTypeLabel(a) == TrackTypeLabel(b) <==> a == b
  {
  }

  // ------------------------------------------------------------------ going

  datatype Going = Good | Yielding | Soft | Heavy | UnknownGoing

  /** The going codes with a label: '1' to '4'. */
  predicate IsGoingCode(code: string) {
    code == "1" || code == "2" || code == "3" || code == "4"
  }

  /** Label of a single going code, or unknown. */
  function GoingOfCode(code: string): (g: Going)
    ensures g != UnknownGoing <==> IsGoingCode(code)
  {
    if code == "1" then Good
    else if code == "2" then Yielding
    else if code == "3" then Soft
    else if code == "4" then Heavy
    else UnknownGoing
  }

  /**
   * The surface-condition CASE: the turf going field is read on turf, the
   * dirt going field on dirt; every other combination is unknown.
   */
  function GoingOf(trackCode: string, turfGoing: string, dirtGoing: string): (g: Going)
    ensures g != UnknownGoing <==>
      (TrackTypeOf(trackCode) == Turf && IsGoingCode(turfGoing)) ||
      (TrackTypeOf(trackCode) == Dirt && IsGoingCode(dirtGoing))
  {
    var surface := TrackTypeOf(trackCode);
    if surface == Turf && turfGoing == "1" then Good
    else if surface == Turf && turfGoing == "2" then Yielding
    else if surface == Turf && turfGoing == "3" then Soft
    else if surface == Turf && turfGoing == "4" then Heavy
    else if surface == Dirt && dirtGoing == "1" then Good
    else if surface == Dirt && dirtGoing == "2" then Yielding
    else if surface == Dirt && dirtGoing == "3" then Soft
    else if surface == Dirt && dirtGoing == "4" then Heavy
    else UnknownGoing
  }

  /** The `condition_code` column: the going field of the race's own surface, '0' off turf and dirt. */
  function ConditionCode(trackCode: string, turfGoing: string, dirtGoing: string): (code: string)
    ensures TrackTypeOf(trackCode) == Turf ==> code == turfGoing
    ensures TrackTypeOf(trackCode) == Dirt ==> code == dirtGoing
    ensures TrackTypeOf(trackCode) == OtherTrack ==> code == "0" && !IsGoingCode(code)
  {
    match TrackTypeOf(trackCode)
    case Turf => turfGoing
    case Dirt => dirtGoing
    case OtherTrack => "0"
  }

  /** The going label is a function of the condition code alone. */
  lemma GoingIsConditionCodeLabel(trackCode: string, turfGoing: string, dirtGoing: string)
    ensures GoingOf(trackCode, turfGoing, dirtGoing) == GoingOfCode(ConditionCode(trackCode, turfGoing, dirtGoing))
  {
  }

  function GoingLabel(g: Going): string {
    match g
    case Good => "良"
    case Yielding => "稍重"
    case Soft => "重"
    case Heavy => "不良"
    case UnknownGoing => "不明"
  }

  lemma GoingLabelInjective(a: Going, b: Going)
    ensures GoingLabel(a) == GoingLabel(b) <==> a == b
  {
  }

  // --------------------------------------------------------------- distance

  datatype DistanceBand = Sprint | Middle | Long

  /** `CASE kyori`: at most 1400 is a sprint, at most 2000 a middle distance, longer is long. */
  function DistanceBandOf(distance: int): (b: DistanceBand)
    ensures b == Sprint <==> distance <= 1400
    ensures b == Long <==> distance > 2000
  {
    if distance <= 1400 then Sprint
    else if distance <= 2000 then Middle
    else Long
  }

  function BandOrder(b: DistanceBand): nat {
    match b
    case Sprint => 0
    case Middle => 1
    case Long => 2
  }

  /** A longer race never falls in a shorter band. */
  lemma DistanceBandMonotone(d1: int, d2: int)
    requires d1 <= d2
    ensures BandOrder(DistanceBandOf(d1)) <= BandOrder(DistanceBandOf(d2))
  {
  }

  function DistanceBandLabel(b: DistanceBand): string {
    match b
    case Sprint => "短距離"
    case Middle => "中距離"
    case Long => "長距離"
  }

  lemma DistanceBandLabelInjective(a: DistanceBand, b: DistanceBand)
    ensures DistanceBandLabel(a) == DistanceBandLabel(b) <==> a == b
  {
  }

  // ------------------------------------------------------------- popularity

  datatype PopularityTier = Favorite | MidPrice | Longshot

  /** `CASE tansho_ninkijun`: 1-3 favourite, 4-8 mid-price, every other value (also 0 and below) longshot. */
  function TierOf(popularity: int): (t: PopularityTier)
    ensures t == Favorite <==> 1 <= popularity <= 3
    ensures t == MidPrice <==> 4 <= popularity <= 8
    ensures t == Longshot <==> popularity <= 0 || popularity >= 9
  {
    if 1 <= popularity <= 3 then Favorite
    else if 4 <= popularity <= 8 then MidPrice
    else Longshot
  }

  function TierLabel(t: PopularityTier): string {
    match t
    case Favorite => "人気（1-3位）"
    case MidPrice => "中穴（4-8位）"
    case Longshot => "大穴（9位-）"
  }

  /** Position of a tier when labels are sorted by code point (中 U+4E2D, 人 U+4EBA, 大 U+5927). */
  function TierSortRank(t: PopularityTier): nat {
    match t
    case MidPrice => 0
    case Favorite => 1
    case Longshot => 2
  }

  /** The labels differ in their first character, and that character orders them as `TierSortRank` does. */
  lemma TierLabelOrder(a: PopularityTier, b: PopularityTier)
    ensures |TierLabel(a)| > 0 && |TierLabel(b)| > 0
    ensures TierLabel(a)[0] < TierLabel(b)[0] <==> TierSortRank(a) < TierSortRank(b)
  {
  }

  // ----------------------------------------------------------------- course

  /** The code-to-name CASE of the course queries. */
  const CourseNames: map<string, string> := map[
    "01" := "札幌", "02" := "函館", "03" := "福島", "04" := "新潟", "05" := "東京",
    "06" := "中山", "07" := "中京", "08" := "京都", "09" := "阪神", "10" := "小倉"]

  /** The name-to-code dictionary of the course feature. */
  const CourseCodes: map<string, string> := map[
    "札幌" := "01", "函館" := "02", "福島" := "03", "新潟" := "04", "東京" := "05",
    "中山" := "06", "中京" := "07", "京都" := "08", "阪神" := "09", "小倉" := "10"]

  /** The two tables are exact inverses of each other. */
  lemma CourseTablesInverse()
    ensures forall code :: code in CourseNames ==> CourseNames[code] in CourseCodes && CourseCodes[CourseNames[code]] == code
    ensures forall name :: name in CourseCodes ==> CourseCodes[name] in CourseNames && CourseNames[CourseCodes[name]] == name
  {
  }

  /** Name of a course code; an unknown code is its own name. */
  function CourseNameOf(code: string): (name: string)
    ensures code in CourseNames ==> name in CourseCodes && CourseCodes[name] == code
    ensures code !in CourseNames ==> name == code
  {
    CourseTablesInverse();
    if code in CourseNames then CourseNames[code] else code
  }

  /** Code of a course name; an unknown name is used unchanged as the code. */
  function CourseCodeOf(name: string): (code: string)
    ensures name in CourseCodes ==> code in CourseNames && CourseNames[code] == name
    ensures name !in CourseCodes ==> code == name
    ensures name !in CourseNames ==> CourseNameOf(code) == name
  {
    CourseTablesInverse();
    if name in CourseCodes then CourseCodes[name] else name
  }

  /** Mapping a code that is not also a course name to a name and back returns the code. */
  lemma CourseCodeRoundTrip(code: string)
    requires code !in CourseCodes
    ensures CourseCodeOf(CourseNameOf(code)) == code
  {
    CourseTablesInverse();
  }
}
