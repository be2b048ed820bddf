/**
 * The jockey features: three rollups of a jockey's results (by course,
 * by popularity tier, by surface and going) and the feature record of one
 * jockey under one course condition, compared with the jockey's overall
 * record.
 */
module JockeyFeatures {
  import opened Wrappers
  import opened Records
  import opened Buckets
  import opened Aggregates

  /** A qualifying run held in or after `sinceYear`. */
  predicate InPeriod(r: Run, sinceYear: int) {
    Qualifies(r) && r.year >= sinceYear
  }

  function PeriodRows(sinceYear: int): Run -> bool {
    r => InPeriod(r, sinceYear)
  }

  // ------------------------------------------------------------ course ROI

  type CourseKey = (string, string, string, TrackType, DistanceBand)

  /** (jockey id, jockey name, course name, surface, distance band). */
  function CourseKeyOf(r: Run): CourseKey {
    (r.jockeyId, r.jockeyName, CourseNameOf(r.courseCode), TrackTypeOf(r.trackCode), DistanceBandOf(r.distance))
  }

  /**
   * ROI per jockey, course, surface and distance band, over qualifying runs
   * since `sinceYear`, groups of at least `minRaces` runs, highest rounded
   * ROI first; empty when the query fails.
   */
  function CourseRoi(db: Db, sinceYear: int := 2000, minRaces: int := 20): (out: seq<Group<CourseKey>>)
    ensures CourseRoiQuery in db.failing ==> out == []
    ensures CourseRoiQuery !in db.failing ==>
      IsRollupOf(out, db.runs, PeriodRows(sinceYear), CourseKeyOf, minRaces, ByRoi)
  {
    if CourseRoiQuery in db.failing then []
    else
      RollupSpec(db.runs, PeriodRows(sinceYear), CourseKeyOf, minRaces, ByRoi);
      Rollup(db.runs, PeriodRows(sinceYear), CourseKeyOf, minRaces, ByRoi)
  }

  /** Every course group is named by the course table, or by its raw code when the code is unknown. */
  lemma CourseRoiNames(db: Db, sinceYear: int, minRaces: int, g: Group<CourseKey>)
    requires g in CourseRoi(db, sinceYear, minRaces)
    ensures exists r :: (r in db.runs && InPeriod(r, sinceYear) && r.jockeyId == g.key.0 &&
      (if r.courseCode in CourseNames then g.key.2 == CourseNames[r.courseCode] else g.key.2 == r.courseCode))
  {
    RollupWitness(db.runs, PeriodRows(sinceYear), CourseKeyOf, minRaces, ByRoi, g);
  }

  // -------------------------------------------------------- popularity ROI

  type PopularityKey = (string, string, PopularityTier)

  /**
   * The popularity tier of a run; the CASE sends a NULL popularity to its
   * ELSE branch, though such runs are filtered out before grouping.
   */
  function PopularityTierOf(r: Run): PopularityTier {
    match r.popularity
    case Some(p) => TierOf(p)
    case None => Longshot
  }

  function PopularityKeyOf(r: Run): PopularityKey {
    (r.jockeyId, r.jockeyName, PopularityTierOf(r))
  }

  /** The runs of the popularity query: in the period, with a popularity. */
  function PopularityRows(sinceYear: int): Run -> bool {
    r => InPeriod(r, sinceYear) && r.popularity.Some?
  }

  /** The same runs restricted to one tier. */
  function TierRows(sinceYear: int, t: PopularityTier): Run -> bool {
    r => InPeriod(r, sinceYear) && r.popularity.Some? && PopularityTierOf(r) == t
  }

  /** `ORDER BY popularity_category, roi_percentage DESC`, with the labels in code-point order. */
  predicate TierOrdered(s: seq<Group<PopularityKey>>) {
    forall i, j :: 0 <= i < j < |s| ==>
      || TierSortRank(s[i].key.2) < TierSortRank(s[j].key.2)
      || (s[i].key.2 == s[j].key.2 && Before(ByRoi, s[i].tally, s[j].tally))
  }

  /** The groups of one tier, ROI-sorted. */
  function TierPart(db: Db, sinceYear: int, minRaces: int, t: PopularityTier): seq<Group<PopularityKey>> {
    Rollup(db.runs, TierRows(sinceYear, t), PopularityKeyOf, minRaces, ByRoi)
  }

  /** One tier's part is the popularity rollup restricted to the keys of that tier. */
  lemma TierPartSpec(db: Db, sinceYear: int, minRaces: int, t: PopularityTier)
    ensures Sorted(ByRoi, TierPart(db, sinceYear, minRaces, t))
    ensures KeysDistinct(TierPart(db, sinceYear, minRaces, t))
    ensures forall g :: g in TierPart(db, sinceYear, minRaces, t) ==>
      && g.key.2 == t
      && g.tally == TallyOf(Select(Filter(db.runs, PopularityRows(sinceYear)), PopularityKeyOf, g.key))
      && g.tally.total >= minRaces
      && g.tally.total > 0
    ensures forall k: PopularityKey :: k.2 == t ==>
      (HasKey(TierPart(db, sinceYear, minRaces, t), k) <==>
        |Select(Filter(db.runs, PopularityRows(sinceYear)), PopularityKeyOf, k)| > 0 &&
        |Select(Filter(db.runs, PopularityRows(sinceYear)), PopularityKeyOf, k)| >= minRaces)
  {
    var part := TierPart(db, sinceYear, minRaces, t);
    RollupSpec(db.runs, TierRows(sinceYear, t), PopularityKeyOf, minRaces, ByRoi);
    forall k: PopularityKey | k.2 == t
      ensures Select(Filter(db.runs, TierRows(sinceYear, t)), PopularityKeyOf, k)
           == Select(Filter(db.runs, PopularityRows(sinceYear)), PopularityKeyOf, k)
    {
      SelectFilterAgree(db.runs, TierRows(sinceYear, t), PopularityRows(sinceYear), PopularityKeyOf, k);
    }
    forall g | g in part ensures g.key.2 == t {
      RollupWitness(db.runs, TierRows(sinceYear, t), PopularityKeyOf, minRaces, ByRoi, g);
    }
  }

  /** Concatenating tier-ordered parts whose tiers increase keeps the order and the distinct keys. */
  lemma ConcatTierOrdered(x: seq<Group<PopularityKey>>, y: seq<Group<PopularityKey>>)
    requires TierOrdered(x) && TierOrdered(y) && KeysDistinct(x) && KeysDistinct(y)
    requires forall a, b :: a in x && b in y ==> TierSortRank(a.key.2) < TierSortRank(b.key.2)
    ensures TierOrdered(x + y) && KeysDistinct(x + y)
  {
    var s := x + y;
    forall i, j | 0 <= i < j < |s|
      ensures TierSortRank(s[i].key.2) < TierSortRank(s[j].key.2)
           || (s[i].key.2 == s[j].key.2 && Before(ByRoi, s[i].tally, s[j].tally))
      ensures s[i].key != s[j].key
    {
      if j < |x| {
        assert s[i] == x[i] && s[j] == x[j];
      } else if i >= |x| {
        assert s[i] == y[i - |x|] && s[j] == y[j - |x|];
      } else {
        assert s[i] in x && s[j] in y;
      }
    }
  }

  /** A sorted part of one tier is tier-ordered. */
  lemma OneTierOrdered(x: seq<Group<PopularityKey>>, t: PopularityTier)
    requires Sorted(ByRoi, x)
    requires forall g :: g in x ==> g.key.2 == t
    ensures TierOrdered(x)
  {
    forall i, j | 0 <= i < j < |x| ensures x[i].key.2 == x[j].key.2 {
      assert x[i] in x && x[j] in x;
    }
  }

  /**
   * What the popularity rollup is: ordered by tier and then ROI, one group
   * per key, each tallying exactly its own runs, and exactly the keys with
   * enough runs.
   */
  ghost predicate IsPopularityRollupOf(out: seq<Group<PopularityKey>>, db: Db, sinceYear: int, minRaces: int) {
    && TierOrdered(out)
    && KeysDistinct(out)
    && (forall g :: g in out ==>
         && g.tally == TallyOf(Select(Filter(db.runs, PopularityRows(sinceYear)), PopularityKeyOf, g.key))
         && g.tally.total >= minRaces
         && g.tally.total > 0)
    && (forall k :: HasKey(out, k) <==>
         |Select(Filter(db.runs, PopularityRows(sinceYear)), PopularityKeyOf, k)| > 0 &&
         |Select(Filter(db.runs, PopularityRows(sinceYear)), PopularityKeyOf, k)| >= minRaces)
  }

  /**
   * ROI per jockey and popularity tier over qualifying runs since
   * `sinceYear` that have a popularity, groups of at least `minRaces` runs,
   * ordered by tier label and then by rounded ROI; empty when the query fails.
   */
  function PopularityRoi(db: Db, sinceYear: int := 2000, minRaces: int := 20): (out: seq<Group<PopularityKey>>)
    ensures PopularityRoiQuery in db.failing ==> out == []
    ensures PopularityRoiQuery !in db.failing ==> IsPopularityRollupOf(out, db, sinceYear, minRaces)
  {
    if PopularityRoiQuery in db.failing then []
    else
      PopularityRoiAssembly(db, sinceYear, minRaces);
      TierPart(db, sinceYear, minRaces, MidPrice) + TierPart(db, sinceYear, minRaces, Favorite)
        + TierPart(db, sinceYear, minRaces, Longshot)
  }

  /** The three parts, mid-price, favourite and longshot, assemble into the popularity rollup. */
  lemma PopularityRoiAssembly(db: Db, sinceYear: int, minRaces: int)
    ensures IsPopularityRollupOf(
      TierPart(db, sinceYear, minRaces, MidPrice) + TierPart(db, sinceYear, minRaces, Favorite)
        + TierPart(db, sinceYear, minRaces, Longshot),
      db, sinceYear, minRaces)
  {
    var mid := TierPart(db, sinceYear, minRaces, MidPrice);
    var fav := TierPart(db, sinceYear, minRaces, Favorite);
    var long := TierPart(db, sinceYear, minRaces, Longshot);
    TierPartSpec(db, sinceYear, minRaces, MidPrice);
    TierPartSpec(db, sinceYear, minRaces, Favorite);
    TierPartSpec(db, sinceYear, minRaces, Longshot);
    OneTierOrdered(mid, MidPrice);
    OneTierOrdered(fav, Favorite);
    OneTierOrdered(long, Longshot);
    ConcatTierOrdered(mid, fav);
    ConcatTierOrdered(mid + fav, long);
    AssemblyKeys(db, sinceYear, minRaces);
  }

  /** The keys of the assembled parts are exactly the keys with enough runs. */
  lemma AssemblyKeys(db: Db, sinceYear: int, minRaces: int)
    ensures forall k :: HasKey(TierPart(db, sinceYear, minRaces, MidPrice) + TierPart(db, sinceYear, minRaces, Favorite)
        + TierPart(db, sinceYear, minRaces, Longshot), k) <==>
      |Select(Filter(db.runs, PopularityRows(sinceYear)), PopularityKeyOf, k)| > 0 &&
      |Select(Filter(db.runs, PopularityRows(sinceYear)), PopularityKeyOf, k)| >= minRaces
  {
    var mid := TierPart(db, sinceYear, minRaces, MidPrice);
    var fav := TierPart(db, sinceYear, minRaces, Favorite);
    var long := TierPart(db, sinceYear, minRaces, Longshot);
    TierPartSpec(db, sinceYear, minRaces, MidPrice);
    TierPartSpec(db, sinceYear, minRaces, Favorite);
    TierPartSpec(db, sinceYear, minRaces, Longshot);
    forall k: PopularityKey
      ensures HasKey(mid + fav + long, k) <==>
        |Select(Filter(db.runs, PopularityRows(sinceYear)), PopularityKeyOf, k)| > 0 &&
        |Select(Filter(db.runs, PopularityRows(sinceYear)), PopularityKeyOf, k)| >= minRaces
    {
      ThreePartKey(mid, fav, long, k);
    }
  }

  /** A key occurs in the concatenation of three tier parts exactly when it occurs in the part of its own tier. */
  lemma ThreePartKey(mid: seq<Group<PopularityKey>>, fav: seq<Group<PopularityKey>>, long: seq<Group<PopularityKey>>, k: PopularityKey)
    requires forall g :: g in mid ==> g.key.2 == MidPrice
    requires forall g :: g in fav ==> g.key.2 == Favorite
    requires forall g :: g in long ==> g.key.2 == Longshot
    ensures HasKey(mid + fav + long, k) <==>
      HasKey(match k.2 case MidPrice => mid case Favorite => fav case Longshot => long, k)
  {
    var out := mid + fav + long;
    var part := match k.2 case MidPrice => mid case Favorite => fav case Longshot => long;
    if HasKey(out, k) {
      var i :| 0 <= i < |out| && out[i].key == k;
      if i < |mid| {
        assert out[i] == mid[i] && mid[i] in mid;
      } else if i < |mid| + |fav| {
        assert out[i] == fav[i - |mid|] && fav[i - |mid|] in fav;
      } else {
        assert out[i] == long[i - |mid| - |fav|] && long[i - |mid| - |fav|] in long;
      }
    }
    if HasKey(part, k) {
      var i :| 0 <= i < |part| && part[i].key == k;
      match k.2
      case MidPrice => assert out[i] == mid[i];
      case Favorite => assert out[|mid| + i] == fav[i];
      case Longshot => assert out[|mid| + |fav| + i] == long[i];
    }
  }

  // ------------------------------------------------- surface condition ROI

  type SurfaceKey = (string, string, TrackType, Going)

  /** (jockey id, jockey name, surface, going of that surface). */
  function SurfaceKeyOf(r: Run): SurfaceKey {
    (r.jockeyId, r.jockeyName, TrackTypeOf(r.trackCode), GoingOf(r.trackCode, r.turfGoing, r.dirtGoing))
  }

  /**
   * ROI per jockey, surface and going over qualifying runs since
   * `sinceYear`, groups of at least `minRaces` runs, highest rounded ROI
   * first; empty when the query fails.
   */
  function SurfaceConditionRoi(db: Db, sinceYear: int := 2000, minRaces: int := 20): (out: seq<Group<SurfaceKey>>)
    ensures SurfaceConditionRoiQuery in db.failing ==> out == []
    ensures SurfaceConditionRoiQuery !in db.failing ==>
      IsRollupOf(out, db.runs, PeriodRows(sinceYear), SurfaceKeyOf, minRaces, ByRoi)
  {
    if SurfaceConditionRoiQuery in db.failing then []
    else
      RollupSpec(db.runs, PeriodRows(sinceYear), SurfaceKeyOf, minRaces, ByRoi);
      Rollup(db.runs, PeriodRows(sinceYear), SurfaceKeyOf, minRaces, ByRoi)
  }

  /** A known going only ever appears with turf or dirt, never with another surface. */
  lemma SurfaceConditionKnownGoing(db: Db, sinceYear: int, minRaces: int, g: Group<SurfaceKey>)
    requires g in SurfaceConditionRoi(db, sinceYear, minRaces)
    requires g.key.3 != UnknownGoing
    ensures g.key.2 == Turf || g.key.2 == Dirt
  {
    RollupWitness(db.runs, PeriodRows(sinceYear), SurfaceKeyOf, minRaces, ByRoi, g);
  }
  // --------------------------------------------------------- course feature

  type JockeyKey = (string, string)

  /** (jockey id, jockey name), the grouping of both aggregates of the course feature. */
  function JockeyKeyOf(r: Run): JockeyKey {
    (r.jockeyId, r.jockeyName)
  }

  /**
   * The jockey's qualifying runs on one course code, surface label and
   * distance band label, over all years.
   */
  function SegmentRows(jockeyId: string, courseCode: string, trackType: string, distanceCategory: string): Run -> bool {
    r => && Qualifies(r) && r.jockeyId == jockeyId && r.courseCode == courseCode
         && TrackTypeLabel(TrackTypeOf(r.trackCode)) == trackType
         && DistanceBandLabel(DistanceBandOf(r.distance)) == distanceCategory
  }

  /** All qualifying runs of the jockey, over all years. */
  function JockeyRows(jockeyId: string): Run -> bool {
    r => Qualifies(r) && r.jockeyId == jockeyId
  }

  /**
   * The feature record of one jockey under one course condition. A
   * measured record carries the segment statistics, the jockey's overall
   * statistics and the two ratios between them; the zero-filled record is
   * the fixed fallback returned when there is nothing to measure.
   */
  datatype CourseFeature =
    | Measured(
        jockeyId: string, jockeyName: string, courseName: string, trackType: string, distanceCategory: string,
        totalRaces: nat, wins: nat, top3Finishes: nat,
        winRate: Option<nat>, top3Rate: Option<nat>, roi: Option<nat>, avgWinOdds: Option<nat>,
        middleOddsWins: nat, longshotWins: nat,
        allTotalRaces: nat, allWinRate: Option<nat>, allRoi: Option<nat>,
        courseAptitudeIndex: Option<nat>, winRateRatio: Option<nat>)
    | ZeroFilled(
        jockeyId: string, jockeyName: string, courseName: string, trackType: string, distanceCategory: string,
        totalRaces: nat, wins: nat,
        winRate: Option<nat>, roi: Option<nat>, avgWinOdds: Option<nat>,
        courseAptitudeIndex: Option<nat>, winRateRatio: Option<nat>)

  /** The fallback record: the requested condition echoed, an empty name, zero counts and 0.0 rates. */
  function ZeroFeature(jockeyId: string, courseName: string, trackType: string, distanceCategory: string): CourseFeature {
    ZeroFilled(jockeyId, "", courseName, trackType, distanceCategory, 0, 0, Some(0), Some(0), Some(0), Some(0), Some(0))
  }

  /** The joined output row of one segment group and one overall group. */
  function Measure(seg: Group<JockeyKey>, all: Group<JockeyKey>, courseName: string, trackType: string, distanceCategory: string): CourseFeature
    requires seg.tally.wins <= seg.tally.total && all.tally.wins <= all.tally.total
  {
    var t := seg.tally;
    var a := all.tally;
    Measured(
      seg.key.0, seg.key.1, courseName, trackType, distanceCategory,
      t.total, t.wins, t.top3,
      WinRate(t), Top3Rate(t), Roi(t), AvgWinOdds(t),
      t.middleWins, t.longshotWins,
      a.total, WinRate(a), Roi(a),
      RatioOf(Roi(t), Roi(a)), RatioOf(WinRate(t), WinRate(a)))
  }

  /** The tally of the jockey's segment runs recorded under `name`. */
  function SegmentTally(db: Db, jockeyId: string, courseName: string, trackType: string, distanceCategory: string, name: string): Tally {
    TallyOf(Select(Filter(db.runs, SegmentRows(jockeyId, CourseCodeOf(courseName), trackType, distanceCategory)), JockeyKeyOf, (jockeyId, name)))
  }

  /** The tally of all the jockey's runs recorded under `name`. */
  function OverallTally(db: Db, jockeyId: string, name: string): Tally {
    TallyOf(Select(Filter(db.runs, JockeyRows(jockeyId)), JockeyKeyOf, (jockeyId, name)))
  }

  /**
   * The course feature of a jockey: the course name is turned into its
   * code (an unknown name is used as the code), the jockey's segment runs
   * and all runs are grouped by (id, name), and the first joined row is
   * returned; the zero-filled record when the query fails or the segment
   * is empty.
   */
  function JockeyCourseFeature(db: Db, jockeyId: string, courseName: string, trackType: string, distanceCategory: string): (f: CourseFeature)
    ensures f.jockeyId == jockeyId && f.courseName == courseName
    ensures f.trackType == trackType && f.distanceCategory == distanceCategory
    ensures f.ZeroFilled? <==>
      CourseFeatureQuery in db.failing ||
      Filter(db.runs, SegmentRows(jockeyId, CourseCodeOf(courseName), trackType, distanceCategory)) == []
    ensures f.ZeroFilled? ==> f == ZeroFeature(jockeyId, courseName, trackType, distanceCategory)
  {
    var code := CourseCodeOf(courseName);
    var segRows := Filter(db.runs, SegmentRows(jockeyId, code, trackType, distanceCategory));
    var allRows := Filter(db.runs, JockeyRows(jockeyId));
    var seg := GroupBy(segRows, JockeyKeyOf);
    var all := GroupBy(allRows, JockeyKeyOf);
    NonEmptyGroups(segRows, JockeyKeyOf);
    NonEmptyGroups(allRows, JockeyKeyOf);
    SegmentWithinJockey(db, jockeyId, code, trackType, distanceCategory);
    if CourseFeatureQuery in db.failing || seg == [] || all == [] then
      ZeroFeature(jockeyId, courseName, trackType, distanceCategory)
    else
      assert seg[0] in seg && all[0] in all;
      GroupOfJockey(segRows, jockeyId, seg[0]);
      Measure(seg[0], all[0], courseName, trackType, distanceCategory)
  }

  /**
   * A measured record reports the segment tally of the jockey under the
   * reported name, the overall tally under one of the jockey's names, and
   * the ratios of the reported rates.
   */
  lemma CourseFeatureStatistics(db: Db, jockeyId: string, courseName: string, trackType: string, distanceCategory: string)
    ensures var f := JockeyCourseFeature(db, jockeyId, courseName, trackType, distanceCategory);
      f.Measured? ==>
        var t := SegmentTally(db, jockeyId, courseName, trackType, distanceCategory, f.jockeyName);
        && f.totalRaces == t.total > 0
        && f.wins == t.wins && f.top3Finishes == t.top3
        && f.winRate == WinRate(t) && f.top3Rate == Top3Rate(t) && f.roi == Roi(t) && f.avgWinOdds == AvgWinOdds(t)
        && f.middleOddsWins == t.middleWins && f.longshotWins == t.longshotWins
        && f.courseAptitudeIndex == RatioOf(f.roi, f.allRoi)
        && f.winRateRatio == RatioOf(f.winRate, f.allWinRate)
        && (exists name :: OverallMatches(f, OverallTally(db, jockeyId, name)))
  {
    var f := JockeyCourseFeature(db, jockeyId, courseName, trackType, distanceCategory);
    if f.Measured? {
      var code := CourseCodeOf(courseName);
      var segRows := Filter(db.runs, SegmentRows(jockeyId, code, trackType, distanceCategory));
      var allRows := Filter(db.runs, JockeyRows(jockeyId));
      var seg := GroupBy(segRows, JockeyKeyOf);
      var all := GroupBy(allRows, JockeyKeyOf);
      NonEmptyGroups(segRows, JockeyKeyOf);
      NonEmptyGroups(allRows, JockeyKeyOf);
      SegmentWithinJockey(db, jockeyId, code, trackType, distanceCategory);
      assert seg != [] && all != [];
      assert seg[0] in seg && all[0] in all;
      GroupOfJockey(segRows, jockeyId, seg[0]);
      GroupOfJockey(allRows, jockeyId, all[0]);
      assert f == Measure(seg[0], all[0], courseName, trackType, distanceCategory);
      assert OverallMatches(f, OverallTally(db, jockeyId, all[0].key.1));
    }
  }

  /** The overall columns of `f` are those of the tally `a`, which is not empty. */
  predicate OverallMatches(f: CourseFeature, a: Tally)
    requires f.Measured?
  {
    a.total > 0 && a.wins <= a.total &&
    f.allTotalRaces == a.total && f.allWinRate == WinRate(a) && f.allRoi == Roi(a)
  }

  /** GROUP BY yields no group exactly when there are no rows. */
  lemma NonEmptyGroups<K(!new)>(rows: seq<Run>, key: Run -> K)
    ensures GroupBy(rows, key) == [] <==> rows == []
  {
    if rows != [] {
      assert rows[0] in Select(rows, key, key(rows[0]));
      var gs := GroupBy(rows, key);
      assert HasKey(gs, key(rows[0]));
    }
  }

  /** A segment run is one of the jockey's runs. */
  lemma SegmentWithinJockey(db: Db, jockeyId: string, code: string, trackType: string, distanceCategory: string)
    ensures Filter(db.runs, SegmentRows(jockeyId, code, trackType, distanceCategory)) != [] ==>
      Filter(db.runs, JockeyRows(jockeyId)) != []
  {
    var seg := Filter(db.runs, SegmentRows(jockeyId, code, trackType, distanceCategory));
    if seg != [] {
      assert seg[0] in seg;
      assert seg[0] in Filter(db.runs, JockeyRows(jockeyId));
    }
  }

  /** A group of rows that all belong to one jockey is keyed by that jockey. */
  lemma GroupOfJockey(rows: seq<Run>, jockeyId: string, g: Group<JockeyKey>)
    requires forall r :: r in rows ==> r.jockeyId == jockeyId
    requires g in GroupBy(rows, JockeyKeyOf)
    ensures g.key.0 == jockeyId
    ensures g.tally == TallyOf(Select(rows, JockeyKeyOf, (jockeyId, g.key.1)))
  {
    var s := Select(rows, JockeyKeyOf, g.key);
    assert s[0] in s;
  }

  /** Every qualifying run of the jockey carries the same name. */
  ghost predicate SingleName(db: Db, jockeyId: string) {
    forall r1, r2 ::
      (r1 in db.runs && r2 in db.runs && Qualifies(r1) && Qualifies(r2) && r1.jockeyId == jockeyId && r2.jockeyId == jockeyId)
      ==> r1.jockeyName == r2.jockeyName
  }

  /**
   * When the jockey's name is consistent, the overall figures the record
   * reports cover every qualifying run of the jockey, and the reported
   * segment is part of them.
   */
  lemma CourseFeatureWithinOverall(db: Db, jockeyId: string, courseName: string, trackType: string, distanceCategory: string)
    requires SingleName(db, jockeyId)
    ensures var f := JockeyCourseFeature(db, jockeyId, courseName, trackType, distanceCategory);
      f.Measured? ==> (
        && f.allTotalRaces == |Filter(db.runs, JockeyRows(jockeyId))|
        && f.allRoi == Roi(TallyOf(Filter(db.runs, JockeyRows(jockeyId))))
        && TallyLe(SegmentTally(db, jockeyId, courseName, trackType, distanceCategory, f.jockeyName),
                   OverallTally(db, jockeyId, f.jockeyName))
        && f.totalRaces <= f.allTotalRaces)
  {
    var f := JockeyCourseFeature(db, jockeyId, courseName, trackType, distanceCategory);
    if f.Measured? {
      var code := CourseCodeOf(courseName);
      var segP := SegmentRows(jockeyId, code, trackType, distanceCategory);
      var allP := JockeyRows(jockeyId);
      var allRows := Filter(db.runs, allP);
      var n := f.jockeyName;
      var k := (jockeyId, n);
      CourseFeatureStatistics(db, jockeyId, courseName, trackType, distanceCategory);
      var t := SegmentTally(db, jockeyId, courseName, trackType, distanceCategory, n);
      assert t.total > 0;
      var segSel := Select(Filter(db.runs, segP), JockeyKeyOf, k);
      assert segSel[0] in segSel;
      forall r | r in allRows ensures JockeyKeyOf(r) == k {
        assert r.jockeyName == segSel[0].jockeyName;
      }
      SelectAll(allRows, JockeyKeyOf, k);
      var name :| OverallMatches(f, OverallTally(db, jockeyId, name));
      var allSel := Select(allRows, JockeyKeyOf, (jockeyId, name));
      assert allSel[0] in allSel;
      assert name == n;
      SegmentWithinOverall(db, jockeyId, courseName, trackType, distanceCategory, n);
    }
  }

  /**
   * Under every name the jockey's runs are recorded with, the segment is
   * part of the overall figures: no segment counter exceeds its overall
   * counterpart.
   */
  lemma SegmentWithinOverall(db: Db, jockeyId: string, courseName: string, trackType: string, distanceCategory: string, name: string)
    ensures TallyLe(SegmentTally(db, jockeyId, courseName, trackType, distanceCategory, name), OverallTally(db, jockeyId, name))
  {
    var segP := SegmentRows(jockeyId, CourseCodeOf(courseName), trackType, distanceCategory);
    var allP := JockeyRows(jockeyId);
    var k := (jockeyId, name);
    SelectOfFilter(db.runs, segP, JockeyKeyOf, k);
    SelectOfFilter(db.runs, allP, JockeyKeyOf, k);
    TallyMonotone(db.runs, WhereKey(segP, JockeyKeyOf, k), WhereKey(allP, JockeyKeyOf, k));
  }
}
