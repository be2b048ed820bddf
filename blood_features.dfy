/**
 * The sire features: the sire-by-surface-and-going ROI rollup, the ROI
 * ranking of sires under one race condition, and the sire feature of one
 * horse for a given surface and going.
 */
module BloodFeatures {
  import opened Wrappers
  import opened Records
  import opened Buckets
  import opened Aggregates

  // ------------------------------------------------------- joining horses

  /** The run joins with its horse record (an inner join on the registration number). */
  predicate Registered(horses: map<string, Horse>, r: Run) {
    r.horseId in horses
  }

  /** The sire id of the run's horse; NULL for an unregistered horse, which the join drops anyway. */
  function SireIdOf(horses: map<string, Horse>, r: Run): Option<string> {
    if r.horseId in horses then horses[r.horseId].sireId else None
  }

  function SireNameOf(horses: map<string, Horse>, r: Run): Option<string> {
    if r.horseId in horses then horses[r.horseId].sireName else None
  }

  // ----------------------------------------------------- sire condition ROI

  type SireConditionKey = (Option<string>, Option<string>, TrackType, Going)

  /** The qualifying runs since `sinceYear` of registered horses with a known sire. */
  function SireConditionRows(horses: map<string, Horse>, sinceYear: int): Run -> bool {
    r => Qualifies(r) && r.year >= sinceYear && Registered(horses, r) && Known(SireIdOf(horses, r))
  }

  /** (sire id, sire name, surface, going). */
  function SireConditionKeyOf(horses: map<string, Horse>): Run -> SireConditionKey {
    r => (SireIdOf(horses, r), SireNameOf(horses, r), TrackTypeOf(r.trackCode), GoingOf(r.trackCode, r.turfGoing, r.dirtGoing))
  }

  /**
   * ROI per sire, surface and going over qualifying runs since
   * `sinceYear`, groups of at least `minRaces` runs, highest rounded ROI
   * first; empty when the query fails.
   */
  function SireConditionRoi(db: Db, sinceYear: int := 2000, minRaces: int := 20): (out: seq<Group<SireConditionKey>>)
    ensures SireConditionRoiQuery in db.failing ==> out == []
    ensures SireConditionRoiQuery !in db.failing ==>
      IsRollupOf(out, db.runs, SireConditionRows(db.horses, sinceYear), SireConditionKeyOf(db.horses), minRaces, ByRoi)
  {
    if SireConditionRoiQuery in db.failing then []
    else
      RollupSpec(db.runs, SireConditionRows(db.horses, sinceYear), SireConditionKeyOf(db.horses), minRaces, ByRoi);
      Rollup(db.runs, SireConditionRows(db.horses, sinceYear), SireConditionKeyOf(db.horses), minRaces, ByRoi)
  }

  /** No group is keyed by an unknown or missing sire. */
  lemma SireConditionKnownSires(db: Db, sinceYear: int, minRaces: int, g: Group<SireConditionKey>)
    requires g in SireConditionRoi(db, sinceYear, minRaces)
    ensures Known(g.key.0)
  {
    RollupWitness(db.runs, SireConditionRows(db.horses, sinceYear), SireConditionKeyOf(db.horses), minRaces, ByRoi, g);
  }

  // ------------------------------------------------------------ sire ranking

  /** Sires need at least this many runs under the condition to be ranked. */
  const RankThreshold := 20

  /** The qualifying runs (all years) of registered horses under one surface label and going label. */
  function ConditionRows(horses: map<string, Horse>, trackType: string, condition: string): Run -> bool {
    r => && Qualifies(r) && Registered(horses, r)
         && TrackTypeLabel(TrackTypeOf(r.trackCode)) == trackType
         && GoingLabel(GoingOf(r.trackCode, r.turfGoing, r.dirtGoing)) == condition
  }

  function SireKeyOf(horses: map<string, Horse>): Run -> Option<string> {
    r => SireIdOf(horses, r)
  }

  /**
   * The ranking population: one group per sire id (a NULL id forms a
   * group too) with at least `RankThreshold` runs under the condition,
   * highest exact ROI first.
   */
  function SireRanking(db: Db, trackType: string, condition: string): seq<Group<Option<string>>> {
    Rollup(db.runs, ConditionRows(db.horses, trackType, condition), SireKeyOf(db.horses), RankThreshold, ByUnroundedRoi)
  }

  /** `ROW_NUMBER()` of the group keyed `k`: its position counted from 1, or 0 when there is none. */
  function RankOf<K(==)>(ranking: seq<Group<K>>, k: K): (rank: nat)
    ensures rank <= |ranking|
    ensures rank > 0 ==> ranking[rank - 1].key == k
    ensures forall i :: 0 <= i < |ranking| && (rank == 0 || i < rank - 1) ==> ranking[i].key != k
  {
    if ranking == [] then 0
    else if ranking[0].key == k then 1
    else
      var rest := RankOf(ranking[1..], k);
      if rest == 0 then 0 else rest + 1
  }

  /** `a` has an exact ROI at least that of `b`, both having runs. */
  predicate RoiAtLeast(a: Tally, b: Tally) {
    a.payout * b.total >= b.payout * a.total
  }

  /**
   * A sire is ranked exactly when it has at least `RankThreshold` runs
   * under the condition; its rank points at its own tally, every sire
   * ranked above it has an exact ROI at least its own and every sire
   * ranked below at most its own.
   */
  lemma RankSpec(db: Db, trackType: string, condition: string, sire: Option<string>)
    ensures var ranking := SireRanking(db, trackType, condition);
      var rank := RankOf(ranking, sire);
      var runs := Select(Filter(db.runs, ConditionRows(db.horses, trackType, condition)), SireKeyOf(db.horses), sire);
      && (rank > 0 <==> |runs| >= RankThreshold)
      && (rank > 0 ==> ranking[rank - 1].tally == TallyOf(runs))
      && (rank > 0 ==> forall i :: 0 <= i < |ranking| ==>
            (i < rank - 1 ==> RoiAtLeast(ranking[i].tally, ranking[rank - 1].tally)) &&
            (i > rank - 1 ==> RoiAtLeast(ranking[rank - 1].tally, ranking[i].tally)))
  {
    var ranking := SireRanking(db, trackType, condition);
    var rank := RankOf(ranking, sire);
    RollupSpec(db.runs, ConditionRows(db.horses, trackType, condition), SireKeyOf(db.horses), RankThreshold, ByUnroundedRoi);
    if rank > 0 {
      assert ranking[rank - 1] in ranking;
      forall i | 0 <= i < |ranking|
        ensures i < rank - 1 ==> RoiAtLeast(ranking[i].tally, ranking[rank - 1].tally)
        ensures i > rank - 1 ==> RoiAtLeast(ranking[rank - 1].tally, ranking[i].tally)
      {
        assert ranking[i] in ranking;
      }
    } else {
      assert !HasKey(ranking, sire);
    }
  }

  /**
   * Ranks cover 1 to the size of the population: the sire at position `i`
   * has rank `i + 1`, so distinct ranked sires have distinct ranks.
   */
  lemma RankCovers(db: Db, trackType: string, condition: string, i: nat)
    requires i < |SireRanking(db, trackType, condition)|
    ensures RankOf(SireRanking(db, trackType, condition), SireRanking(db, trackType, condition)[i].key) == i + 1
  {
    RollupSpec(db.runs, ConditionRows(db.horses, trackType, condition), SireKeyOf(db.horses), RankThreshold, ByUnroundedRoi);
  }

  // --------------------------------------------------- horse sire feature

  /** The sire feature of a horse under one surface and going. */
  datatype SireFeature = SireFeature(
    sireName: Option<string>,  // sire_name
    roi: Option<nat>,          // sire_track_roi, in hundredths
    winRate: Option<nat>,      // sire_track_win_rate, in hundredths
    races: nat,                // sire_track_races
    rank: nat)                 // sire_track_roi_rank, 0 when unranked

  /** The fallback record: no sire name, 0.0 rates, no races, no rank. */
  const NoSireFeature := SireFeature(None, Some(0), Some(0), 0, 0)

  /** The text a sire id becomes inside the query: the id itself, or 'None' for a NULL id. */
  function SireIdLiteral(id: Option<string>): string {
    match id
    case Some(s) => s
    case None => "None"
  }

  /**
   * A horse with a NULL sire id queries the sire 'None', which no horse
   * records: its feature then counts no run, has NULL ROI and win rate, and
   * is unranked.
   */
  lemma NullSireCountsNothing(db: Db, horseId: string, raceTrackType: string, raceCondition: string)
    requires horseId in db.horses && db.horses[horseId].sireId.None?
    requires forall id :: id in db.horses ==> db.horses[id].sireId != Some("None")
    ensures var f := HorseSireTrackRoiFeature(db, horseId, raceTrackType, raceCondition);
      f != NoSireFeature ==> f.races == 0 && f.roi.None? && f.winRate.None? && f.rank == 0
  {
    FilterNone(db.runs, SireStatsRows(db.horses, "None", raceTrackType, raceCondition));
    SireRankedIffEnoughRuns(db, "None", raceTrackType, raceCondition);
  }

  /** The runs of the stats query: qualifying, all years, sire id equal to `sire`, surface and going labels as given. */
  function SireStatsRows(horses: map<string, Horse>, sire: string, trackType: string, condition: string): Run -> bool {
    r => && Qualifies(r) && Registered(horses, r) && SireIdOf(horses, r) == Some(sire)
         && TrackTypeLabel(TrackTypeOf(r.trackCode)) == trackType
         && GoingLabel(GoingOf(r.trackCode, r.turfGoing, r.dirtGoing)) == condition
  }

  /**
   * Looks up the horse's sire, tallies the sire's runs under the race's
   * surface and going, and ranks the sire among all sires with enough runs
   * there. The fallback record when the horse is unknown or the lookup or
   * stats query fails; rank 0 when the rank query fails.
   */
  function HorseSireTrackRoiFeature(db: Db, horseId: string, raceTrackType: string, raceCondition: string): (f: SireFeature)
    ensures f == NoSireFeature <==>
      SireLookupQuery in db.failing || horseId !in db.horses || SireStatsQuery in db.failing
    ensures f != NoSireFeature ==>
      var sire := SireIdLiteral(db.horses[horseId].sireId);
      var t := TallyOf(Filter(db.runs, SireStatsRows(db.horses, sire, raceTrackType, raceCondition)));
      && f.sireName == db.horses[horseId].sireName
      && f.races == t.total
      && f.roi == Roi(t) && f.winRate == WinRate(t)
      && (f.roi.None? <==> f.races == 0)
      && (SireRankQuery in db.failing ==> f.rank == 0)
      && (SireRankQuery !in db.failing ==> f.rank == RankOf(SireRanking(db, raceTrackType, raceCondition), Some(sire)))
  {
    if SireLookupQuery in db.failing || horseId !in db.horses || SireStatsQuery in db.failing then NoSireFeature
    else
      var horse := db.horses[horseId];
      var sire := SireIdLiteral(horse.sireId);
      var t := TallyOf(Filter(db.runs, SireStatsRows(db.horses, sire, raceTrackType, raceCondition)));
      var rank := if SireRankQuery in db.failing then 0 else RankOf(SireRanking(db, raceTrackType, raceCondition), Some(sire));
      SireFeature(horse.sireName, Roi(t), WinRate(t), t.total, rank)
  }

  /** The stats runs of a sire are exactly its group in the ranking population. */
  lemma StatsRunsAreRankGroup(db: Db, sire: string, trackType: string, condition: string)
    ensures Filter(db.runs, SireStatsRows(db.horses, sire, trackType, condition))
         == Select(Filter(db.runs, ConditionRows(db.horses, trackType, condition)), SireKeyOf(db.horses), Some(sire))
  {
    SelectOfFilter(db.runs, ConditionRows(db.horses, trackType, condition), SireKeyOf(db.horses), Some(sire));
    FilterAgree(db.runs, SireStatsRows(db.horses, sire, trackType, condition),
                WhereKey(ConditionRows(db.horses, trackType, condition), SireKeyOf(db.horses), Some(sire)));
  }

  /**
   * When the rank query succeeds, the horse's sire is ranked exactly when
   * the feature counts at least `RankThreshold` runs, and then its rank
   * group has the feature's run count.
   */
  lemma FeatureRankedIffEnoughRuns(db: Db, horseId: string, raceTrackType: string, raceCondition: string)
    requires SireRankQuery !in db.failing
    ensures var f := HorseSireTrackRoiFeature(db, horseId, raceTrackType, raceCondition);
      f != NoSireFeature ==>
        && (f.rank > 0 <==> f.races >= RankThreshold)
        && (f.rank > 0 ==> SireRanking(db, raceTrackType, raceCondition)[f.rank - 1].tally.total == f.races)
  {
    var f := HorseSireTrackRoiFeature(db, horseId, raceTrackType, raceCondition);
    if f != NoSireFeature {
      FeatureCounts(db, horseId, raceTrackType, raceCondition);
      SireRankedIffEnoughRuns(db, SireIdLiteral(db.horses[horseId].sireId), raceTrackType, raceCondition);
    }
  }

  /** A measured feature counts the runs of its sire's stats query and carries that sire's rank. */
  lemma FeatureCounts(db: Db, horseId: string, raceTrackType: string, raceCondition: string)
    requires SireRankQuery !in db.failing
    requires HorseSireTrackRoiFeature(db, horseId, raceTrackType, raceCondition) != NoSireFeature
    ensures horseId in db.horses
    ensures var f := HorseSireTrackRoiFeature(db, horseId, raceTrackType, raceCondition);
      var sire := SireIdLiteral(db.horses[horseId].sireId);
      && f.races == |Filter(db.runs, SireStatsRows(db.horses, sire, raceTrackType, raceCondition))|
      && f.rank == RankOf(SireRanking(db, raceTrackType, raceCondition), Some(sire))
  {
    var sire := SireIdLiteral(db.horses[horseId].sireId);
    var rows := Filter(db.runs, SireStatsRows(db.horses, sire, raceTrackType, raceCondition));
    assert TallyOf(rows).total == |rows|;
  }

  /** A sire's rank is non-zero exactly when its stats query counts at least `RankThreshold` runs, and its group has that count. */
  lemma SireRankedIffEnoughRuns(db: Db, sire: string, trackType: string, condition: string)
    ensures var ranking := SireRanking(db, trackType, condition);
      var rank := RankOf(ranking, Some(sire));
      var n := |Filter(db.runs, SireStatsRows(db.horses, sire, trackType, condition))|;
      && (rank > 0 <==> n >= RankThreshold)
      && (rank > 0 ==> ranking[rank - 1].tally.total == n)
  {
    StatsRunsAreRankGroup(db, sire, trackType, condition);
    RankSpec(db, trackType, condition, Some(sire));
  }
}
