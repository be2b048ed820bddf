/**
 * The abstract data source: race results, horse records, and which queries fail.
 */
module Records {
  import opened Wrappers

  /** Registration number used for an unknown sire or dam. */
  const UnknownAncestor: string := "0000000000"

  /** A known ancestor: not NULL and not the unknown-ancestor registration number. */
  predicate Known(id: Option<string>) {
    id.Some? && id.value != UnknownAncestor
  }

  /**
   * One runner in one race: an entry-table row joined with its race row.
   * The sire queries join it further with the horse record `horseId`.
   */
  datatype Run = Run(
    horseId: string,          // ketto_toroku_bango
    jockeyId: string,         // kishu_code
    jockeyName: string,       // kishumei_ryakusho
    year: int,                // kaisai_nen
    courseCode: string,       // keibajo_code
    trackCode: string,        // track_code
    turfGoing: string,        // babajotai_code_shiba
    dirtGoing: string,        // babajotai_code_dirt
    distance: int,            // kyori
    finishPos: string,        // kakutei_chakujun
    odds: Option<nat>,        // tansho_odds, in tenths (35 is odds of 3.5)
    popularity: Option<int>)  // tansho_ninkijun

  /** A horse record, keyed by registration number in `Db.horses`. */
  datatype Horse = Horse(
    name: Option<string>,     // bamei
    sireId: Option<string>,   // ketto_joho_01a
    sireName: Option<string>, // ketto_joho_01b
    damId: Option<string>,    // ketto_joho_02a
    damName: Option<string>)  // ketto_joho_02b

  /** The queries the feature generators issue; any of them may fail. */
  datatype Query =
    | CourseRoiQuery
    | PopularityRoiQuery
    | SurfaceConditionRoiQuery
    | CourseFeatureQuery
    | SireConditionRoiQuery
    | SireLookupQuery
    | SireStatsQuery
    | SireRankQuery
    | PedigreeQuery

  /** The database as the core sees it; `failing` names the queries that raise. */
  datatype Db = Db(runs: seq<Run>, horses: map<string, Horse>, failing: set<Query>)
}
