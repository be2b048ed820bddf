/**
 * The segment aggregator shared by every rollup: which runs count, the
 * per-group tallies (COUNT, COUNT FILTER, SUM), exact rounding of rates,
 * GROUP BY, HAVING and ORDER BY.
 *
 * Percentages are integer hundredths (12345 is 123.45 %), odds are tenths.
 */
module Aggregates {
  import opened Wrappers
  import opened Records

  // ------------------------------------------------------- qualifying runs

  predicate IsDigit(c: char) {
    '0' <= c <= '9'
  }

  /**
   * A run counts towards an aggregate when its finish position matches
   * `^[0-9]+$`, is neither '00' nor '99', and it has win odds.
   */
  predicate Qualifies(r: Run) {
    && |r.finishPos| > 0
    && (forall i :: 0 <= i < |r.finishPos| ==> IsDigit(r.finishPos[i]))
    && r.finishPos != "00"
    && r.finishPos != "99"
    && r.odds.Some?
  }

  predicate IsWin(r: Run) {
    r.finishPos == "01"
  }

  predicate IsTop3(r: Run) {
    r.finishPos == "01" || r.finishPos == "02" || r.finishPos == "03"
  }

  /** `popularity >= lo` for a non-null popularity (a NULL comparison is false). */
  predicate PopularityAtLeast(r: Run, lo: int) {
    r.popularity.Some? && r.popularity.value >= lo
  }

  // ---------------------------------------------------------------- tallies

  /**
   * The counters of one group: COUNT(*), the wins and top-3 finishes, the
   * winners' odds summed in tenths (losers pay 0), and the wins split by
   * popularity (4-8, 9 and above, 4 and above).
   */
  datatype Tally = Tally(
    total: nat,
    wins: nat,
    top3: nat,
    payout: nat,
    middleWins: nat,
    longshotWins: nat,
    nonFavoriteWins: nat)

  function Indicator(b: bool): nat {
    if b then 1 else 0
  }

  /** The tally of one run. */
  function TallyOne(r: Run): Tally {
    var win := IsWin(r);
    Tally(
      1,
      Indicator(win),
      Indicator(IsTop3(r)),
      if win && r.odds.Some? then r.odds.value else 0,
      Indicator(win && PopularityAtLeast(r, 4) && r.popularity.value <= 8),
      Indicator(win && PopularityAtLeast(r, 9)),
      Indicator(win && PopularityAtLeast(r, 4)))
  }

  function AddTally(a: Tally, b: Tally): Tally {
    Tally(a.total + b.total, a.wins + b.wins, a.top3 + b.top3, a.payout + b.payout,
          a.middleWins + b.middleWins, a.longshotWins + b.longshotWins,
          a.nonFavoriteWins + b.nonFavoriteWins)
  }

  /** The aggregate counters of a set of runs. */
  function TallyOf(rows: seq<Run>): (t: Tally)
    ensures t.total == |rows|
    ensures t.wins <= t.top3 <= t.total
    ensures t.middleWins + t.longshotWins <= t.nonFavoriteWins <= t.wins
    ensures t.wins == 0 ==> t.payout == 0
  {
    if rows == [] then Tally(0, 0, 0, 0, 0, 0, 0)
    else AddTally(TallyOne(rows[0]), TallyOf(rows[1..]))
  }

  /** Every counter of `a` is at most the matching counter of `b`. */
  predicate TallyLe(a: Tally, b: Tally) {
    && a.total <= b.total && a.wins <= b.wins && a.top3 <= b.top3 && a.payout <= b.payout
    && a.middleWins <= b.middleWins && a.longshotWins <= b.longshotWins
    && a.nonFavoriteWins <= b.nonFavoriteWins
  }

  // ---------------------------------------------------------- exact rounding

  /**
   * `ROUND(num / den)` for non-negative exact values: the nearest integer,
   * with a half rounded up (away from zero), as PostgreSQL rounds NUMERIC.
   */
  function RoundedRatio(num: nat, den: nat): (q: nat)
    requires den > 0
    ensures den * (2 * q) <= 2 * num + den < den * (2 * q) + 2 * den
  {
    var q := (2 * num + den) / (2 * den);
    assert 2 * num + den == (2 * den) * q + (2 * num + den) % (2 * den);
    q
  }

  lemma MulNonPositive(k: nat, d: int)
    ensures d <= 0 ==> k * d <= 0
  {
  }

  lemma CancelStrict(k: nat, x: int, y: int)
    requires k > 0 && k * x < k * y
    ensures x < y
  {
    MulNonPositive(k, y - x);
    assert k * (y - x) == k * y - k * x;
  }

  /** A ratio of at most `m` rounds to at most `m`. */
  lemma RoundedRatioAtMost(num: nat, den: nat, m: nat)
    requires den > 0 && num <= m * den
    ensures RoundedRatio(num, den) <= m
  {
    var q := RoundedRatio(num, den);
    assert den * (2 * q) < den * (2 * m + 2);
    CancelStrict(den, 2 * q, 2 * m + 2);
  }

  /** `round(wins * 100 / total, 2)` in hundredths; NULL when there are no runs (NULLIF). */
  function WinRate(t: Tally): (rate: Option<nat>)
    requires t.wins <= t.total
    ensures rate.None? <==> t.total == 0
    ensures rate.Some? ==> rate.value <= 10000
    ensures rate.Some? ==> t.total * (2 * rate.value) <= 20000 * t.wins + t.total < t.total * (2 * rate.value) + 2 * t.total
  {
    if t.total == 0 then None
    else
      RoundedRatioAtMost(10000 * t.wins, t.total, 10000);
      Some(RoundedRatio(10000 * t.wins, t.total))
  }

  /** `round(top3 * 100 / total, 2)` in hundredths; NULL when there are no runs. */
  function Top3Rate(t: Tally): (rate: Option<nat>)
    ensures rate.None? <==> t.total == 0
    ensures rate.Some? ==> t.total * (2 * rate.value) <= 20000 * t.top3 + t.total < t.total * (2 * rate.value) + 2 * t.total
  {
    if t.total == 0 then None else Some(RoundedRatio(10000 * t.top3, t.total))
  }

  /**
   * `round(SUM(winner odds) / total * 100, 2)` in hundredths: with odds in
   * tenths the exact ROI in hundredths is 1000 * payout / total.
   */
  function Roi(t: Tally): (roi: Option<nat>)
    ensures roi.None? <==> t.total == 0
    ensures roi.Some? ==> t.total * (2 * roi.value) <= 2000 * t.payout + t.total < t.total * (2 * roi.value) + 2 * t.total
  {
    if t.total == 0 then None else Some(RoundedRatio(1000 * t.payout, t.total))
  }

  /** `round(AVG(odds of winners), 2)` in hundredths; NULL when nobody won. */
  function AvgWinOdds(t: Tally): (avg: Option<nat>)
    ensures avg.None? <==> t.wins == 0
    ensures avg.Some? ==> t.wins * (2 * avg.value) <= 20 * t.payout + t.wins < t.wins * (2 * avg.value) + 2 * t.wins
  {
    if t.wins == 0 then None else Some(RoundedRatio(10 * t.payout, t.wins))
  }

  /**
   * `ROUND(a / NULLIF(b, 0), 2)` on two values already rounded to
   * hundredths: NULL when either is NULL or `b` is 0.
   */
  function RatioOf(a: Option<nat>, b: Option<nat>): (r: Option<nat>)
    ensures r.None? <==> a.None? || b.None? || b.value == 0
    ensures r.Some? ==> b.value * (2 * r.value) <= 200 * a.value + b.value < b.value * (2 * r.value) + 2 * b.value
  {
    if a.None? || b.None? || b.value == 0 then None
    else Some(RoundedRatio(100 * a.value, b.value))
  }

  /** The worked example: 25 runs with 10 wins at odds 3.0 give 40.00 % wins and 120.00 % ROI. */
  lemma WorkedExample(t: Tally)
    requires t.total == 25 && t.wins == 10 && t.payout == 10 * 30
    ensures WinRate(t) == Some(4000) && Roi(t) == Some(12000)
  {
  }

  // ------------------------------------------------------ filter and select

  /** The runs satisfying a WHERE clause, in order, each as often as it occurs. */
  function Filter(rows: seq<Run>, p: Run -> bool): (s: seq<Run>)
    ensures |s| <= |rows|
    ensures forall r :: r in s <==> r in rows && p(r)
  {
    if rows == [] then []
    else if p(rows[0]) then [rows[0]] + Filter(rows[1..], p)
    else Filter(rows[1..], p)
  }

  /** Filtering keeps every satisfying run as many times as it occurs, so COUNT(*) counts duplicate rows. */
  lemma {:induction false} FilterMultiplicity(rows: seq<Run>, p: Run -> bool)
    ensures forall r :: multiset(Filter(rows, p))[r] == if p(r) then multiset(rows)[r] else 0
  {
    if rows != [] {
      assert rows == [rows[0]] + rows[1..];
      FilterMultiplicity(rows[1..], p);
    }
  }

  /** A WHERE clause no run satisfies selects nothing. */
  lemma {:induction false} FilterNone(rows: seq<Run>, p: Run -> bool)
    requires forall r :: r in rows ==> !p(r)
    ensures Filter(rows, p) == []
  {
    if rows != [] {
      assert rows[0] in rows;
      FilterNone(rows[1..], p);
    }
  }

  /** The runs of one group: those whose grouping key is `k`, each as often as it occurs. */
  function Select<K(==,!new)>(rows: seq<Run>, key: Run -> K, k: K): (s: seq<Run>)
    ensures |s| <= |rows|
    ensures forall r :: r in s <==> r in rows && key(r) == k
  {
    if rows == [] then []
    else if key(rows[0]) == k then [rows[0]] + Select(rows[1..], key, k)
    else Select(rows[1..], key, k)
  }

  /** One group holds every run with its key as many times as it occurs. */
  lemma {:induction false} SelectMultiplicity<K(!new)>(rows: seq<Run>, key: Run -> K, k: K)
    ensures forall r :: multiset(Select(rows, key, k))[r] == if key(r) == k then multiset(rows)[r] else 0
  {
    if rows != [] {
      assert rows == [rows[0]] + rows[1..];
      SelectMultiplicity(rows[1..], key, k);
    }
  }

  /** Filtering by a weaker condition never loses a run, so every counter can only grow. */
  lemma {:induction false} TallyMonotone(rows: seq<Run>, p: Run -> bool, q: Run -> bool)
    requires forall r :: p(r) ==> q(r)
    ensures TallyLe(TallyOf(Filter(rows, p)), TallyOf(Filter(rows, q)))
  {
    if rows != [] {
      TallyMonotone(rows[1..], p, q);
    }
  }

  // ---------------------------------------------------------------- GROUP BY

  /** The distinct grouping keys that occur in `rows`. */
  function DistinctKeys<K(==,!new)>(rows: seq<Run>, key: Run -> K): (ks: seq<K>)
    ensures forall i, j :: 0 <= i < j < |ks| ==> ks[i] != ks[j]
    ensures forall k :: k in ks <==> |Select(rows, key, k)| > 0
  {
    if rows == [] then []
    else
      var rest := DistinctKeys(rows[1..], key);
      if key(rows[0]) in rest then rest else [key(rows[0])] + rest
  }

  /** One output row of a grouped query, before its rates are derived. */
  datatype Group<K> = Group(key: K, tally: Tally)

  ghost predicate HasKey<K(!new)>(gs: seq<Group<K>>, k: K) {
    exists i :: 0 <= i < |gs| && gs[i].key == k
  }

  ghost predicate KeysDistinct<K(!new)>(gs: seq<Group<K>>) {
    forall i, j :: 0 <= i < j < |gs| ==> gs[i].key != gs[j].key
  }

  /** `GROUP BY key`: one group per key that occurs, tallying exactly the runs with that key. */
  function GroupBy<K(==,!new)>(rows: seq<Run>, key: Run -> K): (gs: seq<Group<K>>)
    ensures KeysDistinct(gs)
    ensures forall g :: g in gs ==> g.tally == TallyOf(Select(rows, key, g.key)) && g.tally.total > 0
    ensures forall k :: HasKey(gs, k) <==> |Select(rows, key, k)| > 0
  {
    var ks := DistinctKeys(rows, key);
    var gs := seq(|ks|, i requires 0 <= i < |ks| => Group(ks[i], TallyOf(Select(rows, key, ks[i]))));
    GroupsOfKeys(rows, key, ks, gs);
    gs
  }

  /** The groups built from a list of keys carry exactly those keys, each with its own tally. */
  lemma GroupsOfKeys<K(!new)>(rows: seq<Run>, key: Run -> K, ks: seq<K>, gs: seq<Group<K>>)
    requires |gs| == |ks|
    requires forall i :: 0 <= i < |ks| ==> gs[i] == Group(ks[i], TallyOf(Select(rows, key, ks[i])))
    ensures forall k :: HasKey(gs, k) <==> k in ks
    ensures (forall i, j :: 0 <= i < j < |ks| ==> ks[i] != ks[j]) ==> KeysDistinct(gs)
    ensures forall g :: g in gs ==> g.key in ks && g.tally == TallyOf(Select(rows, key, g.key))
  {
    forall k | k in ks ensures HasKey(gs, k) {
      var i :| 0 <= i < |ks| && ks[i] == k;
      assert gs[i].key == k;
    }
  }

  /** `HAVING COUNT(*) >= minRaces`, keeping the order of the groups. */
  function Having<K(==,!new)>(gs: seq<Group<K>>, minRaces: int): (r: seq<Group<K>>)
    ensures forall g :: g in r <==> g in gs && g.tally.total >= minRaces
    ensures KeysDistinct(gs) ==> KeysDistinct(r)
  {
    if gs == [] then []
    else if gs[0].tally.total >= minRaces then [gs[0]] + Having(gs[1..], minRaces)
    else Having(gs[1..], minRaces)
  }


  // ---------------------------------------------------------------- ORDER BY

  /** The two orderings the queries use, both descending. */
  datatype Order =
    | ByRoi           // ORDER BY roi_percentage DESC: the rounded ROI
    | ByUnroundedRoi  // ORDER BY SUM(...) / NULLIF(COUNT(*), 0) DESC: the exact ROI

  /**
   * May `a` come before `b`? A NULL ROI (no runs) sorts first, as
   * PostgreSQL sorts NULL first in a descending order.
   */
  predicate Before(o: Order, a: Tally, b: Tally) {
    if a.total == 0 then true
    else if b.total == 0 then false
    else match o
      case ByRoi => Roi(a).value >= Roi(b).value
      case ByUnroundedRoi => a.payout * b.total >= b.payout * a.total
  }

  lemma BeforeTotal(o: Order, a: Tally, b: Tally)
    ensures Before(o, a, b) || Before(o, b, a)
  {
  }

  lemma MulMonotone(x: int, y: int, k: nat)
    requires x <= y
    ensures x * k <= y * k
  {
  }

  lemma CancelPositive(k: nat, x: int, y: int)
    requires k > 0 && k * x >= k * y
    ensures x >= y
  {
    assert k * (x + 1) == k * x + k;
    CancelStrict(k, y, x + 1);
  }

  lemma BeforeTransitive(o: Order, a: Tally, b: Tally, c: Tally)
    requires Before(o, a, b) && Before(o, b, c)
    ensures Before(o, a, c)
  {
    if o == ByUnroundedRoi && a.total > 0 && b.total > 0 && c.total > 0 {
      // scale a.p * b.n >= b.p * a.n by c.n and b.p * c.n >= c.p * b.n by a.n, then cancel b.n
      MulMonotone(b.payout * a.total, a.payout * b.total, c.total);
      MulMonotone(c.payout * b.total, b.payout * c.total, a.total);
      assert b.total * (a.payout * c.total) >= b.total * (c.payout * a.total);
      CancelPositive(b.total, a.payout * c.total, c.payout * a.total);
    }
  }

  predicate Sorted<K>(o: Order, s: seq<Group<K>>) {
    forall i, j :: 0 <= i < j < |s| ==> Before(o, s[i].tally, s[j].tally)
  }

  /** Insert `g` before the first group it may precede. */
  function Insert<K>(o: Order, g: Group<K>, s: seq<Group<K>>): (r: seq<Group<K>>)
    ensures multiset(r) == multiset(s) + multiset{g}
  {
    if s == [] then [g]
    else if Before(o, g.tally, s[0].tally) then [g] + s
    else
      assert s == [s[0]] + s[1..];
      [s[0]] + Insert(o, g, s[1..])
  }

  lemma {:induction false} InsertSorted<K>(o: Order, g: Group<K>, s: seq<Group<K>>)
    requires Sorted(o, s)
    ensures Sorted(o, Insert(o, g, s))
  {
    if s == [] {
    } else if Before(o, g.tally, s[0].tally) {
      forall x | x in s ensures Before(o, g.tally, x.tally) {
        var j :| 0 <= j < |s| && s[j] == x;
        if j > 0 {
          BeforeTransitive(o, g.tally, s[0].tally, s[j].tally);
        }
      }
      ConsSorted(o, g, s);
    } else {
      var rest := Insert(o, g, s[1..]);
      InsertSorted(o, g, s[1..]);
      BeforeTotal(o, g.tally, s[0].tally);
      forall x | x in rest ensures Before(o, s[0].tally, x.tally) {
        assert x in multiset(rest);
        if x != g {
          assert x in s[1..];
          var k :| 0 <= k < |s[1..]| && s[1..][k] == x;
          assert s[k + 1] == x;
        }
      }
      assert Sorted(o, s[1..]) by {
        forall i, j | 0 <= i < j < |s[1..]| ensures Before(o, s[1..][i].tally, s[1..][j].tally) {
          assert s[1..][i] == s[i + 1] && s[1..][j] == s[j + 1];
        }
      }
      ConsSorted(o, s[0], rest);
    }
  }

  /** A group that may precede every group of a sorted sequence may head it. */
  lemma ConsSorted<K>(o: Order, g: Group<K>, s: seq<Group<K>>)
    requires Sorted(o, s)
    requires forall x :: x in s ==> Before(o, g.tally, x.tally)
    ensures Sorted(o, [g] + s)
  {
    var r := [g] + s;
    forall i, j | 0 <= i < j < |r| ensures Before(o, r[i].tally, r[j].tally) {
      if i > 0 {
        assert r[i] == s[i - 1] && r[j] == s[j - 1];
      } else {
        assert r[j] == s[j - 1];
      }
    }
  }

  lemma {:induction false} InsertDistinct<K(!new)>(o: Order, g: Group<K>, s: seq<Group<K>>)
    requires KeysDistinct(s)
    requires forall x :: x in s ==> x.key != g.key
    ensures KeysDistinct(Insert(o, g, s))
  {
    if s != [] && !Before(o, g.tally, s[0].tally) {
      var rest := Insert(o, g, s[1..]);
      InsertDistinct(o, g, s[1..]);
      forall j | 0 <= j < |rest| ensures s[0].key != rest[j].key {
        assert rest[j] in multiset(rest);
        if rest[j] != g {
          assert rest[j] in s[1..];
          var k :| 0 <= k < |s[1..]| && s[1..][k] == rest[j];
          assert s[k + 1] == rest[j];
        }
      }
      var r := [s[0]] + rest;
      forall i, j | 0 <= i < j < |r| ensures r[i].key != r[j].key {
        if i > 0 {
          assert r[i] == rest[i - 1] && r[j] == rest[j - 1];
        }
      }
    } else if s != [] {
      forall i, j | 0 <= i < j < |s| + 1 ensures ([g] + s)[i].key != ([g] + s)[j].key {
        if i == 0 {
          assert ([g] + s)[j] == s[j - 1];
        }
      }
    }
  }

  /** An insertion sort: the query's ORDER BY, with ties kept in one deterministic order. */
  function SortBy<K>(o: Order, s: seq<Group<K>>): (r: seq<Group<K>>)
    ensures multiset(r) == multiset(s)
  {
    if s == [] then []
    else
      assert s == [s[0]] + s[1..];
      Insert(o, s[0], SortBy(o, s[1..]))
  }

  lemma {:induction false} SortBySorted<K>(o: Order, s: seq<Group<K>>)
    ensures Sorted(o, SortBy(o, s))
  {
    if s != [] {
      SortBySorted(o, s[1..]);
      InsertSorted(o, s[0], SortBy(o, s[1..]));
    }
  }

  lemma {:induction false} SortByDistinct<K(!new)>(o: Order, s: seq<Group<K>>)
    requires KeysDistinct(s)
    ensures KeysDistinct(SortBy(o, s))
  {
    if s != [] {
      var rest := SortBy(o, s[1..]);
      SortByDistinct(o, s[1..]);
      forall x | x in rest ensures x.key != s[0].key {
        assert x in multiset(rest);
        assert x in s[1..];
        var k :| 0 <= k < |s[1..]| && s[1..][k] == x;
        assert s[k + 1] == x;
      }
      InsertDistinct(o, s[0], rest);
    }
  }

  lemma SortByMembers<K>(o: Order, s: seq<Group<K>>)
    ensures forall g :: g in SortBy(o, s) <==> g in s
  {
    var r := SortBy(o, s);
    forall g ensures g in r <==> g in s {
      assert g in r <==> g in multiset(r);
      assert g in s <==> g in multiset(s);
    }
  }

  // ----------------------------------------------------------------- rollup

  /**
   * `SELECT ... FROM (rows WHERE where) GROUP BY key HAVING COUNT(*) >= minRaces ORDER BY o`.
   */
  function Rollup<K(==,!new)>(rows: seq<Run>, where: Run -> bool, key: Run -> K, minRaces: int, o: Order): seq<Group<K>> {
    SortBy(o, Having(GroupBy(Filter(rows, where), key), minRaces))
  }

  /**
   * What a rollup output is: in order, one group per key, each tallying
   * exactly its own runs, and exactly the keys with enough runs.
   */
  ghost predicate IsRollupOf<K(!new)>(out: seq<Group<K>>, rows: seq<Run>, where: Run -> bool, key: Run -> K, minRaces: int, o: Order) {
    && Sorted(o, out)
    && KeysDistinct(out)
    && (forall g :: g in out ==>
         && g.tally == TallyOf(Select(Filter(rows, where), key, g.key))
         && g.tally.total >= minRaces
         && g.tally.total > 0)
    && (forall k :: HasKey(out, k) <==>
         |Select(Filter(rows, where), key, k)| > 0 && |Select(Filter(rows, where), key, k)| >= minRaces)
  }

  /**
   * The rollup holds exactly the keys with at least `minRaces` (and at
   * least one) qualifying runs, once each, each tallying exactly its own
   * runs, in the requested order.
   */
  lemma RollupSpec<K(!new)>(rows: seq<Run>, where: Run -> bool, key: Run -> K, minRaces: int, o: Order)
    ensures IsRollupOf(Rollup(rows, where, key, minRaces, o), rows, where, key, minRaces, o)
  {
    var kept := Having(GroupBy(Filter(rows, where), key), minRaces);
    SortBySorted(o, kept);
    SortByDistinct(o, kept);
    SortByMembers(o, kept);
    RollupKeys(rows, where, key, minRaces, o);
  }

  /** The keys of a rollup are exactly those with at least `minRaces` (and at least one) runs. */
  lemma RollupKeys<K(!new)>(rows: seq<Run>, where: Run -> bool, key: Run -> K, minRaces: int, o: Order)
    ensures forall k :: HasKey(Rollup(rows, where, key, minRaces, o), k) <==>
      |Select(Filter(rows, where), key, k)| > 0 && |Select(Filter(rows, where), key, k)| >= minRaces
  {
    forall k ensures HasKey(Rollup(rows, where, key, minRaces, o), k) <==>
      |Select(Filter(rows, where), key, k)| > 0 && |Select(Filter(rows, where), key, k)| >= minRaces
    {
      RollupKeyAt(rows, where, key, minRaces, o, k);
    }
  }

  /** One key of a rollup. */
  lemma RollupKeyAt<K(!new)>(rows: seq<Run>, where: Run -> bool, key: Run -> K, minRaces: int, o: Order, k: K)
    ensures HasKey(Rollup(rows, where, key, minRaces, o), k) <==>
      |Select(Filter(rows, where), key, k)| > 0 && |Select(Filter(rows, where), key, k)| >= minRaces
  {
    var runs := Filter(rows, where);
    var gs := GroupBy(runs, key);
    var kept := Having(gs, minRaces);
    var out := SortBy(o, kept);
    SortByMembers(o, kept);
    if HasKey(out, k) {
      var i :| 0 <= i < |out| && out[i].key == k;
      assert out[i] in kept;
      assert out[i] in gs;
    }
    if |Select(runs, key, k)| > 0 && |Select(runs, key, k)| >= minRaces {
      assert HasKey(gs, k);
      var i :| 0 <= i < |gs| && gs[i].key == k;
      assert gs[i] in gs;
      assert gs[i] in out;
      var j :| 0 <= j < |out| && out[j] == gs[i];
    }
  }

  /** A group in the output of a rollup has at least one run satisfying the WHERE clause with its key. */
  lemma RollupWitness<K(!new)>(rows: seq<Run>, where: Run -> bool, key: Run -> K, minRaces: int, o: Order, g: Group<K>)
    requires g in Rollup(rows, where, key, minRaces, o)
    ensures exists r :: r in rows && where(r) && key(r) == g.key
  {
    RollupSpec(rows, where, key, minRaces, o);
    var s := Select(Filter(rows, where), key, g.key);
    assert s[0] in s;
  }

  /** The WHERE clause of a group: `p` and the key is `k`. */
  function WhereKey<K(==,!new)>(p: Run -> bool, key: Run -> K, k: K): Run -> bool {
    r => p(r) && key(r) == k
  }

  /** Selecting one group of a filtered table is filtering by the conjunction. */
  lemma {:induction false} SelectOfFilter<K(!new)>(rows: seq<Run>, p: Run -> bool, key: Run -> K, k: K)
    ensures Select(Filter(rows, p), key, k) == Filter(rows, WhereKey(p, key, k))
  {
    if rows != [] {
      SelectOfFilter(rows[1..], p, key, k);
    }
  }

  /** When every run has key `k`, the group `k` is the whole table. */
  lemma {:induction false} SelectAll<K(!new)>(rows: seq<Run>, key: Run -> K, k: K)
    requires forall r :: r in rows ==> key(r) == k
    ensures Select(rows, key, k) == rows
  {
    if rows != [] {
      assert rows[0] in rows;
      SelectAll(rows[1..], key, k);
      assert rows == [rows[0]] + rows[1..];
    }
  }

  /** WHERE clauses that hold for the same runs select the same runs. */
  lemma {:induction false} FilterAgree(rows: seq<Run>, p: Run -> bool, q: Run -> bool)
    requires forall r :: p(r) <==> q(r)
    ensures Filter(rows, p) == Filter(rows, q)
  {
    if rows != [] {
      FilterAgree(rows[1..], p, q);
    }
  }

  /** Two WHERE clauses that agree on every run with key `k` give the same group `k`. */
  lemma {:induction false} SelectFilterAgree<K(!new)>(rows: seq<Run>, p: Run -> bool, q: Run -> bool, key: Run -> K, k: K)
    requires forall r :: key(r) == k ==> (p(r) <==> q(r))
    ensures Select(Filter(rows, p), key, k) == Select(Filter(rows, q), key, k)
  {
    if rows != [] {
      SelectFilterAgree(rows[1..], p, q, key, k);
    }
  }
}
