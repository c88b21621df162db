/**
 * The authorities' performance leaderboard (src/components/AuthorityLeaderboard.tsx). An authority
 * earns 10 points per report assigned to it and resolved with a resolution time, minus the average
 * resolution time of those reports in hours.
 */
module AuthorityLeaderboard {
  import opened Wrappers
  import opened Types
  import opened Seqs
  import opened Sorting

  /** `{ ...auth, points, resolvedCount, avgResolutionTime }`, the hours kept as a number. */
  datatype AuthorityStat = AuthorityStat(user: User, points: real, resolvedCount: nat, avgHours: real)

  /** One table row: the score is rounded, the average hours are shown as they were computed. */
  datatype Row = Row(rank: int, username: string, points: int, resolvedCount: nat, avgHours: real)

  const MsPerHour: real := 3600000.0

  function Authorities(users: seq<User>): seq<User> {
    Filter(users, (u: User) => u.role == Authority)
  }

  /** A report counts for `auth` when it is assigned to it, resolved, and has a resolution time. */
  predicate Counted(auth: User, r: Report) {
    r.assignedTo == Some(auth.id) && r.status == Resolved && r.resolvedAt.Some?
  }

  /** `resolvedReports`: exactly the reports that count for `auth`, in store order. */
  function CountedReports(auth: User, reports: seq<Report>): (rs: seq<Report>)
    ensures forall i :: 0 <= i < |rs| ==> rs[i] in reports && Counted(auth, rs[i])
    ensures forall i :: 0 <= i < |reports| && Counted(auth, reports[i]) ==> reports[i] in rs
  {
    Filter(reports, (r: Report) => Counted(auth, r))
  }

  /** The resolution time of a resolved report, in milliseconds. */
  function Duration(r: Report): int
    requires r.resolvedAt.Some?
  {
    r.resolvedAt.value - r.createdAt
  }

  /** The sum of the resolution times (the `reduce`). */
  function TotalResolutionMs(rs: seq<Report>): int
    requires forall i :: 0 <= i < |rs| ==> rs[i].resolvedAt.Some?
  {
    if rs == [] then 0 else Duration(rs[0]) + TotalResolutionMs(rs[1..])
  }

  /** With no report resolved before it was created, the total resolution time is not negative. */
  lemma {:induction false} TotalNonNegative(rs: seq<Report>)
    requires forall i :: 0 <= i < |rs| ==> rs[i].resolvedAt.Some? && Duration(rs[i]) >= 0
    ensures TotalResolutionMs(rs) >= 0
  {
    if rs != [] {
      TotalNonNegative(rs[1..]);
    }
  }

  /**
   * `avgResolutionTimeHours`: a total in milliseconds over a count, in hours, or 0 for no reports.
   * Scaled back by the hour length and the count it gives the total, and it is not negative when
   * the total is not.
   */
  function AverageHours(totalMs: int, n: nat): (h: real)
    ensures n == 0 ==> h == 0.0
    ensures n > 0 ==> h * MsPerHour * n as real == totalMs as real
    ensures totalMs >= 0 ==> h >= 0.0
  {
    var avgMs := if n > 0 then totalMs as real / n as real else 0.0;
    if n > 0 then AverageScalesBack(totalMs as real, n as real); avgMs / MsPerHour
    else avgMs / MsPerHour
  }

  /** Scaling an average back by the hour length and the count gives the total. */
  lemma AverageScalesBack(total: real, n: real)
    requires n > 0.0
    ensures total / n / MsPerHour * MsPerHour * n == total
  {
    var avg := total / n;
    assert avg * n == total;
    assert avg / MsPerHour * MsPerHour == avg;
  }

  function StatFor(auth: User, reports: seq<Report>): AuthorityStat {
    var counted := CountedReports(auth, reports);
    var n := |counted|;
    var hours := AverageHours(TotalResolutionMs(counted), n);
    AuthorityStat(auth, (n * 10) as real - hours, n, hours)
  }

  /**
   * The statistics of an authority: the count is the number of counted reports, the average is
   * `AverageHours` of their total resolution time (so 0 when nothing counts, and then so is the
   * score), and the score is ten per counted report less the average hours.
   */
  lemma StatSpec(auth: User, reports: seq<Report>)
    ensures var st := StatFor(auth, reports);
      var counted := CountedReports(auth, reports);
      && st.user == auth
      && st.resolvedCount == |counted|
      && st.avgHours == AverageHours(TotalResolutionMs(counted), |counted|)
      && st.points == (10 * st.resolvedCount) as real - st.avgHours
      && (st.resolvedCount == 0 ==> st.avgHours == 0.0 && st.points == 0.0)
  {
  }

  /**
   * When no counted report was resolved before its creation, the average is not negative, so an
   * authority never scores more than ten points per counted report.
   */
  lemma ScoreAtMostTenPerReport(auth: User, reports: seq<Report>)
    requires forall i :: 0 <= i < |reports| && reports[i].resolvedAt.Some? ==> Duration(reports[i]) >= 0
    ensures StatFor(auth, reports).avgHours >= 0.0
    ensures StatFor(auth, reports).points <= (10 * StatFor(auth, reports).resolvedCount) as real
  {
    var counted := CountedReports(auth, reports);
    forall i | 0 <= i < |counted| ensures Duration(counted[i]) >= 0 {
      assert counted[i] in reports;
    }
    TotalNonNegative(counted);
  }

  /**
   * Two resolved reports that took 10 and 30 hours average 20 hours, which cancels the 20 points
   * they earn.
   */
  lemma ScoreExample(auth: User, r1: Report, r2: Report)
    requires Counted(auth, r1) && Counted(auth, r2)
    requires Duration(r1) == 10 * 3600000 && Duration(r2) == 30 * 3600000
    ensures StatFor(auth, [r1, r2]).avgHours == 20.0
    ensures StatFor(auth, [r1, r2]).points == 0.0
  {
    var rs := [r1, r2];
    FilterAll(rs, (r: Report) => Counted(auth, r));
    assert CountedReports(auth, rs) == rs;
    assert rs[1..] == [r2] && [r2][1..] == [];
    assert TotalResolutionMs([r2]) == 30 * 3600000;
    assert TotalResolutionMs(rs) == 40 * 3600000;
  }

  /** `authorities.map(...)`: the statistics of every authority, in store order. */
  function StatsTable(users: seq<User>, reports: seq<Report>): (t: seq<AuthorityStat>)
    ensures var auths := Authorities(users);
      |t| == |auths| && forall i :: 0 <= i < |auths| ==> t[i] == StatFor(auths[i], reports)
  {
    var auths := Authorities(users);
    seq(|auths|, i requires 0 <= i < |auths| => StatFor(auths[i], reports))
  }

  function ScoreKey(st: AuthorityStat): real {
    st.points
  }

  /** `Math.round`: the nearest integer, halves rounded up. */
  function Round(x: real): (n: int)
    ensures n as real - 0.5 <= x < n as real + 0.5
  {
    (x + 0.5).Floor
  }

  /** Rounding keeps order: a higher score never shows as a lower one. */
  lemma RoundMonotonic(x: real, y: real)
    requires y <= x
    ensures Round(y) <= Round(x)
  {
  }

  function Ranked(sorted: seq<AuthorityStat>): seq<Row> {
    seq(|sorted|, i requires 0 <= i < |sorted| =>
          Row(i + 1, sorted[i].user.name, Round(sorted[i].points), sorted[i].resolvedCount, sorted[i].avgHours))
  }

  /** The leaderboard: statistics sorted by unrounded score from high to low, then ranked. */
  function Ranking(users: seq<User>, reports: seq<Report>): seq<Row> {
    Ranked(SortedDesc(StatsTable(users, reports), ScoreKey))
  }

  /** The effect that builds the leaderboard: map, in-place stable sort, rank. */
  method ComputeAuthorityLeaderboard(users: seq<User>, reports: seq<Report>) returns (rows: seq<Row>)
    ensures rows == Ranking(users, reports)
  {
    var table := StatsTable(users, reports);
    var authorityStats := new AuthorityStat[|table|](i requires 0 <= i < |table| => table[i]);
    assert authorityStats[..] == table;
    SortDescending(authorityStats, ScoreKey);
    rows := Ranked(authorityStats[..]);
  }

  /**
   * The sorted statistics are a permutation of the per-authority ones, run from the highest
   * unrounded score down, and keep store order among equal scores.
   */
  lemma SortedStatsOrder(users: seq<User>, reports: seq<Report>)
    ensures var table := StatsTable(users, reports);
      var sorted := SortedDesc(table, ScoreKey);
      && |sorted| == |Authorities(users)|
      && multiset(sorted) == multiset(table)
      && (forall i, j :: 0 <= i < j < |sorted| ==> sorted[i].points >= sorted[j].points)
      && (forall k :: WithKey(sorted, ScoreKey, k) == WithKey(table, ScoreKey, k))
  {
    var table := StatsTable(users, reports);
    var sorted := SortedDesc(table, ScoreKey);
    SortedDescSpec(table, ScoreKey);
    assert |multiset(sorted)| == |multiset(table)|;
    forall i, j | 0 <= i < j < |sorted| ensures sorted[i].points >= sorted[j].points {
      assert ScoreKey(sorted[i]) >= ScoreKey(sorted[j]);
    }
  }

  /** Every sorted entry is a stored authority with its own statistics. */
  lemma SortedStatsMembers(users: seq<User>, reports: seq<Report>)
    ensures var sorted := SortedDesc(StatsTable(users, reports), ScoreKey);
      forall i :: 0 <= i < |sorted| ==>
        && sorted[i].user in users && sorted[i].user.role == Authority
        && sorted[i] == StatFor(sorted[i].user, reports)
  {
    var table := StatsTable(users, reports);
    var sorted := SortedDesc(table, ScoreKey);
    var auths := Authorities(users);
    SortedStatsOrder(users, reports);
    forall i | 0 <= i < |sorted|
      ensures sorted[i].user in users && sorted[i].user.role == Authority
      ensures sorted[i] == StatFor(sorted[i].user, reports)
    {
      assert sorted[i] in multiset(table);
      var j :| 0 <= j < |table| && table[j] == sorted[i];
      assert auths[j] in users;
    }
  }

  /**
   * Rows built from statistics ordered by score: ranks are positions plus one, each row carries its
   * authority's name, rounded score, count and average hours, and the rounded scores never increase.
   */
  lemma RankedSpec(sorted: seq<AuthorityStat>)
    requires forall i, j :: 0 <= i < j < |sorted| ==> sorted[i].points >= sorted[j].points
    ensures var rows := Ranked(sorted);
      && |rows| == |sorted|
      && (forall i :: 0 <= i < |rows| ==>
            && rows[i].rank == i + 1
            && rows[i].username == sorted[i].user.name
            && rows[i].points == Round(sorted[i].points)
            && rows[i].resolvedCount == sorted[i].resolvedCount
            && rows[i].avgHours == sorted[i].avgHours)
      && (forall i, j :: 0 <= i < j < |rows| ==> rows[i].points >= rows[j].points)
  {
    forall i, j | 0 <= i < j < |sorted| ensures Round(sorted[i].points) >= Round(sorted[j].points) {
      RoundMonotonic(sorted[i].points, sorted[j].points);
    }
  }

  /**
   * The leaderboard has one row per stored authority; ranks are positions plus one; rows carry
   * the statistics of the sorted table, whose shown rounded scores never increase down the table.
   */
  lemma RankingSpec(users: seq<User>, reports: seq<Report>)
    ensures var sorted := SortedDesc(StatsTable(users, reports), ScoreKey);
      var rows := Ranking(users, reports);
      && |rows| == |Authorities(users)|
      && (forall i :: 0 <= i < |rows| ==>
            && rows[i].rank == i + 1
            && rows[i].username == sorted[i].user.name
            && sorted[i].user.role == Authority
            && rows[i].points == Round(StatFor(sorted[i].user, reports).points)
            && rows[i].resolvedCount == StatFor(sorted[i].user, reports).resolvedCount
            && rows[i].avgHours == StatFor(sorted[i].user, reports).avgHours)
      && (forall i, j :: 0 <= i < j < |rows| ==> rows[i].points >= rows[j].points)
  {
    SortedStatsOrder(users, reports);
    SortedStatsMembers(users, reports);
    RankedSpec(SortedDesc(StatsTable(users, reports), ScoreKey));
  }
}
