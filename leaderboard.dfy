/**
 * The citizens' impact leaderboard (src/components/Leaderboard.tsx). Every stored user is ranked,
 * whatever their role. A user earns 10 points per authored report that is resolved plus 1 point
 * per authored report (the code's comment speaks of 1 point per resolved report; the code gives 10).
 */
module Leaderboard {
  import opened Wrappers
  import opened Types
  import opened Seqs
  import opened Store
  import opened Sorting

  /** `{ ...usr, points }` */
  datatype UserPoints = UserPoints(user: User, points: int)

  /** One table row; the avatar, a constant placeholder image, is not modelled. */
  datatype Row = Row(rank: int, username: string, points: int, isCurrentUser: bool)

  /** The reports whose author is `u`. */
  function Authored(u: User, reports: seq<Report>): seq<Report> {
    Filter(reports, (r: Report) => r.citizenId == u.id)
  }

  function Points(u: User, reports: seq<Report>): int {
    CountStatus(Authored(u, reports), Resolved) * 10 + |Authored(u, reports)|
  }

  /**
   * Points are at least the number of authored reports and at most eleven times it; a user who
   * authored nothing has 0 points.
   */
  lemma PointsBounds(u: User, reports: seq<Report>)
    ensures |Authored(u, reports)| <= Points(u, reports) <= 11 * |Authored(u, reports)|
    ensures (forall i :: 0 <= i < |reports| ==> reports[i].citizenId != u.id) ==> Points(u, reports) == 0
  {
    if forall i :: 0 <= i < |reports| ==> reports[i].citizenId != u.id {
      var a := Authored(u, reports);
      if a != [] {
        assert a[0] in reports;
      }
    }
  }

  /** Three authored reports of which two are resolved give 10 × 2 + 3 = 23 points. */
  lemma PointsExample(u: User, r1: Report, r2: Report, r3: Report)
    requires r1.citizenId == u.id && r2.citizenId == u.id && r3.citizenId == u.id
    requires r1.status == Resolved && r2.status == Resolved && r3.status == Pending
    ensures Points(u, [r1, r2, r3]) == 23
  {
    var rs := [r1, r2, r3];
    FilterAll(rs, (r: Report) => r.citizenId == u.id);
    assert rs[1..] == [r2, r3] && rs[1..][1..] == [r3] && [r3][1..] == [];
    CountStatusFirst(rs, Resolved);
    CountStatusFirst(rs[1..], Resolved);
    CountStatusFirst(rs[1..][1..], Resolved);
  }

  /** `users.map(...)`: each user with their points, in store order. */
  function PointsTable(users: seq<User>, reports: seq<Report>): (t: seq<UserPoints>)
    ensures |t| == |users|
    ensures forall i :: 0 <= i < |users| ==> t[i] == UserPoints(users[i], Points(users[i], reports))
  {
    seq(|users|, i requires 0 <= i < |users| => UserPoints(users[i], Points(users[i], reports)))
  }

  function PointsKey(p: UserPoints): real {
    p.points as real
  }

  /** `userPoints.map((usr, index) => ...)`: ranks are positions, so tied users get different ranks. */
  function Ranked(sorted: seq<UserPoints>, current: Option<string>): seq<Row> {
    seq(|sorted|, i requires 0 <= i < |sorted| =>
          Row(i + 1, sorted[i].user.name, sorted[i].points, Some(sorted[i].user.id) == current))
  }

  /** The leaderboard for the logged-in user `current`. */
  function Ranking(users: seq<User>, reports: seq<Report>, current: Option<User>): seq<Row> {
    Ranked(SortedDesc(PointsTable(users, reports), PointsKey), IdOf(current))
  }

  /** The effect that builds the leaderboard: map, in-place stable sort, rank. */
  method ComputeLeaderboard(users: seq<User>, reports: seq<Report>, current: Option<User>)
    returns (rows: seq<Row>)
    ensures rows == Ranking(users, reports, current)
  {
    var table := PointsTable(users, reports);
    var userPoints := new UserPoints[|table|](i requires 0 <= i < |table| => table[i]);
    assert userPoints[..] == table;
    SortDescending(userPoints, PointsKey);
    rows := Ranked(userPoints[..], IdOf(current));
  }

  /**
   * The sorted table is a permutation of the per-user table (every user once, with their own
   * points), ordered by points from high to low with ties in store order.
   */
  lemma SortedPointsSpec(users: seq<User>, reports: seq<Report>)
    ensures var table := PointsTable(users, reports);
      var sorted := SortedDesc(table, PointsKey);
      && |sorted| == |users|
      && multiset(sorted) == multiset(table)
      && (forall i :: 0 <= i < |sorted| ==> sorted[i].points == Points(sorted[i].user, reports))
      && (forall i, j :: 0 <= i < j < |sorted| ==> sorted[i].points >= sorted[j].points)
      && (forall k :: WithKey(sorted, PointsKey, k) == WithKey(table, PointsKey, k))
  {
    var table := PointsTable(users, reports);
    var sorted := SortedDesc(table, PointsKey);
    SortedDescSpec(table, PointsKey);
    assert |multiset(sorted)| == |multiset(table)|;
    forall i | 0 <= i < |sorted| ensures sorted[i].points == Points(sorted[i].user, reports) {
      assert sorted[i] in multiset(table);
      var j :| 0 <= j < |table| && table[j] == sorted[i];
    }
    forall i, j | 0 <= i < j < |sorted| ensures sorted[i].points >= sorted[j].points {
      assert PointsKey(sorted[i]) >= PointsKey(sorted[j]);
    }
  }

  /**
   * The ranking has one row per user, built from the sorted table: rank is the position plus one,
   * each row carries its user's name and own points, points never increase down the table, and
   * isCurrentUser marks exactly the rows of the logged-in user.
   */
  lemma RankingSpec(users: seq<User>, reports: seq<Report>, current: Option<User>)
    ensures var sorted := SortedDesc(PointsTable(users, reports), PointsKey);
      var rows := Ranking(users, reports, current);
      && |rows| == |users|
      && (forall i :: 0 <= i < |rows| ==>
            && rows[i].rank == i + 1
            && rows[i].username == sorted[i].user.name
            && rows[i].points == Points(sorted[i].user, reports)
            && (rows[i].isCurrentUser <==> current.Some? && sorted[i].user.id == current.value.id))
      && (forall i, j :: 0 <= i < j < |rows| ==> rows[i].points >= rows[j].points)
  {
    SortedPointsSpec(users, reports);
  }

  /** Some row among `rows` belongs to the logged-in user. */
  predicate HasCurrent(rows: seq<Row>) {
    exists i :: 0 <= i < |rows| && rows[i].isCurrentUser
  }

  /** `leaderboardData.find(d => d.isCurrentUser)` */
  function FirstCurrent(rows: seq<Row>): (r: Option<Row>)
    ensures r.None? <==> !HasCurrent(rows)
    ensures r.Some? ==> exists i :: 0 <= i < |rows| && rows[i] == r.value && r.value.isCurrentUser
                                    && !HasCurrent(rows[..i])
  {
    if rows == [] then None
    else if rows[0].isCurrentUser then
      assert rows[..0] == [];
      Some(rows[0])
    else
      var r := FirstCurrent(rows[1..]);
      assert forall i :: 0 < i < |rows| ==> rows[i] == rows[1..][i - 1];
      assert forall i :: 0 < i <= |rows| ==> rows[..i] == [rows[0]] + rows[1..][..i - 1];
      r
  }

  /** The rows the table shows: the first five, then the current user's row if it is not among them. */
  function Displayed(rows: seq<Row>): (d: seq<Row>)
    ensures var top := if |rows| < 5 then |rows| else 5;
      && top <= |d| <= top + 1
      && d[..top] == rows[..top]
      && (|d| == top + 1 <==> HasCurrent(rows) && !HasCurrent(rows[..top]))
      && (|d| == top + 1 ==> d[top] == FirstCurrent(rows).value)
  {
    var top := rows[..if |rows| < 5 then |rows| else 5];
    var current := FirstCurrent(rows);
    top + (if current.Some? && !HasCurrent(top) then [current.value] else [])
  }

  /**
   * When the rows are ranked by position and one of them is the current user's, the displayed rows
   * include one of the current user's, and a row added below the top five keeps its rank, beyond 5.
   */
  lemma DisplayedShowsCurrent(rows: seq<Row>)
    requires HasCurrent(rows)
    requires forall i :: 0 <= i < |rows| ==> rows[i].rank == i + 1
    ensures var d := Displayed(rows);
      && HasCurrent(d)
      && (|d| == 6 ==> d[5].rank > 5)
  {
    var d := Displayed(rows);
    var top := if |rows| < 5 then |rows| else 5;
    if HasCurrent(rows[..top]) {
      var i :| 0 <= i < top && rows[..top][i].isCurrentUser;
      assert d[i] == rows[..top][i];
    } else {
      var i :| 0 <= i < |rows| && rows[i] == d[top] && d[top].isCurrentUser && !HasCurrent(rows[..i]);
      assert d[top].isCurrentUser;
    }
  }

  /** The logged-in user, when stored, always sees their own row, ranked beyond 5 if pinned below. */
  lemma CurrentUserShown(users: seq<User>, reports: seq<Report>, current: Option<User>)
    requires current.Some? && exists i :: 0 <= i < |users| && users[i].id == current.value.id
    ensures var d := Displayed(Ranking(users, reports, current));
      && HasCurrent(d)
      && (|d| == 6 ==> d[5].rank > 5)
  {
    var table := PointsTable(users, reports);
    var sorted := SortedDesc(table, PointsKey);
    var rows := Ranking(users, reports, current);
    SortedPointsSpec(users, reports);
    RankingSpec(users, reports, current);
    var u :| 0 <= u < |users| && users[u].id == current.value.id;
    assert table[u] in multiset(sorted);
    var p :| 0 <= p < |sorted| && sorted[p] == table[u];
    assert rows[p].isCurrentUser;
    DisplayedShowsCurrent(rows);
  }
}
