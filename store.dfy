/**
 * The client's persistent state: the `opengov_reports` and `opengov_users` keys, held in memory,
 * and the collection idioms every handler uses on them.
 */
module Store {
  import opened Wrappers
  import opened Types
  import opened Seqs

  /** The two stored collections. Every handler reads them, rewrites them whole, and writes them back. */
  class ReportStore {
    var reports: seq<Report>
    var users: seq<User>

    constructor (reports: seq<Report>, users: seq<User>)
      ensures this.reports == reports && this.users == users
    {
      this.reports := reports;
      this.users := users;
    }
  }

  /**
   * `rs.map(r => r.id === id ? f(r) : r)`: every report with the id is replaced by `f` of itself,
   * every other report is left as it was, and the collection keeps its length and order.
   */
  function UpdateById(rs: seq<Report>, id: string, f: Report -> Report): (out: seq<Report>)
    ensures |out| == |rs|
    ensures forall i :: 0 <= i < |rs| && rs[i].id != id ==> out[i] == rs[i]
    ensures forall i :: 0 <= i < |rs| && rs[i].id == id ==> out[i] == f(rs[i])
  {
    if rs == [] then []
    else [if rs[0].id == id then f(rs[0]) else rs[0]] + UpdateById(rs[1..], id, f)
  }

  /** When no report carries the id, the rewrite writes back exactly what it read. */
  lemma UpdateByIdAbsent(rs: seq<Report>, id: string, f: Report -> Report)
    requires forall i :: 0 <= i < |rs| ==> rs[i].id != id
    ensures UpdateById(rs, id, f) == rs
  {
  }

  /** `rs.find(r => r.id === id)`: the first report with the id, if any. */
  function FindById(rs: seq<Report>, id: string): (r: Option<Report>)
    ensures r.None? <==> forall i :: 0 <= i < |rs| ==> rs[i].id != id
    ensures r.Some? ==> exists i :: 0 <= i < |rs| && rs[i] == r.value && r.value.id == id
                                  && forall j :: 0 <= j < i ==> rs[j].id != id
  {
    if rs == [] then None
    else if rs[0].id == id then Some(rs[0])
    else
      var r := FindById(rs[1..], id);
      assert forall i :: 0 < i < |rs| ==> rs[i] == rs[1..][i - 1];
      r
  }

  /** `rs.filter(r => r.status === s).length` */
  function CountStatus(rs: seq<Report>, s: Status): (n: nat)
    ensures n <= |rs|
  {
    |Filter(rs, (r: Report) => r.status == s)|
  }

  lemma CountStatusFirst(rs: seq<Report>, s: Status)
    requires rs != []
    ensures CountStatus(rs, s) == (if rs[0].status == s then 1 else 0) + CountStatus(rs[1..], s)
  {
  }

  /** The four statuses partition the collection: their counts add up to its length. */
  lemma {:induction false} StatusCountsPartition(rs: seq<Report>)
    ensures CountStatus(rs, Pending) + CountStatus(rs, InProgress) + CountStatus(rs, Resolved)
            + CountStatus(rs, Rejected) == |rs|
  {
    if rs != [] {
      StatusCountsPartition(rs[1..]);
      CountStatusFirst(rs, Pending);
      CountStatusFirst(rs, InProgress);
      CountStatusFirst(rs, Resolved);
      CountStatusFirst(rs, Rejected);
    }
  }

  /** The four counters both dashboards show. */
  datatype Stats = Stats(total: nat, pending: nat, inProgress: nat, resolved: nat)

  /**
   * The dashboards' counters: the total and the per-status counts for pending, in_progress and
   * resolved; rejected reports are counted in the total only.
   */
  function StatsOf(reports: seq<Report>): (s: Stats)
    ensures s.total == |reports|
    ensures s.pending == CountStatus(reports, Pending)
    ensures s.inProgress == CountStatus(reports, InProgress)
    ensures s.resolved == CountStatus(reports, Resolved)
    ensures s.pending + s.inProgress + s.resolved + CountStatus(reports, Rejected) == s.total
    ensures s.pending + s.inProgress + s.resolved <= s.total
  {
    StatusCountsPartition(reports);
    Stats(|reports|, CountStatus(reports, Pending), CountStatus(reports, InProgress),
          CountStatus(reports, Resolved))
  }
}
