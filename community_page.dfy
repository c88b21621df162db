/**
 * The community feed (src/pages/CommunityPage.tsx): public reports sorted by upvotes, and the
 * vote toggle that keeps each user in at most one of the two voter lists.
 */
module CommunityPage {
  import opened Wrappers
  import opened Types
  import opened Seqs
  import opened Store
  import opened Sorting

  datatype VoteKind = Upvote | Downvote

  /** The four vote fields of a report as `handleVote` reads them. */
  datatype Tally = Tally(upvotes: int, downvotes: int, upvotedBy: seq<string>, downvotedBy: seq<string>)

  /** Absent counts read as 0 and absent voter lists as empty. */
  function TallyOf(r: Report): Tally {
    Tally(r.upvotes.GetOr(0), r.downvotes.GetOr(0), r.upvotedBy.GetOr([]), r.downvotedBy.GetOr([]))
  }

  /** `{ ...r, upvotes, downvotes, upvotedBy, downvotedBy }` */
  function WithTally(r: Report, t: Tally): Report {
    r.(upvotes := Some(t.upvotes), downvotes := Some(t.downvotes),
       upvotedBy := Some(t.upvotedBy), downvotedBy := Some(t.downvotedBy))
  }

  /** Writing a tally back touches the four vote fields only, and reading it again gives it back. */
  lemma WriteBackRoundTrip(r: Report, t: Tally)
    ensures TallyOf(WithTally(r, t)) == t
    ensures WithTally(r, t) == r.(upvotes := Some(t.upvotes), downvotes := Some(t.downvotes),
                                  upvotedBy := Some(t.upvotedBy), downvotedBy := Some(t.downvotedBy))
  {
  }

  /** The vote fields after user `uid` casts a vote of the given kind. */
  function Voted(t: Tally, uid: string, kind: VoteKind): Tally {
    var hasUp := uid in t.upvotedBy;
    var hasDown := uid in t.downvotedBy;
    match kind
    case Upvote =>
      if hasUp then t.(upvotes := t.upvotes - 1, upvotedBy := Without(t.upvotedBy, uid))
      else if hasDown then
        Tally(t.upvotes + 1, t.downvotes - 1, t.upvotedBy + [uid], Without(t.downvotedBy, uid))
      else t.(upvotes := t.upvotes + 1, upvotedBy := t.upvotedBy + [uid])
    case Downvote =>
      if hasDown then t.(downvotes := t.downvotes - 1, downvotedBy := Without(t.downvotedBy, uid))
      else if hasUp then
        Tally(t.upvotes - 1, t.downvotes + 1, Without(t.upvotedBy, uid), t.downvotedBy + [uid])
      else t.(downvotes := t.downvotes + 1, downvotedBy := t.downvotedBy + [uid])
  }

  /** The body of `handleVote` between reading the report and writing it back, step by step. */
  method CastVote(t: Tally, uid: string, kind: VoteKind) returns (r: Tally)
    ensures r == Voted(t, uid, kind)
  {
    var upvotes := t.upvotes;
    var downvotes := t.downvotes;
    var upvotedBy := t.upvotedBy;
    var downvotedBy := t.downvotedBy;
    var hasUpvoted := uid in upvotedBy;
    var hasDownvoted := uid in downvotedBy;
    if kind == Upvote {
      if hasUpvoted {
        upvotes := upvotes - 1;
        upvotedBy := Without(upvotedBy, uid);
      } else {
        upvotes := upvotes + 1;
        upvotedBy := upvotedBy + [uid];
        if hasDownvoted {
          downvotes := downvotes - 1;
          downvotedBy := Without(downvotedBy, uid);
        }
      }
    } else {
      if hasDownvoted {
        downvotes := downvotes - 1;
        downvotedBy := Without(downvotedBy, uid);
      } else {
        downvotes := downvotes + 1;
        downvotedBy := downvotedBy + [uid];
        if hasUpvoted {
          upvotes := upvotes - 1;
          upvotedBy := Without(upvotedBy, uid);
        }
      }
    }
    r := Tally(upvotes, downvotes, upvotedBy, downvotedBy);
  }

  /** After any vote the voter is in at most one of the two lists, whatever the lists held before. */
  lemma VoteExclusive(t: Tally, uid: string, kind: VoteKind)
    ensures var t' := Voted(t, uid, kind);
      !(uid in t'.upvotedBy && uid in t'.downvotedBy)
  {
  }

  /**
   * What a vote does to the lists, for a voter not in both: the voter ends up in the list of the
   * kind cast exactly when not already in it (a repeat vote retracts), is taken out of the other
   * list, and every other voter keeps their place in both lists.
   */
  lemma VoteMembership(t: Tally, uid: string, kind: VoteKind)
    requires !(uid in t.upvotedBy && uid in t.downvotedBy)
    ensures var t' := Voted(t, uid, kind);
      && (uid in t'.upvotedBy <==> kind == Upvote && uid !in t.upvotedBy)
      && (uid in t'.downvotedBy <==> kind == Downvote && uid !in t.downvotedBy)
      && (forall i :: 0 <= i < |t.upvotedBy| && t.upvotedBy[i] != uid ==> t.upvotedBy[i] in t'.upvotedBy)
      && (forall i :: 0 <= i < |t'.upvotedBy| && t'.upvotedBy[i] != uid ==> t'.upvotedBy[i] in t.upvotedBy)
      && (forall i :: 0 <= i < |t.downvotedBy| && t.downvotedBy[i] != uid ==> t.downvotedBy[i] in t'.downvotedBy)
      && (forall i :: 0 <= i < |t'.downvotedBy| && t'.downvotedBy[i] != uid ==> t'.downvotedBy[i] in t.downvotedBy)
  {
  }

  /**
   * The counters: a repeat vote takes one off its own counter; a new vote adds one to its own
   * counter and takes one off the other counter when it replaces an opposite vote.
   */
  lemma VoteCounts(t: Tally, uid: string, kind: VoteKind)
    ensures var t' := Voted(t, uid, kind);
      var hasUp, hasDown := uid in t.upvotedBy, uid in t.downvotedBy;
      && (kind == Upvote && hasUp ==>
            (t'.upvotes == t.upvotes - 1 && t'.downvotes == t.downvotes && t'.downvotedBy == t.downvotedBy))
      && (kind == Upvote && !hasUp ==>
            (t'.upvotes == t.upvotes + 1 && t'.downvotes == t.downvotes - (if hasDown then 1 else 0)))
      && (kind == Downvote && hasDown ==>
            (t'.downvotes == t.downvotes - 1 && t'.upvotes == t.upvotes && t'.upvotedBy == t.upvotedBy))
      && (kind == Downvote && !hasDown ==>
            (t'.downvotes == t.downvotes + 1 && t'.upvotes == t.upvotes - (if hasUp then 1 else 0)))
  {
  }

  /** The invariant the vote fields are meant to keep: counts match lists, no repeats, no overlap. */
  predicate Consistent(t: Tally) {
    && t.upvotes == |t.upvotedBy|
    && t.downvotes == |t.downvotedBy|
    && NoDup(t.upvotedBy)
    && NoDup(t.downvotedBy)
    && (forall i :: 0 <= i < |t.upvotedBy| ==> t.upvotedBy[i] !in t.downvotedBy)
  }

  /** Every vote keeps a consistent tally consistent. */
  lemma VotePreservesConsistency(t: Tally, uid: string, kind: VoteKind)
    requires Consistent(t)
    ensures Consistent(Voted(t, uid, kind))
  {
    var t' := Voted(t, uid, kind);
    var hasUp, hasDown := uid in t.upvotedBy, uid in t.downvotedBy;
    WithoutNoDup(t.upvotedBy, uid);
    WithoutNoDup(t.downvotedBy, uid);
    if !hasUp { AppendNoDup(t.upvotedBy, uid); }
    if !hasDown { AppendNoDup(t.downvotedBy, uid); }
    forall i | 0 <= i < |t'.upvotedBy| ensures t'.upvotedBy[i] !in t'.downvotedBy {
      var x := t'.upvotedBy[i];
      if x != uid {
        assert x in t.upvotedBy;
        assert x !in t.downvotedBy;
      }
    }
  }

  /** A voter who had not voted and casts the same vote twice leaves the tally exactly as it was. */
  lemma VoteTwiceRestores(t: Tally, uid: string, kind: VoteKind)
    requires uid !in t.upvotedBy && uid !in t.downvotedBy
    ensures Voted(Voted(t, uid, kind), uid, kind) == t
  {
    if kind == Upvote {
      WithoutAppended(t.upvotedBy, uid);
    } else {
      WithoutAppended(t.downvotedBy, uid);
    }
  }

  /**
   * A voter who already cast this vote and casts it twice more ends with the same counts and the
   * same voters; only their own position in the list moves to the end.
   */
  lemma RetractRecastRestores(t: Tally, uid: string, kind: VoteKind)
    requires Consistent(t)
    requires kind == Upvote ==> uid in t.upvotedBy
    requires kind == Downvote ==> uid in t.downvotedBy
    ensures var t2 := Voted(Voted(t, uid, kind), uid, kind);
      && t2.upvotes == t.upvotes && t2.downvotes == t.downvotes
      && multiset(t2.upvotedBy) == multiset(t.upvotedBy)
      && multiset(t2.downvotedBy) == multiset(t.downvotedBy)
  {
    var s := if kind == Upvote then t.upvotedBy else t.downvotedBy;
    var other := if kind == Upvote then t.downvotedBy else t.upvotedBy;
    assert uid in s;
    assert uid !in other by {
      if kind == Upvote {
        var i :| 0 <= i < |s| && s[i] == uid;
      } else {
        forall i | 0 <= i < |other| ensures other[i] != uid {
          assert other[i] !in t.downvotedBy;
        }
      }
    }
    WithoutNoDup(s, uid);
    WithoutCount(s, uid);
    NoDupOccurrence(s, uid);
    assert uid !in Without(s, uid);
  }

  /** `r.isPublic` is truthy: absent counts as private. */
  predicate IsPublic(r: Report) {
    r.isPublic == Some(true)
  }

  /** `loadReports`: the public reports, in store order. */
  function PublicReports(all: seq<Report>): seq<Report> {
    Filter(all, IsPublic)
  }

  /** The sort key of the feed: upvotes, absent read as 0. */
  function UpvoteKey(r: Report): real {
    r.upvotes.GetOr(0) as real
  }

  /**
   * The rendered feed holds exactly the public reports (private and unset ones never appear),
   * most upvoted first, ties in store order.
   */
  lemma FeedSpec(all: seq<Report>)
    ensures var feed := SortedDesc(PublicReports(all), UpvoteKey);
      && multiset(feed) == multiset(PublicReports(all))
      && (forall i :: 0 <= i < |feed| ==> feed[i].isPublic == Some(true))
      && (forall i :: 0 <= i < |all| && all[i].isPublic == Some(true) ==> all[i] in feed)
      && (forall i :: 0 <= i < |all| && all[i].isPublic != Some(true) ==> all[i] !in feed)
      && Descending(feed, UpvoteKey)
      && (forall k :: WithKey(feed, UpvoteKey, k) == WithKey(PublicReports(all), UpvoteKey, k))
  {
    var pub := PublicReports(all);
    var feed := SortedDesc(pub, UpvoteKey);
    SortedDescSpec(pub, UpvoteKey);
    forall i | 0 <= i < |feed| ensures feed[i].isPublic == Some(true) {
      assert feed[i] in multiset(pub);
    }
    forall i | 0 <= i < |all| && all[i].isPublic == Some(true) ensures all[i] in feed {
      assert all[i] in multiset(pub);
    }
  }

  /** The community page's state. */
  class Page {
    const store: ReportStore
    const user: Option<User>
    var reports: array<Report>
    var visibleComments: seq<string>

    constructor (store: ReportStore, user: Option<User>)
      ensures this.store == store && this.user == user
      ensures reports.Length == 0 && visibleComments == []
    {
      this.store := store;
      this.user := user;
      reports := new Report[0];
      visibleComments := [];
    }

    /** `loadReports`: a fresh array of the public reports. */
    method LoadReports()
      modifies this`reports
      ensures fresh(reports)
      ensures reports[..] == PublicReports(store.reports)
    {
      var pub := PublicReports(store.reports);
      reports := new Report[|pub|](i requires 0 <= i < |pub| => pub[i]);
    }

    /**
     * `handleVote`: without a logged-in user or a report with the id nothing changes; otherwise
     * the vote is computed from the first report with the id and its four vote fields are written
     * to every report with that id.
     */
    method HandleVote(reportId: string, kind: VoteKind)
      modifies store`reports, this`reports
      ensures user.None? || FindById(old(store.reports), reportId).None? ==>
        store.reports == old(store.reports) && reports == old(reports)
      ensures user.Some? && FindById(old(store.reports), reportId).Some? ==>
        var t := Voted(TallyOf(FindById(old(store.reports), reportId).value), user.value.id, kind);
        && |store.reports| == |old(store.reports)|
        && (forall i :: 0 <= i < |store.reports| ==>
              store.reports[i] == if old(store.reports)[i].id == reportId
                                  then WithTally(old(store.reports)[i], t)
                                  else old(store.reports)[i])
        && fresh(reports)
        && reports[..] == PublicReports(store.reports)
    {
      if user.None? {
        return;
      }
      var allReports := store.reports;
      var report := FindById(allReports, reportId);
      if report.None? {
        return;
      }
      var t := CastVote(TallyOf(report.value), user.value.id, kind);
      store.reports := UpdateById(allReports, reportId, (r: Report) => WithTally(r, t));
      LoadReports();
    }

    /** The render-time `reports.sort(...)`: the state array is sorted in place by upvotes. */
    method SortFeed()
      modifies reports
      ensures reports[..] == SortedDesc(old(reports[..]), UpvoteKey)
    {
      SortDescending(reports, UpvoteKey);
    }

    /** `toggleComments` */
    method ToggleComments(reportId: string)
      modifies this`visibleComments
      ensures visibleComments == Toggled(old(visibleComments), reportId)
    {
      visibleComments := Toggled(visibleComments, reportId);
    }
  }
}
