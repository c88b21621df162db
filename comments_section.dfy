/** The comment thread under a report (src/components/CommentsSection.tsx). */
module CommentsSection {
  import opened Wrappers
  import opened Types
  import opened Text
  import opened Store

  /** `{ ...r, comments: [...(r.comments || []), comment] }` */
  function WithComment(r: Report, c: Comment): Report {
    r.(comments := Some(r.comments.GetOr([]) + [c]))
  }

  /** The heading's count: the number of comments, 0 when the list is absent. */
  function CommentCount(r: Report): (n: nat)
    ensures r.comments.None? ==> n == 0
    ensures r.comments.Some? ==> n == |r.comments.value|
  {
    |r.comments.GetOr([])|
  }

  /**
   * Comments are append-only: the earlier comments stay in front, the new one is last, the count
   * grows by one, and no other field changes (updatedAt is not refreshed).
   */
  lemma CommentEffect(r: Report, c: Comment)
    ensures var r' := WithComment(r, c);
      && CommentCount(r') == CommentCount(r) + 1
      && r'.comments.value[..CommentCount(r)] == r.comments.GetOr([])
      && r'.comments.value[CommentCount(r)] == c
      && r'.updatedAt == r.updatedAt
      && r' == r.(comments := r'.comments)
  {
    var before := r.comments.GetOr([]);
    assert (before + [c])[..|before|] == before;
  }

  /** The component's state; `report` is the report it is rendered under. */
  class Section {
    const report: Report
    const store: ReportStore
    const user: Option<User>
    var newComment: string
    var loading: bool

    constructor (report: Report, store: ReportStore, user: Option<User>)
      ensures this.report == report && this.store == store && this.user == user
      ensures newComment == "" && !loading
    {
      this.report := report;
      this.store := store;
      this.user := user;
      newComment := "";
      loading := false;
    }

    /** The text box. */
    method EditComment(text: string)
      modifies this`newComment
      ensures newComment == text
    {
      newComment := text;
    }

    /**
     * `handleSubmitComment`: nothing happens for a blank text or without a logged-in user;
     * otherwise the untrimmed text is appended as a comment by the current user to every stored
     * report with this report's id, the text box is cleared and loading is off again.
     */
    method HandleSubmitComment(commentId: string, now: int)
      modifies this`newComment, this`loading, store`reports
      ensures Trim(old(newComment)) == "" || user.None? ==>
        newComment == old(newComment) && loading == old(loading) && store.reports == old(store.reports)
      ensures Trim(old(newComment)) != "" && user.Some? ==>
        var c := Comment(commentId, old(newComment), user.value.id, user.value.name, now);
        && |store.reports| == |old(store.reports)|
        && (forall i :: 0 <= i < |store.reports| ==>
              store.reports[i] == if old(store.reports)[i].id == report.id
                                  then WithComment(old(store.reports)[i], c)
                                  else old(store.reports)[i])
        && newComment == ""
        && !loading
    {
      if Trim(newComment) == "" || user.None? {
        return;
      }
      loading := true;
      var comment := Comment(commentId, newComment, user.value.id, user.value.name, now);
      var allReports := store.reports;
      store.reports := UpdateById(allReports, report.id, (r: Report) => WithComment(r, comment));
      newComment := "";
      loading := false;
    }
  }
}
