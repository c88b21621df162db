/**
 * The authority dashboard (src/components/AuthorityDashboard.tsx): status updates and internal
 * notes that rewrite one stored report, and the filter and counter views over the loaded reports.
 * No handler checks the acting user's role or the report's current status.
 */
module AuthorityDashboard {
  import opened Wrappers
  import opened Types
  import opened Seqs
  import opened Text
  import opened Store

  /** The record `updateReportStatus` writes in place of a report whose id matches. */
  function WithStatus(r: Report, newStatus: Status, user: Option<User>, now: int): Report {
    r.(status := newStatus,
       assignedTo := if newStatus == InProgress then IdOf(user) else r.assignedTo,
       assignedToName := if newStatus == InProgress then NameOf(user) else r.assignedToName,
       updatedAt := now,
       resolvedAt := if newStatus == Resolved then Some(now) else r.resolvedAt)
  }

  /** `r'` agrees with `r` on every field outside the lifecycle ones (status, assignment, timestamps). */
  predicate SameOutsideLifecycle(r: Report, r': Report) {
    r' == r.(status := r'.status, assignedTo := r'.assignedTo, assignedToName := r'.assignedToName,
             updatedAt := r'.updatedAt, resolvedAt := r'.resolvedAt)
  }

  /**
   * A status update accepts every target status whatever the current one. Moving to in_progress
   * assigns the acting user even over an existing assignment; moving to resolved stamps resolvedAt
   * every time; every other field outside the lifecycle is kept.
   */
  lemma StatusUpdateEffect(r: Report, newStatus: Status, user: Option<User>, now: int)
    ensures var r' := WithStatus(r, newStatus, user, now);
      && r'.id == r.id
      && r'.status == newStatus
      && r'.updatedAt == now
      && (newStatus == InProgress ==> r'.assignedTo == IdOf(user) && r'.assignedToName == NameOf(user))
      && (newStatus != InProgress ==> r'.assignedTo == r.assignedTo && r'.assignedToName == r.assignedToName)
      && (newStatus == Resolved ==> r'.resolvedAt == Some(now))
      && (newStatus != Resolved ==> r'.resolvedAt == r.resolvedAt)
      && SameOutsideLifecycle(r, r')
  {
  }

  /**
   * resolvedAt is not set once: leaving resolved keeps the old stamp, and resolving again overwrites it.
   */
  lemma ResolvedAtHistory(r: Report, user: Option<User>, t1: int, next: Status, t2: int)
    ensures var r1 := WithStatus(r, Resolved, user, t1);
      WithStatus(r1, next, user, t2).resolvedAt == if next == Resolved then Some(t2) else Some(t1)
  {
  }

  /** The record `addInternalNote` writes: the note appended at the end, updatedAt refreshed. */
  function WithNote(r: Report, note: Note, now: int): Report {
    r.(internalNotes := Some(r.internalNotes.GetOr([]) + [note]), updatedAt := now)
  }

  /** Notes are append-only: the old notes (none when absent) are a prefix and the new one is last. */
  lemma NoteEffect(r: Report, note: Note, now: int)
    ensures var r' := WithNote(r, note, now);
      && r'.internalNotes.Some?
      && |r'.internalNotes.value| == |r.internalNotes.GetOr([])| + 1
      && r'.internalNotes.value[..|r.internalNotes.GetOr([])|] == r.internalNotes.GetOr([])
      && r'.internalNotes.value[|r'.internalNotes.value| - 1] == note
      && r'.updatedAt == now
      && r' == r.(internalNotes := r'.internalNotes, updatedAt := now)
  {
    var old_ := r.internalNotes.GetOr([]);
    assert (old_ + [note])[..|old_|] == old_;
  }

  /** The status selector: `'all'` or one status. */
  datatype StatusFilter = AllStatuses | OnlyStatus(status: Status)

  /** The category selector: `'all'` or one category. */
  datatype CategoryFilter = AllCategories | OnlyCategory(category: Category)

  predicate StatusPasses(f: StatusFilter, r: Report) {
    f.AllStatuses? || r.status == f.status
  }

  predicate CategoryPasses(f: CategoryFilter, r: Report) {
    f.AllCategories? || r.category == f.category
  }

  /** An empty query, or a case-insensitive substring of the title, description or location. */
  predicate QueryPasses(q: string, r: Report) {
    q == "" || Contains(Lower(r.title), Lower(q)) || Contains(Lower(r.description), Lower(q))
    || Contains(Lower(r.location), Lower(q))
  }

  predicate Matches(sf: StatusFilter, cf: CategoryFilter, q: string, r: Report) {
    StatusPasses(sf, r) && CategoryPasses(cf, r) && QueryPasses(q, r)
  }

  /** `filteredReports`: the three chained filters of the dashboard. */
  function FilteredReports(reports: seq<Report>, sf: StatusFilter, cf: CategoryFilter, q: string): seq<Report> {
    Filter(Filter(Filter(reports, (r: Report) => StatusPasses(sf, r)),
                  (r: Report) => CategoryPasses(cf, r)),
           (r: Report) => QueryPasses(q, r))
  }

  /**
   * The filtered list is the order-preserving subsequence of exactly the reports that pass all
   * three selectors.
   */
  lemma FilteredReportsSpec(reports: seq<Report>, sf: StatusFilter, cf: CategoryFilter, q: string)
    ensures var out := FilteredReports(reports, sf, cf, q);
      && out == Filter(reports, (r: Report) => Matches(sf, cf, q, r))
      && Subsequence(out, reports)
      && (forall i :: 0 <= i < |out| ==> Matches(sf, cf, q, out[i]))
      && (forall i :: 0 <= i < |reports| && Matches(sf, cf, q, reports[i]) ==> reports[i] in out)
  {
    var ps := (r: Report) => StatusPasses(sf, r);
    var pc := (r: Report) => CategoryPasses(cf, r);
    var pq := (r: Report) => QueryPasses(q, r);
    var psc := (r: Report) => StatusPasses(sf, r) && CategoryPasses(cf, r);
    var all := (r: Report) => Matches(sf, cf, q, r);
    FilterFilter(reports, ps, pc, psc);
    FilterFilter(reports, psc, pq, all);
    FilterIsSubsequence(reports, all);
  }

  /** With both selectors on 'all' and an empty query every report is shown, in store order. */
  lemma UnfilteredShowsAll(reports: seq<Report>)
    ensures FilteredReports(reports, AllStatuses, AllCategories, "") == reports
  {
    FilteredReportsSpec(reports, AllStatuses, AllCategories, "");
    FilterAll(reports, (r: Report) => Matches(AllStatuses, AllCategories, "", r));
  }

  /** The dashboard component's state. */
  class Dashboard {
    const store: ReportStore
    const user: Option<User>
    var reports: seq<Report>
    var selectedReport: Option<Report>
    var internalNote: string

    constructor (store: ReportStore, user: Option<User>)
      ensures this.store == store && this.user == user
      ensures reports == [] && selectedReport == None && internalNote == ""
    {
      this.store := store;
      this.user := user;
      reports := [];
      selectedReport := None;
      internalNote := "";
    }

    /** `loadReports`: the view shows the whole stored collection. */
    method LoadReports()
      modifies this`reports
      ensures reports == store.reports
    {
      reports := store.reports;
    }

    /** `updateReportStatus`: rewrites every report with the id, leaves every other report alone. */
    method UpdateReportStatus(reportId: string, newStatus: Status, now: int)
      modifies store`reports, this`reports
      ensures |store.reports| == |old(store.reports)|
      ensures forall i :: 0 <= i < |store.reports| ==>
        store.reports[i] == if old(store.reports)[i].id == reportId
                            then WithStatus(old(store.reports)[i], newStatus, user, now)
                            else old(store.reports)[i]
      ensures reports == store.reports
    {
      var allReports := store.reports;
      store.reports := UpdateById(allReports, reportId, (r: Report) => WithStatus(r, newStatus, user, now));
      LoadReports();
    }

    /** `openReportDetail` */
    method OpenReportDetail(report: Report)
      modifies this`selectedReport
      ensures selectedReport == Some(report)
    {
      selectedReport := Some(report);
    }

    /** The note text box. */
    method EditNote(text: string)
      modifies this`internalNote
      ensures internalNote == text
    {
      internalNote := text;
    }

    /**
     * `addInternalNote`: nothing happens without a selected report or with a blank note; otherwise
     * the untrimmed text is appended as a note by the current user to every report with the
     * selected id, and the text box is cleared.
     */
    method AddInternalNote(noteId: string, now: int)
      modifies store`reports, this`reports, this`internalNote
      ensures selectedReport.None? || Trim(old(internalNote)) == "" ==>
        store.reports == old(store.reports) && reports == old(reports) && internalNote == old(internalNote)
      ensures selectedReport.Some? && Trim(old(internalNote)) != "" ==>
        var note := Note(noteId, old(internalNote), IdOf(user), NameOf(user), now);
        && |store.reports| == |old(store.reports)|
        && (forall i :: 0 <= i < |store.reports| ==>
              store.reports[i] == if old(store.reports)[i].id == selectedReport.value.id
                                  then WithNote(old(store.reports)[i], note, now)
                                  else old(store.reports)[i])
        && reports == store.reports
        && internalNote == ""
    {
      if selectedReport.None? || Trim(internalNote) == "" {
        return;
      }
      var note := Note(noteId, internalNote, IdOf(user), NameOf(user), now);
      var allReports := store.reports;
      store.reports := UpdateById(allReports, selectedReport.value.id, (r: Report) => WithNote(r, note, now));
      LoadReports();
      internalNote := "";
    }
  }
}
