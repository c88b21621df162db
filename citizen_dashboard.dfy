/** The citizen dashboard (src/components/CitizenDashboard.tsx): the user's own reports and their cards. */
module CitizenDashboard {
  import opened Wrappers
  import opened Types
  import opened Seqs
  import opened Store

  /** `loadReports`: the reports whose author id equals the logged-in user's id. */
  function OwnReports(all: seq<Report>, user: Option<User>): seq<Report> {
    Filter(all, (r: Report) => Some(r.citizenId) == IdOf(user))
  }

  /**
   * The dashboard lists exactly the current user's reports, in store order; nobody logged in
   * means an empty list.
   */
  lemma OwnReportsSpec(all: seq<Report>, user: Option<User>)
    ensures var own := OwnReports(all, user);
      && Subsequence(own, all)
      && (forall i :: 0 <= i < |own| ==> user.Some? && own[i].citizenId == user.value.id)
      && (forall i :: 0 <= i < |all| && user.Some? && all[i].citizenId == user.value.id ==> all[i] in own)
      && (user.None? ==> own == [])
  {
    FilterIsSubsequence(all, (r: Report) => Some(r.citizenId) == IdOf(user));
  }

  /** The Edit button is rendered for pending reports only. */
  predicate EditOffered(r: Report) {
    r.status == Pending
  }

  /** The cards of `reports` that carry an Edit button, in display order. */
  function EditableReports(reports: seq<Report>): (r: seq<Report>)
    ensures Subsequence(r, reports)
    ensures forall i :: 0 <= i < |r| ==> r[i] in reports && r[i].status == Pending
    ensures forall i :: 0 <= i < |reports| && reports[i].status == Pending ==> reports[i] in r
  {
    FilterIsSubsequence(reports, EditOffered);
    Filter(reports, EditOffered)
  }

  /**
   * On the dashboard, the reports offered for editing are exactly the logged-in user's own pending
   * reports; nobody logged in is offered nothing.
   */
  lemma EditableAreOwnPending(all: seq<Report>, user: Option<User>)
    ensures var e := EditableReports(OwnReports(all, user));
      && (forall i :: 0 <= i < |e| ==>
            e[i] in all && user.Some? && e[i].citizenId == user.value.id && e[i].status == Pending)
      && (forall i :: (0 <= i < |all| && user.Some? && all[i].citizenId == user.value.id
                       && all[i].status == Pending) ==> all[i] in e)
  {
    var own := OwnReports(all, user);
    OwnReportsSpec(all, user);
    var e := EditableReports(own);
    forall i | 0 <= i < |e| ensures e[i] in all && user.Some? && e[i].citizenId == user.value.id {
      var j :| 0 <= j < |own| && own[j] == e[i];
    }
    forall i | 0 <= i < |all| && user.Some? && all[i].citizenId == user.value.id && all[i].status == Pending
      ensures all[i] in e
    {
      var j :| 0 <= j < |own| && own[j] == all[i];
    }
  }

  /** The status badge icons. */
  datatype Icon = ClockIcon | LoaderIcon | CheckCircleIcon | XCircleIcon

  function StatusIcon(s: Status): Icon {
    match s
    case Pending => ClockIcon
    case InProgress => LoaderIcon
    case Resolved => CheckCircleIcon
    case Rejected => XCircleIcon
  }

  function StatusColor(s: Status): string {
    match s
    case Pending => "bg-accent text-accent-foreground"
    case InProgress => "bg-primary text-primary-foreground"
    case Resolved => "bg-success text-success-foreground"
    case Rejected => "bg-destructive text-destructive-foreground"
  }

  /** Both badge mappings are defined for every status and tell the four statuses apart. */
  lemma BadgesDistinguishStatuses(s1: Status, s2: Status)
    ensures StatusIcon(s1) == StatusIcon(s2) <==> s1 == s2
    ensures StatusColor(s1) == StatusColor(s2) <==> s1 == s2
  {
  }

  /** The photo strip of a card: at most three thumbnails and the number of further images. */
  datatype Preview = Preview(shown: seq<string>, more: Option<nat>)

  /**
   * No strip without images; otherwise the first three images (or all, if fewer) and a "+k" tile
   * exactly when there are more than three, with k the number not shown.
   */
  function PreviewOf(r: Report): (p: Option<Preview>)
    ensures p.None? <==> r.images.None? || r.images.value == []
    ensures p.Some? ==> var imgs := r.images.value;
      && |p.value.shown| == (if |imgs| < 3 then |imgs| else 3)
      && p.value.shown == imgs[..|p.value.shown|]
      && (p.value.more.Some? <==> |imgs| > 3)
      && (p.value.more.Some? ==> |p.value.shown| + p.value.more.value == |imgs|)
  {
    match r.images
    case None => None
    case Some(imgs) =>
      if imgs == [] then None
      else Some(Preview(imgs[..if |imgs| < 3 then |imgs| else 3],
                        if |imgs| > 3 then Some(|imgs| - 3) else None))
  }

  /** The dashboard's state. */
  class Dashboard {
    const store: ReportStore
    const user: Option<User>
    var reports: seq<Report>
    var showForm: bool
    var reportToEdit: Option<Report>
    var visibleComments: seq<string>

    constructor (store: ReportStore, user: Option<User>)
      ensures this.store == store && this.user == user
      ensures reports == [] && !showForm && reportToEdit.None? && visibleComments == []
    {
      this.store := store;
      this.user := user;
      reports := [];
      showForm := false;
      reportToEdit := None;
      visibleComments := [];
    }

    /** `loadReports` */
    method LoadReports()
      modifies this`reports
      ensures reports == OwnReports(store.reports, user)
    {
      reports := OwnReports(store.reports, user);
    }

    /** `handleEdit`: opens the form on the chosen report; the handler itself checks no status. */
    method HandleEdit(report: Report)
      modifies this`reportToEdit, this`showForm
      ensures reportToEdit == Some(report) && showForm
    {
      reportToEdit := Some(report);
      showForm := true;
    }

    /** The form's `onSuccess` and the back button: close the form and reload. */
    method CloseForm()
      modifies this`showForm, this`reportToEdit, this`reports
      ensures !showForm && reportToEdit.None? && reports == OwnReports(store.reports, user)
    {
      showForm := false;
      reportToEdit := None;
      LoadReports();
    }

    /** `toggleComments` */
    method ToggleComments(reportId: string)
      modifies this`visibleComments
      ensures visibleComments == Toggled(old(visibleComments), reportId)
    {
      visibleComments := Toggled(visibleComments, reportId);
    }

    /** The four counters over the user's own reports. */
    function Counters(): (s: Stats)
      reads this
      ensures s.total == |reports|
      ensures s.pending == CountStatus(reports, Pending)
      ensures s.inProgress == CountStatus(reports, InProgress)
      ensures s.resolved == CountStatus(reports, Resolved)
      ensures s.pending + s.inProgress + s.resolved <= s.total
    {
      StatsOf(reports)
    }
  }
}
