/**
 * The report form (src/components/ReportForm.tsx): submitting a new report or saving an edit.
 * The save path has no ownership or status check; the pending-only rule lives in the citizen
 * dashboard's Edit button.
 */
module ReportForm {
  import opened Wrappers
  import opened Types
  import opened Store

  /** The values of the form's input fields. */
  datatype Fields = Fields(
    title: string,
    description: string,
    category: Category,
    location: string,
    latitude: Option<real>,
    longitude: Option<real>,
    images: seq<string>,
    isPublic: bool)

  /** The report the create branch pushes. */
  function NewReport(id: string, f: Fields, author: User, now: int): Report {
    Report(id, f.title, f.description, f.category, Pending, f.location, f.latitude, f.longitude,
           if |f.images| > 0 then Some(f.images) else None,
           author.id, author.name, None, None, None, None, now, now, None, Some(f.isPublic),
           None, None, None, None)
  }

  /**
   * A new report starts pending, is bound to its author, carries the form's content, has no
   * images field when none were chosen and exactly the chosen list otherwise, and has no
   * assignment, notes, comments, votes or resolution yet.
   */
  lemma NewReportSpec(id: string, f: Fields, author: User, now: int)
    ensures var r := NewReport(id, f, author, now);
      && r.id == id && r.status == Pending
      && r.citizenId == author.id && r.citizenName == author.name
      && r.title == f.title && r.description == f.description && r.category == f.category
      && r.location == f.location && r.latitude == f.latitude && r.longitude == f.longitude
      && (r.images.None? <==> f.images == []) && (r.images.Some? ==> r.images.value == f.images)
      && r.isPublic == Some(f.isPublic)
      && r.createdAt == now && r.updatedAt == now
      && r.assignedTo.None? && r.resolvedAt.None? && r.internalNotes.None? && r.comments.None?
      && r.upvotes.None? && r.downvotes.None? && r.upvotedBy.None? && r.downvotedBy.None?
  {
  }

  /** The record the edit branch writes in place of the report being edited. */
  function Edited(r: Report, f: Fields, now: int): Report {
    r.(title := f.title, description := f.description, category := f.category, location := f.location,
       latitude := f.latitude, longitude := f.longitude, images := Some(f.images),
       isPublic := Some(f.isPublic), updatedAt := now)
  }

  /**
   * An edit replaces the content fields, the public flag and updatedAt, and keeps identity,
   * status (whatever it is), authorship, creation time, assignment, resolution, notes, comments
   * and votes.
   */
  lemma EditedSpec(r: Report, f: Fields, now: int)
    ensures var r' := Edited(r, f, now);
      && r'.title == f.title && r'.description == f.description && r'.category == f.category
      && r'.location == f.location && r'.latitude == f.latitude && r'.longitude == f.longitude
      && r'.images == Some(f.images) && r'.isPublic == Some(f.isPublic) && r'.updatedAt == now
      && r'.id == r.id && r'.status == r.status && r'.citizenId == r.citizenId
      && r'.citizenName == r.citizenName && r'.createdAt == r.createdAt
      && r'.assignedTo == r.assignedTo && r'.assignedToName == r.assignedToName
      && r'.resolvedAt == r.resolvedAt && r'.internalNotes == r.internalNotes && r'.comments == r.comments
      && r'.upvotes == r.upvotes && r'.downvotes == r.downvotes
      && r'.upvotedBy == r.upvotedBy && r'.downvotedBy == r.downvotedBy
  {
  }

  /** What the edit-mode effect loads into the form; the public flag becomes true whatever was stored. */
  function FieldsOf(r: Report): Fields {
    Fields(r.title, r.description, r.category, r.location, r.latitude, r.longitude,
           r.images.GetOr([]), r.isPublic.GetOr(false) || true)
  }

  /**
   * Opening a report for editing and saving it unchanged makes it public and gives it an images
   * list, even when it was private or had no images field; nothing else but updatedAt changes.
   */
  lemma SaveUnchangedMakesPublic(r: Report, now: int)
    ensures Edited(r, FieldsOf(r), now)
         == r.(images := Some(r.images.GetOr([])), isPublic := Some(true), updatedAt := now)
  {
  }

  /** The form component's state. */
  class Form {
    const store: ReportStore
    const user: Option<User>
    const reportToEdit: Option<Report>
    var title: string
    var description: string
    var category: Category
    var location: string
    var latitude: Option<real>
    var longitude: Option<real>
    var images: seq<string>
    var isPublic: bool
    var loading: bool

    constructor (store: ReportStore, user: Option<User>, reportToEdit: Option<Report>)
      ensures this.store == store && this.user == user && this.reportToEdit == reportToEdit
      ensures Current() == Fields("", "", Infrastructure, "", None, None, [], true) && !loading
    {
      this.store := store;
      this.user := user;
      this.reportToEdit := reportToEdit;
      title := "";
      description := "";
      category := Infrastructure;
      location := "";
      latitude := None;
      longitude := None;
      images := [];
      isPublic := true;
      loading := false;
    }

    /** The values the form currently holds. */
    function Current(): Fields
      reads this
    {
      Fields(title, description, category, location, latitude, longitude, images, isPublic)
    }

    /** The edit-mode effect: in edit mode the fields are loaded from the report one by one. */
    method LoadReportToEdit()
      modifies this`title, this`description, this`category, this`location, this`latitude,
               this`longitude, this`images, this`isPublic
      ensures reportToEdit.None? ==> Current() == old(Current())
      ensures reportToEdit.Some? ==> Current() == FieldsOf(reportToEdit.value)
      ensures reportToEdit.Some? ==> isPublic
    {
      if reportToEdit.Some? {
        var r := reportToEdit.value;
        title := r.title;
        description := r.description;
        category := r.category;
        location := r.location;
        latitude := r.latitude;
        longitude := r.longitude;
        images := r.images.GetOr([]);
        isPublic := r.isPublic.GetOr(false) || true;
      }
    }

    /** `handleLocationSelect`: the map picker fills in the coordinates and the address. */
    method SelectLocation(lat: real, lng: real, address: string)
      modifies this`latitude, this`longitude, this`location
      ensures latitude == Some(lat) && longitude == Some(lng) && location == address
    {
      latitude := Some(lat);
      longitude := Some(lng);
      location := address;
    }

    /**
     * `handleSubmit`. In edit mode every stored report with the edited id is rewritten from the
     * form. Otherwise a new pending report by the current user is pushed at the end; without a
     * logged-in user `user!.id` throws, the store is left alone and the error path is taken.
     * Either way loading is set for the duration and reset afterwards.
     */
    method HandleSubmit(newId: string, now: int) returns (ok: bool)
      modifies this`loading, store`reports
      ensures !loading
      ensures reportToEdit.Some? ==>
        && ok
        && |store.reports| == |old(store.reports)|
        && (forall i :: 0 <= i < |store.reports| ==>
              store.reports[i] == if old(store.reports)[i].id == reportToEdit.value.id
                                  then Edited(old(store.reports)[i], Current(), now)
                                  else old(store.reports)[i])
      ensures reportToEdit.None? && user.Some? ==>
        ok && store.reports == old(store.reports) + [NewReport(newId, Current(), user.value, now)]
      ensures reportToEdit.None? && user.None? ==>
        !ok && store.reports == old(store.reports)
    {
      loading := true;
      var existingReports := store.reports;
      var f := Current();
      if reportToEdit.Some? {
        store.reports := UpdateById(existingReports, reportToEdit.value.id, (r: Report) => Edited(r, f, now));
        ok := true;
      } else if user.None? {
        ok := false;
      } else {
        existingReports := existingReports + [NewReport(newId, f, user.value, now)];
        store.reports := existingReports;
        ok := true;
      }
      loading := false;
    }
  }
}
