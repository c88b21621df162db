/**
 * The records of the client's data model (src/types/index.ts).
 * ISO date strings are modelled as integer milliseconds since the epoch.
 */
module Types {
  import opened Wrappers

  /** `UserRole` */
  datatype Role = Citizen | Authority

  datatype User = User(id: string, email: string, name: string, role: Role, createdAt: int)

  datatype Status = Pending | InProgress | Resolved | Rejected

  datatype Category = Infrastructure | Safety | Environment | Utilities | Other

  /**
   * An internal note. The author fields are optional because the dashboard stores `user?.id`
   * and `user?.name`, which are undefined when nobody is logged in.
   */
  datatype Note = Note(id: string, text: string, authorId: Option<string>, authorName: Option<string>, timestamp: int)

  datatype Comment = Comment(id: string, text: string, authorId: string, authorName: string, createdAt: int)

  datatype Report = Report(
    id: string,
    title: string,
    description: string,
    category: Category,
    status: Status,
    location: string,
    latitude: Option<real>,
    longitude: Option<real>,
    images: Option<seq<string>>,
    citizenId: string,
    citizenName: string,
    assignedTo: Option<string>,
    assignedToName: Option<string>,
    internalNotes: Option<seq<Note>>,
    comments: Option<seq<Comment>>,
    createdAt: int,
    updatedAt: int,
    resolvedAt: Option<int>,
    isPublic: Option<bool>,
    upvotes: Option<int>,
    downvotes: Option<int>,
    upvotedBy: Option<seq<string>>,
    downvotedBy: Option<seq<string>>)

  /** `user?.id` */
  function IdOf(user: Option<User>): (r: Option<string>)
    ensures r.Some? <==> user.Some?
    ensures user.Some? ==> r.value == user.value.id
  {
    match user
    case Some(u) => Some(u.id)
    case None => None
  }

  /** `user?.name` */
  function NameOf(user: Option<User>): (r: Option<string>)
    ensures r.Some? <==> user.Some?
    ensures user.Some? ==> r.value == user.value.name
  {
    match user
    case Some(u) => Some(u.name)
    case None => None
  }

  /** The stored spelling of a role. */
  function RoleName(r: Role): string {
    match r
    case Citizen => "citizen"
    case Authority => "authority"
  }

  /** Reads a stored role: exactly the two spellings of the union type are accepted. */
  function ParseRole(n: string): (r: Option<Role>)
    ensures r.Some? <==> n == "citizen" || n == "authority"
    ensures r.Some? ==> RoleName(r.value) == n
  {
    if n == "citizen" then Some(Citizen)
    else if n == "authority" then Some(Authority)
    else None
  }

  function StatusName(s: Status): string {
    match s
    case Pending => "pending"
    case InProgress => "in_progress"
    case Resolved => "resolved"
    case Rejected => "rejected"
  }

  /** Reads a stored status: exactly the four spellings of the union type are accepted. */
  function ParseStatus(n: string): (r: Option<Status>)
    ensures r.Some? <==> n == "pending" || n == "in_progress" || n == "resolved" || n == "rejected"
    ensures r.Some? ==> StatusName(r.value) == n
  {
    if n == "pending" then Some(Pending)
    else if n == "in_progress" then Some(InProgress)
    else if n == "resolved" then Some(Resolved)
    else if n == "rejected" then Some(Rejected)
    else None
  }

  function CategoryName(c: Category): string {
    match c
    case Infrastructure => "infrastructure"
    case Safety => "safety"
    case Environment => "environment"
    case Utilities => "utilities"
    case Other => "other"
  }

  /** Reads a stored category: exactly the five spellings of the union type are accepted. */
  function ParseCategory(n: string): (r: Option<Category>)
    ensures r.Some? <==> n == "infrastructure" || n == "safety" || n == "environment" || n == "utilities" || n == "other"
    ensures r.Some? ==> CategoryName(r.value) == n
  {
    if n == "infrastructure" then Some(Infrastructure)
    else if n == "safety" then Some(Safety)
    else if n == "environment" then Some(Environment)
    else if n == "utilities" then Some(Utilities)
    else if n == "other" then Some(Other)
    else None
  }

  /** Every status survives being written out and read back, so a stored status is one of the four. */
  lemma StatusRoundTrip(s: Status)
    ensures ParseStatus(StatusName(s)) == Some(s)
  {
  }

  lemma RoleRoundTrip(r: Role)
    ensures ParseRole(RoleName(r)) == Some(r)
  {
  }

  lemma CategoryRoundTrip(c: Category)
    ensures ParseCategory(CategoryName(c)) == Some(c)
  {
  }
}
