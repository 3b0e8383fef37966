/** The crisis app: crisis posts and their sections (crisis/models.py), the owner-or-read-only
    permission (crisis/permissions.py) and the post view set (crisis/views.py). */
module Crisis {
  import opened Common
  import opened Accounts
  import Seqs

  // ---------------------------------------------------------------------------------------
  // Closed choices and their stored codes

  datatype PostType = National | District | Individual

  function PostTypeCode(t: PostType): string
  {
    match t
    case National => "national"
    case District => "district"
    case Individual => "individual"
  }

  /** The choice field's check: a stored string names a post type exactly when it is one of
      the three codes. */
  function ParsePostType(s: string): (r: Option<PostType>)
    ensures r.Some? ==> PostTypeCode(r.value) == s
    ensures r.None? <==> s !in {"national", "district", "individual"}
  {
    if s == "national" then Some(National)
    else if s == "district" then Some(District)
    else if s == "individual" then Some(Individual)
    else None
  }

  lemma {:induction false} PostTypeRoundTrip(t: PostType)
    ensures ParsePostType(PostTypeCode(t)) == Some(t)
  {
    match t
    case National =>
    case District =>
    case Individual =>
  }

  datatype PostStatus = Pending | Approved | Rejected

  function PostStatusCode(s: PostStatus): string
  {
    match s
    case Pending => "pending"
    case Approved => "approved"
    case Rejected => "rejected"
  }

  function ParsePostStatus(s: string): (r: Option<PostStatus>)
    ensures r.Some? ==> PostStatusCode(r.value) == s
    ensures r.None? <==> s !in {"pending", "approved", "rejected"}
  {
    if s == "pending" then Some(Pending)
    else if s == "approved" then Some(Approved)
    else if s == "rejected" then Some(Rejected)
    else None
  }

  lemma {:induction false} PostStatusRoundTrip(s: PostStatus)
    ensures ParsePostStatus(PostStatusCode(s)) == Some(s)
  {
    match s
    case Pending =>
    case Approved =>
    case Rejected =>
  }

  /** The status a post gets when none is supplied. */
  const DefaultPostStatus := Pending

  datatype SectionKind = Shelter | ResourcesGoods | FundCollection | Hotline | Distribution | CrisisUpdates

  function SectionKindCode(k: SectionKind): string
  {
    match k
    case Shelter => "shelter"
    case ResourcesGoods => "resources"
    case FundCollection => "fund"
    case Hotline => "hotline"
    case Distribution => "distribution"
    case CrisisUpdates => "updates"
  }

  // ---------------------------------------------------------------------------------------
  // Rows

  /** A CrisisPost row (the banner image is not modelled). */
  datatype CrisisPost = CrisisPost(
    id: Id,
    title: string,
    description: string,
    postType: PostType,
    location: Option<string>,
    owner: Id,
    status: PostStatus,
    createdAt: Time,
    updatedAt: Time)

  /** A PostSection row; `createdBy` is cleared when its user is deleted. */
  datatype PostSection = PostSection(
    id: Id,
    post: Id,
    kind: SectionKind,
    content: Option<string>,
    createdBy: Option<Id>,
    createdAt: Time)

  /** `owner_name`: the owner's username. The owner is a required foreign key. */
  function OwnerName(p: CrisisPost, users: map<Id, User>): (name: string)
    requires p.owner in users
    ensures name == users[p.owner].username
  {
    users[p.owner].username
  }

  const UnknownCreator := "Unknown"

  /** `creator_name`: the creator's username, or "Unknown" once the creator is gone. */
  function CreatorName(s: PostSection, users: map<Id, User>): (name: string)
    requires s.createdBy.Some? ==> s.createdBy.value in users
    ensures s.createdBy.None? ==> name == UnknownCreator
    ensures s.createdBy.Some? ==> name == users[s.createdBy.value].username
  {
    match s.createdBy
    case None => UnknownCreator
    case Some(uid) => users[uid].username
  }

  /** `str(post)`: "title (post_type)", as the volunteer serializers show a post. */
  function PostLabel(p: CrisisPost): (str: string)
    ensures |str| == |p.title| + 3 + |PostTypeCode(p.postType)|
    ensures str[..|p.title|] == p.title
    ensures str[|p.title|..] == " (" + PostTypeCode(p.postType) + ")"
  {
    p.title + " (" + PostTypeCode(p.postType) + ")"
  }

  /** The label names the post's title and type unambiguously: the fourth character from the end
      is different for each type, which fixes the title's length. */
  lemma PostLabelInjective(p: CrisisPost, q: CrisisPost)
    requires PostLabel(p) == PostLabel(q)
    ensures p.title == q.title && p.postType == q.postType
  {
    var l := PostLabel(p);
    var cp, cq := PostTypeCode(p.postType), PostTypeCode(q.postType);
    assert l[|l| - 4] == cp[|cp| - 3] == cq[|cq| - 3];
    assert p.postType == q.postType;
    assert p.title == l[..|p.title|] == q.title;
  }

  /** The post with primary key `id`. */
  function FindPost(posts: seq<CrisisPost>, id: Id): (r: Option<CrisisPost>)
    ensures r.Some? ==> r.value in posts && r.value.id == id
    ensures r.None? <==> forall p :: p in posts ==> p.id != id
  {
    Seqs.Find(posts, (p: CrisisPost) => p.id == id)
  }

  /** The primary key of a post row. */
  function PostKey(p: CrisisPost): Id
  {
    p.id
  }

  /** The table holds one row per primary key. */
  predicate UniqueIds(posts: seq<CrisisPost>)
  {
    Seqs.DistinctBy(posts, PostKey)
  }

  /** In a table with one row per key, the lookup finds the row holding that key. */
  lemma FindPostUnique(posts: seq<CrisisPost>, p: CrisisPost)
    requires UniqueIds(posts) && p in posts
    ensures FindPost(posts, p.id) == Some(p)
  {
    var q := FindPost(posts, p.id).value;
    Seqs.DistinctByKeyDetermines(posts, PostKey, p, q);
  }

  // ---------------------------------------------------------------------------------------
  // Creating and editing through CrisisPostSerializer

  /** The writable serializer fields: `owner` is read-only, `location` is not a serializer
      field, and `status` is writable. */
  datatype PostInput = PostInput(
    title: string,
    description: string,
    postType: PostType,
    status: Option<PostStatus>)

  /** `perform_create`: save with `owner=request.user`; an omitted status takes the default. */
  function NewPost(input: PostInput, owner: Id, id: Id, now: Time): (p: CrisisPost)
    ensures p.id == id && p.owner == owner
    ensures p.status == (if input.status.Some? then input.status.value else Pending)
    ensures input.status.None? ==> p.status == Pending
    ensures p.title == input.title && p.description == input.description && p.postType == input.postType
    ensures p.location.None? && p.createdAt == now && p.updatedAt == now
  {
    var status := match input.status case Some(s) => s case None => DefaultPostStatus;
    CrisisPost(id, input.title, input.description, input.postType, None, owner, status, now, now)
  }

  /** A PUT supplies every required field; a PATCH any subset. */
  datatype PostPatch = PostPatch(
    title: Option<string>,
    description: Option<string>,
    postType: Option<PostType>,
    status: Option<PostStatus>)

  /** A full update must carry the required fields `title`, `description` and `post_type`. */
  function ValidatePostPatch(patch: PostPatch, partial: bool): (r: Outcome)
    ensures r.Pass? <==> partial || (patch.title.Some? && patch.description.Some? && patch.postType.Some?)
    ensures r.Fail? ==> r.error.ValidationFailed? && |r.error.errors| > 0
  {
    var missing :=
      (if patch.title.None? then [FieldError("title", RequiredMessage)] else [])
      + (if patch.description.None? then [FieldError("description", RequiredMessage)] else [])
      + (if patch.postType.None? then [FieldError("post_type", RequiredMessage)] else []);
    if partial || missing == [] then Pass else Fail(ValidationFailed(missing))
  }

  /** Saving the serializer: supplied fields replace the stored ones, `updated_at` is renewed,
      and the primary key, owner, location and creation time stay. */
  function ApplyPostPatch(p: CrisisPost, patch: PostPatch, now: Time): (q: CrisisPost)
    ensures q.id == p.id && q.owner == p.owner && q.location == p.location && q.createdAt == p.createdAt
    ensures q.updatedAt == now
    ensures q.title == (if patch.title.Some? then patch.title.value else p.title)
    ensures q.description == (if patch.description.Some? then patch.description.value else p.description)
    ensures q.postType == (if patch.postType.Some? then patch.postType.value else p.postType)
    ensures q.status == (if patch.status.Some? then patch.status.value else p.status)
  {
    p.(title := if patch.title.Some? then patch.title.value else p.title,
       description := if patch.description.Some? then patch.description.value else p.description,
       postType := if patch.postType.Some? then patch.postType.value else p.postType,
       status := if patch.status.Some? then patch.status.value else p.status,
       updatedAt := now)
  }

  /** Because `status` is a writable field, an owner's own edit can move a pending post to
      approved; no staff action is involved. */
  lemma OwnerCanApproveOwnPost(p: CrisisPost, now: Time)
    requires p.status == Pending
    ensures var patch := PostPatch(None, None, None, Some(Approved));
            ValidatePostPatch(patch, true).Pass? && ApplyPostPatch(p, patch, now).status == Approved
            && PostObjectAccess(PATCH, Authenticated(User(p.owner, "", "", "", false, true, "", map[])), p).Pass?
  {
  }

  // ---------------------------------------------------------------------------------------
  // crisis/permissions.py and the view set's permission chain

  /** IsOwnerOrReadOnly.has_object_permission. */
  function IsOwnerOrReadOnly(m: Method, r: Requester, p: CrisisPost): (allowed: bool)
    ensures IsSafe(m) ==> allowed
    ensures !IsSafe(m) ==> (allowed <==> IsRequester(r, p.owner))
  {
    if IsSafe(m) then true else IsRequester(r, p.owner)
  }

  /** The view-level check of `[IsAuthenticatedOrReadOnly, IsOwnerOrReadOnly]`, run on every
      request including list and create. */
  function PostViewAccess(m: Method, r: Requester): (res: Outcome)
    ensures res.Pass? <==> IsSafe(m) || r.Authenticated?
    ensures res.Fail? ==> res.error == NotAuthenticated
  {
    if IsAuthenticatedOrReadOnly(m, r) then Pass else Fail(Deny(r))
  }

  /** The whole chain for a request on one post: the view-level check, then each class's
      object-level check. */
  function PostObjectAccess(m: Method, r: Requester, p: CrisisPost): (res: Outcome)
    ensures res.Pass? <==> IsSafe(m) || IsRequester(r, p.owner)
    ensures res.Fail? ==> res.error == Deny(r)
  {
    match PostViewAccess(m, r)
    case Fail(e) => Fail(e)
    case Pass => if IsOwnerOrReadOnly(m, r, p) then Pass else Fail(Deny(r))
  }

  /** The decision ignores the post's status. */
  lemma PostAccessIgnoresStatus(m: Method, r: Requester, p: CrisisPost, s: PostStatus)
    ensures PostObjectAccess(m, r, p.(status := s)) == PostObjectAccess(m, r, p)
  {
  }

  /** Staff get no exemption: a staff user who does not own the post cannot change it. */
  lemma StaffNotExempt(m: Method, u: User, p: CrisisPost)
    requires !IsSafe(m) && u.isStaff && u.id != p.owner
    ensures PostObjectAccess(m, Authenticated(u), p) == Fail(PermissionDenied)
  {
  }

  /** Creating a post needs only an authenticated requester. */
  lemma CreateNeedsAuthentication(r: Requester)
    ensures PostViewAccess(POST, r).Pass? <==> r.Authenticated?
  {
  }

  // ---------------------------------------------------------------------------------------
  // Listing: all posts, no status filter, ordered by the `ordering` query parameter

  /** The orderings the view accepts: `created_at` or `updated_at`, ascending or descending. */
  datatype PostOrdering = PostOrdering(byUpdated: bool, descending: bool)

  /** The queryset's own ordering, `-created_at`. */
  const DefaultOrdering := PostOrdering(false, true)

  function ParseOrderingTerm(term: string): Option<PostOrdering>
  {
    if term == "created_at" then Some(PostOrdering(false, false))
    else if term == "-created_at" then Some(PostOrdering(false, true))
    else if term == "updated_at" then Some(PostOrdering(true, false))
    else if term == "-updated_at" then Some(PostOrdering(true, true))
    else None
  }

  /** The ordering filter keeps the terms naming an allowed field; the first of them decides the
      order, and with none the default ordering stands. */
  function ChooseOrdering(terms: seq<string>): (o: PostOrdering)
    ensures (forall t :: t in terms ==> ParseOrderingTerm(t).None?) ==> o == DefaultOrdering
    ensures forall k :: 0 <= k < |terms| && ParseOrderingTerm(terms[k]).Some?
                        && (forall j :: 0 <= j < k ==> ParseOrderingTerm(terms[j]).None?)
                        ==> o == ParseOrderingTerm(terms[k]).value
  {
    if terms == [] then DefaultOrdering
    else match ParseOrderingTerm(terms[0])
      case Some(o) => o
      case None =>
        var rest := terms[1..];
        assert forall k :: 0 < k < |terms| ==> terms[k] == rest[k - 1];
        ChooseOrdering(rest)
  }

  /** The sort key of an ordering; an ascending order sorts descending on the negated key. */
  function OrderingKey(o: PostOrdering): CrisisPost -> int
  {
    if o.byUpdated then
      (if o.descending then (p: CrisisPost) => p.updatedAt else (p: CrisisPost) => -p.updatedAt)
    else
      (if o.descending then (p: CrisisPost) => p.createdAt else (p: CrisisPost) => -p.createdAt)
  }

  /** The list action: every post, whatever its status, in the requested order. */
  function ListPosts(posts: seq<CrisisPost>, ordering: seq<string>): (r: seq<CrisisPost>)
    ensures multiset(r) == multiset(posts)
    ensures Seqs.SortedDesc(r, OrderingKey(ChooseOrdering(ordering)))
  {
    Seqs.SortDesc(posts, OrderingKey(ChooseOrdering(ordering)))
  }

  /** Without an ordering parameter the list is newest first by `created_at`. */
  lemma ListNewestFirst(posts: seq<CrisisPost>)
    ensures forall i, j :: 0 <= i < j < |ListPosts(posts, [])| ==>
              ListPosts(posts, [])[i].createdAt >= ListPosts(posts, [])[j].createdAt
  {
    var r := ListPosts(posts, []);
    forall i, j | 0 <= i < j < |r| ensures r[i].createdAt >= r[j].createdAt {
      assert OrderingKey(DefaultOrdering)(r[i]) >= OrderingKey(DefaultOrdering)(r[j]);
    }
  }

  /** The list hides nothing: pending and rejected posts are listed like approved ones. */
  lemma ListShowsEveryPost(posts: seq<CrisisPost>, ordering: seq<string>, p: CrisisPost)
    requires p in posts
    ensures p in ListPosts(posts, ordering)
  {
    assert p in multiset(posts);
  }
}
