/** The updates app: progress updates on a crisis post and comments on them (updates/models.py),
    their permission classes (updates/permissions.py), the create and edit serializers
    (updates/serializers.py), the list views (updates/views.py) and the admin list helpers
    (updates/admin.py). */
module Updates {
  import opened Common
  import opened Accounts
  import Crisis
  import Volunteers
  import Seqs
  import Display

  /** A CrisisUpdate row (the image is not modelled). Both foreign keys cascade. */
  datatype CrisisUpdate = CrisisUpdate(
    id: Id,
    post: Id,
    createdBy: Id,
    title: string,
    description: string,
    createdAt: Time,
    updatedAt: Time)

  /** A Comment row. Both foreign keys cascade. */
  datatype Comment = Comment(
    id: Id,
    update: Id,
    user: Id,
    text: string,
    createdAt: Time,
    updatedAt: Time)

  /** The update with primary key `id`, as the detail view's `get_object` loads it. */
  function FindUpdate(updates: seq<CrisisUpdate>, id: Id): (r: Option<CrisisUpdate>)
    ensures r.Some? ==> r.value in updates && r.value.id == id
    ensures r.None? <==> forall u :: u in updates ==> u.id != id
  {
    Seqs.Find(updates, (u: CrisisUpdate) => u.id == id)
  }

  /** The comment with primary key `id`. */
  function FindComment(comments: seq<Comment>, id: Id): (r: Option<Comment>)
    ensures r.Some? ==> r.value in comments && r.value.id == id
    ensures r.None? <==> forall c :: c in comments ==> c.id != id
  {
    Seqs.Find(comments, (c: Comment) => c.id == id)
  }

  // ---------------------------------------------------------------------------------------
  // updates/models.py: properties

  /** `creator_name`: the creator's username. */
  function CreatorName(u: CrisisUpdate, users: map<Id, User>): (name: string)
    requires u.createdBy in users
    ensures name == users[u.createdBy].username
  {
    users[u.createdBy].username
  }

  /** `creator_email`: the creator's email address. */
  function CreatorEmail(u: CrisisUpdate, users: map<Id, User>): (email: string)
    requires u.createdBy in users
    ensures email == users[u.createdBy].email
  {
    users[u.createdBy].email
  }

  /** `commenter_name`: the author's username. */
  function CommenterName(c: Comment, users: map<Id, User>): (name: string)
    requires c.user in users
    ensures name == users[c.user].username
  {
    users[c.user].username
  }

  /** Whether a comment is attached to the update with key `updateId`. */
  predicate OnUpdate(c: Comment, updateId: Id)
  {
    c.update == updateId
  }

  /** `total_comments`: the number of comments attached to the update. */
  function TotalComments(u: CrisisUpdate, comments: seq<Comment>): (n: nat)
    ensures n <= |comments|
    ensures n == 0 <==> forall c :: c in comments ==> c.update != u.id
  {
    var attached := Seqs.Filter(comments, (c: Comment) => OnUpdate(c, u.id));
    assert attached != [] ==> attached[0] in attached;
    |attached|
  }

  /** A new comment counts for its own update only. */
  lemma TotalCommentsAfterComment(u: CrisisUpdate, comments: seq<Comment>, c: Comment)
    ensures TotalComments(u, comments + [c]) == TotalComments(u, comments) + (if c.update == u.id then 1 else 0)
  {
    Seqs.FilterAppend(comments, c, (x: Comment) => OnUpdate(x, u.id));
  }

  // ---------------------------------------------------------------------------------------
  // updates/permissions.py

  /** IsUpdateCreatorOrReadOnly.has_object_permission. */
  function IsUpdateCreatorOrReadOnly(m: Method, r: Requester, u: CrisisUpdate): (allowed: bool)
    ensures IsSafe(m) ==> allowed
    ensures !IsSafe(m) ==> (allowed <==> IsRequester(r, u.createdBy))
  {
    if IsSafe(m) then true else IsRequester(r, u.createdBy)
  }

  /** IsCommentOwnerOrReadOnly.has_object_permission. */
  function IsCommentOwnerOrReadOnly(m: Method, r: Requester, c: Comment): (allowed: bool)
    ensures IsSafe(m) ==> allowed
    ensures !IsSafe(m) ==> (allowed <==> IsRequester(r, c.user))
  {
    if IsSafe(m) then true else IsRequester(r, c.user)
  }

  /** CanCreateUpdate.has_permission: only a POST is checked, and then only for authentication;
      the staff branch and the final branch both allow. */
  function CanCreateUpdate(m: Method, r: Requester): (allowed: bool)
    ensures m != POST ==> allowed
    ensures m == POST ==> (allowed <==> r.Authenticated?)
  {
    if m != POST then true
    else if !r.Authenticated? then false
    else if r.user.isStaff then true
    else true
  }

  /** CreateCrisisUpdateView's `[IsAuthenticated, CanCreateUpdate]`. */
  function CreateUpdateAccess(m: Method, r: Requester): (res: Outcome)
    ensures res.Pass? <==> r.Authenticated?
    ensures res.Fail? ==> res.error == NotAuthenticated
  {
    if !IsAuthenticated(r) then Fail(Deny(r))
    else if !CanCreateUpdate(m, r) then Fail(Deny(r))
    else Pass
  }

  /** After IsAuthenticated, CanCreateUpdate never refuses: the per-post decision is the
      serializer's. */
  lemma CanCreateUpdateAddsNothing(m: Method, r: Requester)
    requires IsAuthenticated(r)
    ensures CanCreateUpdate(m, r)
  {
  }

  /** CrisisUpdateDetailView's chain: the view-level IsAuthenticatedOrReadOnly, then the
      creator check on the loaded update. */
  function UpdateObjectAccess(m: Method, r: Requester, u: CrisisUpdate): (res: Outcome)
    ensures res.Pass? <==> IsSafe(m) || IsRequester(r, u.createdBy)
    ensures res.Fail? ==> res.error == Deny(r)
  {
    if !IsAuthenticatedOrReadOnly(m, r) then Fail(Deny(r))
    else if !IsUpdateCreatorOrReadOnly(m, r, u) then Fail(Deny(r))
    else Pass
  }

  /** CommentDetailView's chain. */
  function CommentObjectAccess(m: Method, r: Requester, c: Comment): (res: Outcome)
    ensures res.Pass? <==> IsSafe(m) || IsRequester(r, c.user)
    ensures res.Fail? ==> res.error == Deny(r)
  {
    if !IsAuthenticatedOrReadOnly(m, r) then Fail(Deny(r))
    else if !IsCommentOwnerOrReadOnly(m, r, c) then Fail(Deny(r))
    else Pass
  }

  /** Neither the post's owner nor staff may edit someone else's update or comment. */
  lemma OnlyAuthorsWrite(m: Method, u: User, upd: CrisisUpdate, c: Comment)
    requires !IsSafe(m) && u.id != upd.createdBy && u.id != c.user
    ensures UpdateObjectAccess(m, Authenticated(u), upd) == Fail(PermissionDenied)
    ensures CommentObjectAccess(m, Authenticated(u), c) == Fail(PermissionDenied)
  {
  }

  // ---------------------------------------------------------------------------------------
  // updates/serializers.py: creating updates

  /** CrisisUpdateCreateSerializer's writable fields (the image aside): `created_by` is not one. */
  datatype UpdateInput = UpdateInput(crisisPost: Id, title: string, description: string)

  const GateMessage := "You must be the post owner or an approved volunteer to create updates."

  /** Whether `uid` holds an approved application on the post. */
  predicate IsApprovedVolunteer(apps: seq<Volunteers.VolunteerApplication>, uid: Id, post: Id)
  {
    exists a :: a in apps && a.user == uid && a.post == post && a.status == Volunteers.Approved
  }

  /** The approved-volunteer query, `filter(user=..., crisis_post=..., status='approved').exists()`. */
  function ApprovedVolunteerQuery(apps: seq<Volunteers.VolunteerApplication>, uid: Id, post: Id): (found: bool)
    ensures found <==> IsApprovedVolunteer(apps, uid, post)
  {
    var matching := Seqs.Filter(apps, (a: Volunteers.VolunteerApplication) =>
                                        a.user == uid && a.post == post && a.status == Volunteers.Approved);
    assert matching != [] ==> matching[0] in matching;
    matching != []
  }

  /** `validate_crisis_post`: staff pass, the post's owner passes, and otherwise the user needs an
      approved application on that post. The post's own status is not consulted. */
  function ValidateUpdatePost(user: User, post: Crisis.CrisisPost, apps: seq<Volunteers.VolunteerApplication>): (r: Result<Crisis.CrisisPost, FieldError>)
    ensures r.Ok? <==> user.isStaff || post.owner == user.id || IsApprovedVolunteer(apps, user.id, post.id)
    ensures r.Ok? ==> r.value == post
    ensures r.Err? ==> r.error == FieldError("crisis_post", GateMessage)
  {
    if user.isStaff then Ok(post)
    else if post.owner == user.id then Ok(post)
    else if !ApprovedVolunteerQuery(apps, user.id, post.id) then Err(FieldError("crisis_post", GateMessage))
    else Ok(post)
  }

  /** The gate ignores the post's status. */
  lemma GateIgnoresPostStatus(user: User, post: Crisis.CrisisPost, apps: seq<Volunteers.VolunteerApplication>, s: Crisis.PostStatus)
    ensures ValidateUpdatePost(user, post.(status := s), apps).Ok? == ValidateUpdatePost(user, post, apps).Ok?
  {
  }

  /** An applicant whose application is pending or rejected is refused, unless staff or owner. */
  lemma UndecidedApplicantRefused(user: User, post: Crisis.CrisisPost, apps: seq<Volunteers.VolunteerApplication>)
    requires Volunteers.UniquePairs(apps)
    requires !user.isStaff && post.owner != user.id
    requires exists a :: a in apps && a.user == user.id && a.post == post.id && a.status != Volunteers.Approved
    ensures ValidateUpdatePost(user, post, apps) == Err(FieldError("crisis_post", GateMessage))
  {
    var a :| a in apps && a.user == user.id && a.post == post.id && a.status != Volunteers.Approved;
    forall b | b in apps && b.user == user.id && b.post == post.id
      ensures b.status != Volunteers.Approved
    {
      Volunteers.ApplicationOfPairUnique(apps, a, b);
    }
  }

  /** Approving an application opens the gate for that volunteer on that post. */
  lemma ApprovalOpensGate(user: User, post: Crisis.CrisisPost, apps: seq<Volunteers.VolunteerApplication>, i: nat)
    requires i < |apps| && apps[i].user == user.id && apps[i].post == post.id
    ensures ValidateUpdatePost(user, post, apps[i := Volunteers.Decide(apps[i], Volunteers.Approved)]).Ok?
  {
    var after := apps[i := Volunteers.Decide(apps[i], Volunteers.Approved)];
    assert after[i] in after;
  }

  /** The `crisis_post` field: an unknown key is a related-field error, a known one goes to the
      gate. Field errors are keyed by field, so `title` and `description`, which only need to be
      present, add none here. */
  function ValidateUpdate(input: UpdateInput, user: User, posts: seq<Crisis.CrisisPost>,
                          apps: seq<Volunteers.VolunteerApplication>): (r: Result<UpdateInput, Error>)
    ensures r.Ok? ==> r.value == input
    ensures (forall p :: p in posts ==> p.id != input.crisisPost) ==>
              r == Err(ValidationFailed([FieldError("crisis_post", Display.InvalidPk(input.crisisPost))]))
    ensures r.Ok? ==> exists p :: p in posts && p.id == input.crisisPost
                                  && (user.isStaff || p.owner == user.id || IsApprovedVolunteer(apps, user.id, p.id))
    ensures Crisis.UniqueIds(posts) ==>
              (r.Ok? <==> exists p :: p in posts && p.id == input.crisisPost
                                      && (user.isStaff || p.owner == user.id || IsApprovedVolunteer(apps, user.id, p.id)))
  {
    match Crisis.FindPost(posts, input.crisisPost)
    case None => Err(ValidationFailed([FieldError("crisis_post", Display.InvalidPk(input.crisisPost))]))
    case Some(p) =>
      assert Crisis.UniqueIds(posts) ==> forall q :: q in posts && q.id == input.crisisPost ==> q == p by {
        if Crisis.UniqueIds(posts) {
          forall q | q in posts && q.id == input.crisisPost ensures q == p {
            Crisis.FindPostUnique(posts, q);
          }
        }
      }
      match ValidateUpdatePost(user, p, apps)
      case Ok(_) => Ok(input)
      case Err(e) => Err(ValidationFailed([e]))
  }

  /** `create`: the creator is the requesting user, whatever the payload. */
  function NewUpdate(input: UpdateInput, user: User, id: Id, now: Time): (u: CrisisUpdate)
    ensures u.id == id && u.post == input.crisisPost && u.createdBy == user.id
    ensures u.title == input.title && u.description == input.description
    ensures u.createdAt == now && u.updatedAt == now
  {
    CrisisUpdate(id, input.crisisPost, user.id, input.title, input.description, now, now)
  }

  // ---------------------------------------------------------------------------------------
  // updates/serializers.py: comments

  /** CommentCreateSerializer's fields: the update and the text. */
  datatype CommentInput = CommentInput(update: Id, text: string)

  /** The `update` field must name an existing update. */
  function ValidateComment(input: CommentInput, updates: seq<CrisisUpdate>): (r: Result<CommentInput, Error>)
    ensures r.Ok? <==> exists u :: u in updates && u.id == input.update
    ensures r.Ok? ==> r.value == input
    ensures r.Err? ==> r.error == ValidationFailed([FieldError("update", Display.InvalidPk(input.update))])
  {
    var found := Seqs.Find(updates, (u: CrisisUpdate) => u.id == input.update);
    if found.None? then Err(ValidationFailed([FieldError("update", Display.InvalidPk(input.update))]))
    else Ok(input)
  }

  /** `create`: the author is the requesting user. */
  function NewComment(input: CommentInput, user: User, id: Id, now: Time): (c: Comment)
    ensures c.id == id && c.update == input.update && c.user == user.id && c.text == input.text
    ensures c.createdAt == now && c.updatedAt == now
  {
    Comment(id, input.update, user.id, input.text, now, now)
  }

  // ---------------------------------------------------------------------------------------
  // Editing through the detail serializers

  /** CrisisUpdateSerializer's writable fields: the post, title and description (the creator and
      the timestamps are read-only). */
  datatype UpdatePatch = UpdatePatch(crisisPost: Option<Id>, title: Option<string>, description: Option<string>)

  /** A PUT needs every required field; a supplied post key must name a post. No gate is applied
      on edits. */
  function ValidateUpdatePatch(patch: UpdatePatch, partial: bool, posts: seq<Crisis.CrisisPost>): (r: Outcome)
    ensures r.Pass? <==>
              (partial || (patch.crisisPost.Some? && patch.title.Some? && patch.description.Some?))
              && (patch.crisisPost.Some? ==> exists p :: p in posts && p.id == patch.crisisPost.value)
    ensures r.Fail? ==> r.error.ValidationFailed? && |r.error.errors| > 0
  {
    var postErr :=
      match patch.crisisPost
      case None => if partial then [] else [FieldError("crisis_post", RequiredMessage)]
      case Some(pk) =>
        if Crisis.FindPost(posts, pk).None? then [FieldError("crisis_post", Display.InvalidPk(pk))] else [];
    var errs := postErr
      + (if !partial && patch.title.None? then [FieldError("title", RequiredMessage)] else [])
      + (if !partial && patch.description.None? then [FieldError("description", RequiredMessage)] else []);
    if errs == [] then Pass else Fail(ValidationFailed(errs))
  }

  /** Saving an update edit: supplied fields replace the stored ones and `updated_at` is renewed;
      the key, creator and creation time stay. */
  function ApplyUpdatePatch(u: CrisisUpdate, patch: UpdatePatch, now: Time): (v: CrisisUpdate)
    ensures v.id == u.id && v.createdBy == u.createdBy && v.createdAt == u.createdAt && v.updatedAt == now
    ensures v.post == (if patch.crisisPost.Some? then patch.crisisPost.value else u.post)
    ensures v.title == (if patch.title.Some? then patch.title.value else u.title)
    ensures v.description == (if patch.description.Some? then patch.description.value else u.description)
  {
    u.(post := if patch.crisisPost.Some? then patch.crisisPost.value else u.post,
       title := if patch.title.Some? then patch.title.value else u.title,
       description := if patch.description.Some? then patch.description.value else u.description,
       updatedAt := now)
  }

  /** Because the post is writable and edits are not gated, a creator can move an update to a
      post where creating it would have been refused. */
  lemma EditBypassesGate(u: CrisisUpdate, user: User, target: Crisis.CrisisPost, now: Time)
    requires u.createdBy == user.id && !user.isStaff && target.owner != user.id
    ensures var patch := UpdatePatch(Some(target.id), None, None);
            var posts := [target];
            ValidateUpdatePost(user, target, []).Err?
            && UpdateObjectAccess(PATCH, Authenticated(user), u).Pass?
            && ValidateUpdatePatch(patch, true, posts).Pass?
            && ApplyUpdatePatch(u, patch, now).post == target.id
  {
    assert target in [target];
  }

  /** CommentSerializer's only writable field is the text. */
  datatype CommentPatch = CommentPatch(text: Option<string>)

  function ValidateCommentPatch(patch: CommentPatch, partial: bool): (r: Outcome)
    ensures r.Pass? <==> partial || patch.text.Some?
    ensures r.Fail? ==> r.error == ValidationFailed([FieldError("text", RequiredMessage)])
  {
    if !partial && patch.text.None? then Fail(ValidationFailed([FieldError("text", RequiredMessage)])) else Pass
  }

  /** Saving a comment edit: only the text and `updated_at` can change. */
  function ApplyCommentPatch(c: Comment, patch: CommentPatch, now: Time): (d: Comment)
    ensures d.id == c.id && d.update == c.update && d.user == c.user && d.createdAt == c.createdAt
    ensures d.updatedAt == now
    ensures d.text == (if patch.text.Some? then patch.text.value else c.text)
  {
    c.(text := if patch.text.Some? then patch.text.value else c.text, updatedAt := now)
  }

  // ---------------------------------------------------------------------------------------
  // updates/views.py: the lists (all newest first by `created_at`)

  /** CrisisUpdatesListView: the updates on the post with key `crisisId`; an unknown key gives
      an empty list, not an error. */
  function Timeline(updates: seq<CrisisUpdate>, crisisId: Id): (r: seq<CrisisUpdate>)
    ensures forall u :: u in r <==> u in updates && u.post == crisisId
    ensures forall u :: multiset(r)[u] == if u.post == crisisId then multiset(updates)[u] else 0
    ensures Seqs.SortedDesc(r, (u: CrisisUpdate) => u.createdAt)
    ensures (forall u :: u in updates ==> u.post != crisisId) ==> r == []
  {
    var r := Seqs.Select(updates, (u: CrisisUpdate) => u.post == crisisId, (u: CrisisUpdate) => u.createdAt);
    assert r != [] ==> r[0] in r;
    r
  }

  /** MyUpdatesView: the requester's updates; authentication required. */
  function MyUpdates(updates: seq<CrisisUpdate>, r: Requester): (res: Result<seq<CrisisUpdate>, Error>)
    ensures res.Err? <==> r.Anonymous?
    ensures res.Err? ==> res.error == NotAuthenticated
    ensures res.Ok? ==> forall u :: u in res.value <==> u in updates && u.createdBy == r.user.id
    ensures res.Ok? ==> forall u :: multiset(res.value)[u] == if u.createdBy == r.user.id then multiset(updates)[u] else 0
    ensures res.Ok? ==> Seqs.SortedDesc(res.value, (u: CrisisUpdate) => u.createdAt)
  {
    if !IsAuthenticated(r) then Err(Deny(r))
    else Ok(Seqs.Select(updates, (u: CrisisUpdate) => u.createdBy == r.user.id, (u: CrisisUpdate) => u.createdAt))
  }

  /** UpdateCommentsListView: the comments on the update with key `updateId`. */
  function CommentsOf(comments: seq<Comment>, updateId: Id): (r: seq<Comment>)
    ensures forall c :: c in r <==> c in comments && c.update == updateId
    ensures forall c :: multiset(r)[c] == if c.update == updateId then multiset(comments)[c] else 0
    ensures Seqs.SortedDesc(r, (c: Comment) => c.createdAt)
  {
    Seqs.Select(comments, (c: Comment) => OnUpdate(c, updateId), (c: Comment) => c.createdAt)
  }

  /** The comment list is as long as the update's comment count. */
  lemma CommentsOfCountsTotal(u: CrisisUpdate, comments: seq<Comment>)
    ensures |CommentsOf(comments, u.id)| == TotalComments(u, comments)
  {
  }

  /** MyCommentsView: the requester's comments; authentication required. */
  function MyComments(comments: seq<Comment>, r: Requester): (res: Result<seq<Comment>, Error>)
    ensures res.Err? <==> r.Anonymous?
    ensures res.Err? ==> res.error == NotAuthenticated
    ensures res.Ok? ==> forall c :: c in res.value <==> c in comments && c.user == r.user.id
    ensures res.Ok? ==> forall c :: multiset(res.value)[c] == if c.user == r.user.id then multiset(comments)[c] else 0
    ensures res.Ok? ==> Seqs.SortedDesc(res.value, (c: Comment) => c.createdAt)
  {
    if !IsAuthenticated(r) then Err(Deny(r))
    else Ok(Seqs.Select(comments, (c: Comment) => c.user == r.user.id, (c: Comment) => c.createdAt))
  }

  // ---------------------------------------------------------------------------------------
  // updates/admin.py

  const NoComments := "<i style=\"color: gray;\">No comments</i>"

  /** `total_comments_display` for a count `n`. */
  function TotalCommentsDisplay(n: nat): (shown: string)
    ensures n == 0 <==> shown == NoComments
    ensures n > 0 ==> shown == "<b style=\"color: blue;\">" + Display.NatToString(n) + " comment(s)</b>"
  {
    if n > 0 then "<b style=\"color: blue;\">" + Display.NatToString(n) + " comment(s)</b>" else NoComments
  }

  /** Different positive counts are displayed differently. */
  lemma TotalCommentsDisplayInjective(m: nat, n: nat)
    requires TotalCommentsDisplay(m) == TotalCommentsDisplay(n)
    ensures m == n
  {
    if m > 0 && n > 0 {
      var pre := "<b style=\"color: blue;\">";
      var post := " comment(s)</b>";
      var a := Display.NatToString(m);
      var b := Display.NatToString(n);
      assert |pre + a + post| == |pre + b + post|;
      assert a == (pre + a + post)[|pre|..|pre| + |a|];
      assert b == (pre + b + post)[|pre|..|pre| + |b|];
      Display.NatToStringInjective(m, n);
    }
  }

  /** `creator_display`. */
  function CreatorDisplay(u: CrisisUpdate, users: map<Id, User>): (shown: string)
    requires u.createdBy in users
    ensures shown == CreatorName(u, users)
  {
    users[u.createdBy].username
  }

  /** `commenter_display`. */
  function CommenterDisplay(c: Comment, users: map<Id, User>): (shown: string)
    requires c.user in users
    ensures shown == CommenterName(c, users)
  {
    users[c.user].username
  }

  /** `update_title`: the title of the commented update. */
  function UpdateTitle(c: Comment, updates: seq<CrisisUpdate>): (title: string)
    requires exists u :: u in updates && u.id == c.update
    ensures exists u :: u in updates && u.id == c.update && u.title == title
  {
    Seqs.Find(updates, (u: CrisisUpdate) => u.id == c.update).value.title
  }

  /** `text_preview`. */
  function TextPreview(c: Comment): (r: string)
    ensures |c.text| <= Display.PreviewWidth ==> r == c.text
    ensures |c.text| > Display.PreviewWidth ==> r == c.text[..Display.PreviewWidth] + Display.Ellipsis
    ensures |r| <= 53
  {
    Display.Preview(c.text)
  }
}
