/** The views that change the database, over one in-memory store: registration
    (accounts/serializers.py), the post view set's create, update and destroy (crisis/views.py),
    applying and the approve/reject decision (volunteers/serializers.py, volunteers/views.py),
    donating (donations/serializers.py), posting, editing and deleting updates and comments
    (updates/serializers.py, updates/views.py), and deleting a user with its cascades. Each
    method runs the framework's steps in order: the view's permission classes, the object
    lookup (404), the object permissions, the serializer's validation, and the save. */
module Store {
  import opened Common
  import opened Accounts
  import Crisis
  import Volunteers
  import Donations
  import Updates
  import Seqs
  import Display
  import Db

  const CommentDeleted := "Comment deleted successfully!"

  /** The constraint the database reports when a user applies twice to one post. */
  const ApplicationPairConstraint := "unique (user, crisis_post)"

  class Store {
    var users: map<Id, User>
    var posts: seq<Crisis.CrisisPost>
    var sections: seq<Crisis.PostSection>
    var apps: seq<Volunteers.VolunteerApplication>
    var money: seq<Donations.DonationMoney>
    var goods: seq<Donations.DonationGoods>
    var updates: seq<Updates.CrisisUpdate>
    var comments: seq<Updates.Comment>
    var nextId: Id

    /** The tables as a value. */
    function State(): Db.Db
      reads this
    {
      Db.Db(users, posts, sections, apps, money, goods, updates, comments, nextId)
    }

    predicate Valid()
      reads this
    {
      Db.Consistent(State())
    }

    /** An authenticated requester is a stored user, as the session middleware loads it. */
    predicate Knows(r: Requester)
      reads this
    {
      r.Authenticated? ==> r.user.id in users && users[r.user.id] == r.user
    }

    /** An empty database whose first key is 1. */
    constructor ()
      ensures Valid()
      ensures State() == Db.Db(map[], [], [], [], [], [], [], [], 1)
    {
      users := map[];
      posts := [];
      sections := [];
      apps := [];
      money := [];
      goods := [];
      updates := [];
      comments := [];
      nextId := 1;
    }

    /** Commit a new state of every table. */
    method SetState(d: Db.Db)
      modifies this
      ensures State() == d
    {
      users := d.users;
      posts := d.posts;
      sections := d.sections;
      apps := d.apps;
      money := d.money;
      goods := d.goods;
      updates := d.updates;
      comments := d.comments;
      nextId := d.nextId;
    }

    // -------------------------------------------------------------------------------------
    // Registration

    /** RegisterSerializer: validate, then save the new inactive user. Every registered user
        has the empty username, so once one exists the unique username refuses the save. */
    method Register(input: map<string, string>) returns (res: Result<Id, Error>)
      requires Valid()
      modifies this
      ensures Valid()
      ensures var v := ValidateRegistration(input, Emails(old(users)));
              (v.Err? ==> res == Err(v.error) && State() == old(State()))
              && (v.Ok? && UsernameTaken(old(users), "") ==>
                    res == Err(IntegrityError("username")) && State() == old(State()))
              && (v.Ok? && !UsernameTaken(old(users), "") ==>
                    res == Ok(old(nextId)) && State() == Db.AddUser(old(State()), NewUser(v.value, old(nextId))))
    {
      var v := ValidateRegistration(input, Emails(users));
      if v.Err? {
        return Err(v.error);
      }
      if UsernameTaken(users, "") {
        return Err(IntegrityError("username"));
      }
      RegisteredUserInactive(input, Emails(users), nextId);
      var u := NewUser(v.value, nextId);
      Db.AddUserConsistent(State(), u);
      SetState(Db.AddUser(State(), u));
      res := Ok(u.id);
    }

    // -------------------------------------------------------------------------------------
    // crisis/views.py: CrisisPostViewSet

    /** `create`: authenticated requesters only; the owner is the requester. */
    method CreatePost(r: Requester, input: Crisis.PostInput, now: Time) returns (res: Result<Id, Error>)
      requires Valid() && Knows(r)
      modifies this
      ensures Valid()
      ensures res.Err? <==> r.Anonymous?
      ensures res.Err? ==> res.error == NotAuthenticated && State() == old(State())
      ensures res.Ok? ==> res.value == old(nextId)
                          && State() == Db.AddPost(old(State()), Crisis.NewPost(input, r.user.id, old(nextId), now))
    {
      var access := Crisis.PostViewAccess(POST, r);
      if access.Fail? {
        return Err(access.error);
      }
      var p := Crisis.NewPost(input, r.user.id, nextId, now);
      Db.AddPostConsistent(State(), p);
      posts := posts + [p];
      nextId := nextId + 1;
      res := Ok(p.id);
    }

    /** `update` (PUT) and `partial_update` (PATCH) of post `id`. */
    method EditPost(r: Requester, m: Method, id: Id, patch: Crisis.PostPatch, now: Time) returns (res: Outcome)
      requires Valid() && Knows(r) && (m == PUT || m == PATCH)
      modifies this
      ensures Valid()
      ensures res.Fail? ==> State() == old(State())
      ensures r.Anonymous? ==> res == Fail(NotAuthenticated)
      ensures r.Authenticated? && Crisis.FindPost(old(posts), id).None? ==> res == Fail(NotFound)
      ensures (r.Authenticated? && Crisis.FindPost(old(posts), id).Some?
               && Crisis.FindPost(old(posts), id).value.owner != r.user.id) ==> res == Fail(PermissionDenied)
      ensures res.Pass? <==> r.Authenticated? && Crisis.FindPost(old(posts), id).Some?
                             && Crisis.FindPost(old(posts), id).value.owner == r.user.id
                             && Crisis.ValidatePostPatch(patch, m == PATCH).Pass?
      ensures res.Pass? ==>
                exists i :: 0 <= i < |old(posts)| && old(posts)[i] == Crisis.FindPost(old(posts), id).value
                  && State() == Db.ReplacePost(old(State()), i, Crisis.ApplyPostPatch(old(posts)[i], patch, now))
    {
      var access := Crisis.PostViewAccess(m, r);
      if access.Fail? {
        return access;
      }
      var found := Seqs.IndexWhere(posts, (p: Crisis.CrisisPost) => p.id == id);
      if found.None? {
        return Fail(NotFound);
      }
      var i := found.value;
      Crisis.FindPostUnique(posts, posts[i]);
      access := Crisis.PostObjectAccess(m, r, posts[i]);
      if access.Fail? {
        return access;
      }
      var valid := Crisis.ValidatePostPatch(patch, m == PATCH);
      if valid.Fail? {
        return valid;
      }
      var q := Crisis.ApplyPostPatch(posts[i], patch, now);
      assert posts[i] in posts;
      Db.ReplacePostConsistent(State(), i, q);
      posts := posts[i := q];
      res := Pass;
    }

    /** `destroy` of post `id`, with its cascades. */
    method DestroyPost(r: Requester, id: Id) returns (res: Outcome)
      requires Valid() && Knows(r)
      modifies this
      ensures Valid()
      ensures res.Fail? ==> State() == old(State())
      ensures r.Anonymous? ==> res == Fail(NotAuthenticated)
      ensures r.Authenticated? && Crisis.FindPost(old(posts), id).None? ==> res == Fail(NotFound)
      ensures (r.Authenticated? && Crisis.FindPost(old(posts), id).Some?
               && Crisis.FindPost(old(posts), id).value.owner != r.user.id) ==> res == Fail(PermissionDenied)
      ensures res.Pass? <==> r.Authenticated? && Crisis.FindPost(old(posts), id).Some?
                             && Crisis.FindPost(old(posts), id).value.owner == r.user.id
      ensures res.Pass? ==> State() == Db.DeletePost(old(State()), id)
    {
      var access := Crisis.PostViewAccess(DELETE, r);
      if access.Fail? {
        return access;
      }
      var found := Crisis.FindPost(posts, id);
      if found.None? {
        return Fail(NotFound);
      }
      access := Crisis.PostObjectAccess(DELETE, r, found.value);
      if access.Fail? {
        return access;
      }
      assert r.Authenticated? && found.value.owner == r.user.id;
      var d := Db.DeletePost(State(), id);
      Db.DeletePostConsistent(State(), id);
      SetState(d);
      res := Pass;
    }

    // -------------------------------------------------------------------------------------
    // volunteers/views.py

    /** ApplyVolunteerView: authenticated requesters only; the post key must name a post (its
        status is not checked); a second application on the same post breaks the database's
        unique pair and the save fails. */
    method Apply(r: Requester, postId: Id, now: Time) returns (res: Result<Id, Error>)
      requires Valid() && Knows(r)
      modifies this
      ensures Valid()
      ensures res.Err? ==> State() == old(State())
      ensures r.Anonymous? ==> res == Err(NotAuthenticated)
      ensures r.Authenticated? && !Db.HasPost(old(posts), postId) ==>
                res == Err(ValidationFailed([FieldError("crisis_post", Display.InvalidPk(postId))]))
      ensures r.Authenticated? && Db.HasPost(old(posts), postId) && Volunteers.HasApplied(old(apps), r.user.id, postId) ==>
                res == Err(IntegrityError(ApplicationPairConstraint))
      ensures res.Ok? <==> r.Authenticated? && Db.HasPost(old(posts), postId)
                           && !Volunteers.HasApplied(old(apps), r.user.id, postId)
      ensures res.Ok? ==> res.value == old(nextId)
                          && State() == Db.AddApp(old(State()), Volunteers.NewApplication(old(nextId), r.user.id, postId, now))
    {
      if !IsAuthenticated(r) {
        return Err(Deny(r));
      }
      var post := Crisis.FindPost(posts, postId);
      if post.None? {
        return Err(ValidationFailed([FieldError("crisis_post", Display.InvalidPk(postId))]));
      }
      var existing := Seqs.Find(apps, (a: Volunteers.VolunteerApplication) => a.user == r.user.id && a.post == postId);
      if existing.Some? {
        return Err(IntegrityError(ApplicationPairConstraint));
      }
      var a := Volunteers.NewApplication(nextId, r.user.id, postId, now);
      Db.AddAppConsistent(State(), a);
      SetState(Db.AddApp(State(), a));
      res := Ok(a.id);
    }

    /** ApproveRejectVolunteerView's PATCH: authentication, then the action, then the lookup,
        then the post owner's check; the decision overwrites the status and the reply names the
        volunteer. */
    method DecideApplication(r: Requester, id: Id, action: Option<string>) returns (res: Result<string, Error>)
      requires Valid() && Knows(r)
      modifies this
      ensures Valid()
      ensures res.Err? ==> State() == old(State())
      ensures r.Anonymous? ==> res == Err(NotAuthenticated)
      ensures r.Authenticated? && Volunteers.DecisionStatus(action).None? ==> res == Err(BadRequest(Volunteers.InvalidAction))
      ensures (r.Authenticated? && Volunteers.DecisionStatus(action).Some?
               && Volunteers.FindApplication(old(apps), id).None?) ==> res == Err(NotFound)
      ensures (r.Authenticated? && Volunteers.DecisionStatus(action).Some?
               && Volunteers.FindApplication(old(apps), id).Some?
               && !OwnsPostOf(old(posts), Volunteers.FindApplication(old(apps), id).value, r.user.id))
              ==> res == Err(PermissionDenied)
      ensures res.Ok? <==> r.Authenticated? && Volunteers.DecisionStatus(action).Some?
                           && Volunteers.FindApplication(old(apps), id).Some?
                           && OwnsPostOf(old(posts), Volunteers.FindApplication(old(apps), id).value, r.user.id)
      ensures res.Ok? ==>
                var s := Volunteers.DecisionStatus(action).value;
                exists i :: 0 <= i < |old(apps)| && old(apps)[i].id == id
                  && old(apps)[i].user in old(users)
                  && res.value == Volunteers.DecisionMessage(old(users)[old(apps)[i].user].username, s)
                  && State() == Db.ReplaceApp(old(State()), i, Volunteers.Decide(old(apps)[i], s))
    {
      if !IsAuthenticated(r) {
        return Err(Deny(r));
      }
      var s := Volunteers.DecisionStatus(action);
      if s.None? {
        return Err(BadRequest(Volunteers.InvalidAction));
      }
      var found := Seqs.IndexWhere(apps, (a: Volunteers.VolunteerApplication) => a.id == id);
      if found.None? {
        return Err(NotFound);
      }
      var i := found.value;
      var a := apps[i];
      Db.FindApplicationAt(apps, i);
      assert a in apps;
      var post := Crisis.FindPost(posts, a.post).value;
      OwnerOfFoundPost(posts, a, r.user.id);
      if !Volunteers.IsPostOwnerOrReadOnly(r, a, post) {
        return Err(Deny(r));
      }
      var b := Volunteers.Decide(a, s.value);
      var message := Volunteers.DecisionMessage(users[a.user].username, s.value);
      Db.ReplaceAppConsistent(State(), i, b);
      SetState(Db.ReplaceApp(State(), i, b));
      res := Ok(message);
    }

    // -------------------------------------------------------------------------------------
    // donations/views.py: the create views allow anyone

    /** CreateMoneyDonationView: validate, then save with the requester as donor (none when
        anonymous). */
    method DonateMoney(r: Requester, input: Donations.MoneyInput, now: Time) returns (res: Result<Id, Error>)
      requires Valid() && Knows(r)
      modifies this
      ensures Valid()
      ensures var v := Donations.ValidateMoney(input, old(posts));
              (v.Err? ==> res == Err(v.error) && State() == old(State()))
              && (v.Ok? ==> res == Ok(old(nextId))
                            && State() == Db.AddMoney(old(State()), Donations.NewMoney(input, r, old(nextId), now)))
    {
      var v := Donations.ValidateMoney(input, posts);
      if v.Err? {
        return Err(v.error);
      }
      var d := Donations.NewMoney(input, r, nextId, now);
      Db.AddMoneyConsistent(State(), d);
      SetState(Db.AddMoney(State(), d));
      res := Ok(d.id);
    }

    /** CreateGoodsDonationView. */
    method DonateGoods(r: Requester, input: Donations.GoodsInput, now: Time) returns (res: Result<Id, Error>)
      requires Valid() && Knows(r)
      modifies this
      ensures Valid()
      ensures var v := Donations.ValidateGoods(input, old(posts));
              (v.Err? ==> res == Err(v.error) && State() == old(State()))
              && (v.Ok? ==> res == Ok(old(nextId))
                            && State() == Db.AddGoods(old(State()), Donations.NewGoods(input, r, old(nextId), now)))
    {
      var v := Donations.ValidateGoods(input, posts);
      if v.Err? {
        return Err(v.error);
      }
      var g := Donations.NewGoods(input, r, nextId, now);
      Db.AddGoodsConsistent(State(), g);
      SetState(Db.AddGoods(State(), g));
      res := Ok(g.id);
    }

    // -------------------------------------------------------------------------------------
    // updates/views.py: updates

    /** CreateCrisisUpdateView: authentication, then the serializer's gate on the post. */
    method PostUpdate(r: Requester, input: Updates.UpdateInput, now: Time) returns (res: Result<Id, Error>)
      requires Valid() && Knows(r)
      modifies this
      ensures Valid()
      ensures r.Anonymous? ==> res == Err(NotAuthenticated) && State() == old(State())
      ensures r.Authenticated? ==>
                var v := Updates.ValidateUpdate(input, r.user, old(posts), old(apps));
                (v.Err? ==> res == Err(v.error) && State() == old(State()))
                && (v.Ok? ==> res == Ok(old(nextId))
                              && State() == Db.AddUpdate(old(State()), Updates.NewUpdate(input, r.user, old(nextId), now)))
    {
      var access := Updates.CreateUpdateAccess(POST, r);
      if access.Fail? {
        return Err(access.error);
      }
      var v := Updates.ValidateUpdate(input, r.user, posts, apps);
      if v.Err? {
        return Err(v.error);
      }
      var u := Updates.NewUpdate(input, r.user, nextId, now);
      Db.AddUpdateConsistent(State(), u);
      SetState(Db.AddUpdate(State(), u));
      res := Ok(u.id);
    }

    /** CrisisUpdateDetailView's update and partial_update: the view-level check, the lookup,
        the creator's check, then the serializer. No gate is applied here. */
    method EditUpdate(r: Requester, m: Method, id: Id, patch: Updates.UpdatePatch, now: Time) returns (res: Outcome)
      requires Valid() && Knows(r) && (m == PUT || m == PATCH)
      modifies this
      ensures Valid()
      ensures res.Fail? ==> State() == old(State())
      ensures r.Anonymous? ==> res == Fail(NotAuthenticated)
      ensures r.Authenticated? && Updates.FindUpdate(old(updates), id).None? ==> res == Fail(NotFound)
      ensures (r.Authenticated? && Updates.FindUpdate(old(updates), id).Some?
               && Updates.FindUpdate(old(updates), id).value.createdBy != r.user.id) ==> res == Fail(PermissionDenied)
      ensures res.Pass? <==> r.Authenticated? && Updates.FindUpdate(old(updates), id).Some?
                             && Updates.FindUpdate(old(updates), id).value.createdBy == r.user.id
                             && Updates.ValidateUpdatePatch(patch, m == PATCH, old(posts)).Pass?
      ensures res.Pass? ==>
                exists i :: 0 <= i < |old(updates)| && old(updates)[i] == Updates.FindUpdate(old(updates), id).value
                  && State() == Db.ReplaceUpdate(old(State()), i, Updates.ApplyUpdatePatch(old(updates)[i], patch, now))
    {
      if !IsAuthenticatedOrReadOnly(m, r) {
        return Fail(Deny(r));
      }
      var found := Seqs.IndexWhere(updates, (u: Updates.CrisisUpdate) => u.id == id);
      if found.None? {
        return Fail(NotFound);
      }
      var i := found.value;
      Db.FindUpdateAt(updates, i);
      var access := Updates.UpdateObjectAccess(m, r, updates[i]);
      if access.Fail? {
        return access;
      }
      var valid := Updates.ValidateUpdatePatch(patch, m == PATCH, posts);
      if valid.Fail? {
        return valid;
      }
      var u := Updates.ApplyUpdatePatch(updates[i], patch, now);
      assert updates[i] in updates;
      Db.ReplaceUpdateConsistent(State(), i, u);
      SetState(Db.ReplaceUpdate(State(), i, u));
      res := Pass;
    }

    /** CrisisUpdateDetailView's destroy: the update and its comments go. */
    method DestroyUpdate(r: Requester, id: Id) returns (res: Outcome)
      requires Valid() && Knows(r)
      modifies this
      ensures Valid()
      ensures res.Fail? ==> State() == old(State())
      ensures r.Anonymous? ==> res == Fail(NotAuthenticated)
      ensures r.Authenticated? && Updates.FindUpdate(old(updates), id).None? ==> res == Fail(NotFound)
      ensures (r.Authenticated? && Updates.FindUpdate(old(updates), id).Some?
               && Updates.FindUpdate(old(updates), id).value.createdBy != r.user.id) ==> res == Fail(PermissionDenied)
      ensures res.Pass? <==> r.Authenticated? && Updates.FindUpdate(old(updates), id).Some?
                             && Updates.FindUpdate(old(updates), id).value.createdBy == r.user.id
      ensures res.Pass? ==> State() == Db.DeleteUpdate(old(State()), id)
    {
      if !IsAuthenticatedOrReadOnly(DELETE, r) {
        return Fail(Deny(r));
      }
      var found := Updates.FindUpdate(updates, id);
      if found.None? {
        return Fail(NotFound);
      }
      var access := Updates.UpdateObjectAccess(DELETE, r, found.value);
      if access.Fail? {
        return access;
      }
      assert r.Authenticated? && found.value.createdBy == r.user.id;
      var d := Db.DeleteUpdate(State(), id);
      Db.DeleteUpdateConsistent(State(), id);
      SetState(d);
      res := Pass;
    }

    // -------------------------------------------------------------------------------------
    // updates/views.py: comments

    /** CreateCommentView: authentication, then the update key must name an update. */
    method AddComment(r: Requester, input: Updates.CommentInput, now: Time) returns (res: Result<Id, Error>)
      requires Valid() && Knows(r)
      modifies this
      ensures Valid()
      ensures r.Anonymous? ==> res == Err(NotAuthenticated) && State() == old(State())
      ensures r.Authenticated? ==>
                var v := Updates.ValidateComment(input, old(updates));
                (v.Err? ==> res == Err(v.error) && State() == old(State()))
                && (v.Ok? ==> res == Ok(old(nextId))
                              && State() == Db.AddComment(old(State()), Updates.NewComment(input, r.user, old(nextId), now)))
    {
      if !IsAuthenticated(r) {
        return Err(Deny(r));
      }
      var v := Updates.ValidateComment(input, updates);
      if v.Err? {
        return Err(v.error);
      }
      var c := Updates.NewComment(input, r.user, nextId, now);
      Db.AddCommentConsistent(State(), c);
      SetState(Db.AddComment(State(), c));
      res := Ok(c.id);
    }

    /** CommentDetailView's update: only the text can change. */
    method EditComment(r: Requester, m: Method, id: Id, patch: Updates.CommentPatch, now: Time) returns (res: Outcome)
      requires Valid() && Knows(r) && (m == PUT || m == PATCH)
      modifies this
      ensures Valid()
      ensures res.Fail? ==> State() == old(State())
      ensures r.Anonymous? ==> res == Fail(NotAuthenticated)
      ensures r.Authenticated? && Updates.FindComment(old(comments), id).None? ==> res == Fail(NotFound)
      ensures (r.Authenticated? && Updates.FindComment(old(comments), id).Some?
               && Updates.FindComment(old(comments), id).value.user != r.user.id) ==> res == Fail(PermissionDenied)
      ensures res.Pass? <==> r.Authenticated? && Updates.FindComment(old(comments), id).Some?
                             && Updates.FindComment(old(comments), id).value.user == r.user.id
                             && Updates.ValidateCommentPatch(patch, m == PATCH).Pass?
      ensures res.Pass? ==>
                exists i :: 0 <= i < |old(comments)| && old(comments)[i] == Updates.FindComment(old(comments), id).value
                  && State() == Db.ReplaceComment(old(State()), i, Updates.ApplyCommentPatch(old(comments)[i], patch, now))
    {
      if !IsAuthenticatedOrReadOnly(m, r) {
        return Fail(Deny(r));
      }
      var found := Seqs.IndexWhere(comments, (c: Updates.Comment) => c.id == id);
      if found.None? {
        return Fail(NotFound);
      }
      var i := found.value;
      Db.FindCommentAt(comments, i);
      var access := Updates.CommentObjectAccess(m, r, comments[i]);
      if access.Fail? {
        return access;
      }
      var valid := Updates.ValidateCommentPatch(patch, m == PATCH);
      if valid.Fail? {
        return valid;
      }
      var c := Updates.ApplyCommentPatch(comments[i], patch, now);
      Db.ReplaceCommentConsistent(State(), i, c);
      SetState(Db.ReplaceComment(State(), i, c));
      res := Pass;
    }

    /** CommentDetailView's destroy, with its success message. */
    method DestroyComment(r: Requester, id: Id) returns (res: Result<string, Error>)
      requires Valid() && Knows(r)
      modifies this
      ensures Valid()
      ensures res.Err? ==> State() == old(State())
      ensures r.Anonymous? ==> res == Err(NotAuthenticated)
      ensures r.Authenticated? && Updates.FindComment(old(comments), id).None? ==> res == Err(NotFound)
      ensures (r.Authenticated? && Updates.FindComment(old(comments), id).Some?
               && Updates.FindComment(old(comments), id).value.user != r.user.id) ==> res == Err(PermissionDenied)
      ensures res.Ok? <==> r.Authenticated? && Updates.FindComment(old(comments), id).Some?
                           && Updates.FindComment(old(comments), id).value.user == r.user.id
      ensures res.Ok? ==> res.value == CommentDeleted && State() == Db.DeleteComment(old(State()), id)
    {
      if !IsAuthenticatedOrReadOnly(DELETE, r) {
        return Err(Deny(r));
      }
      var found := Updates.FindComment(comments, id);
      if found.None? {
        return Err(NotFound);
      }
      var access := Updates.CommentObjectAccess(DELETE, r, found.value);
      if access.Fail? {
        return Err(access.error);
      }
      assert r.Authenticated? && found.value.user == r.user.id;
      var d := Db.DeleteComment(State(), id);
      Db.DeleteCommentConsistent(State(), id);
      SetState(d);
      res := Ok(CommentDeleted);
    }

    // -------------------------------------------------------------------------------------
    // Deleting a user (through the admin site): the model's on_delete rules

    method RemoveUser(uid: Id)
      requires Valid()
      modifies this
      ensures Valid()
      ensures State() == Db.DeleteUser(old(State()), uid)
    {
      Db.DeleteUserConsistent(State(), uid);
      SetState(Db.DeleteUser(State(), uid));
    }
  }

  /** Whether `uid` owns the post an application is for. */
  predicate OwnsPostOf(posts: seq<Crisis.CrisisPost>, a: Volunteers.VolunteerApplication, uid: Id)
  {
    exists p :: p in posts && p.id == a.post && p.owner == uid
  }

  /** With one row per post key, the post the lookup loads decides ownership. */
  lemma OwnerOfFoundPost(posts: seq<Crisis.CrisisPost>, a: Volunteers.VolunteerApplication, uid: Id)
    requires Crisis.UniqueIds(posts) && Db.HasPost(posts, a.post)
    ensures Crisis.FindPost(posts, a.post).Some?
    ensures OwnsPostOf(posts, a, uid) <==> Crisis.FindPost(posts, a.post).value.owner == uid
  {
    var q :| q in posts && q.id == a.post;
    Crisis.FindPostUnique(posts, q);
    if OwnsPostOf(posts, a, uid) {
      var p :| p in posts && p.id == a.post && p.owner == uid;
      Crisis.FindPostUnique(posts, p);
    }
  }
}
