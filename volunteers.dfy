/** The volunteers app: applications to help on a crisis post (volunteers/models.py), the two
    permission classes (volunteers/permissions.py), the application serializers and the
    approve/reject decision and "my applications" list (volunteers/views.py). */
module Volunteers {
  import opened Common
  import opened Accounts
  import Crisis
  import Seqs

  datatype AppStatus = Pending | Approved | Rejected

  function AppStatusCode(s: AppStatus): string
  {
    match s
    case Pending => "pending"
    case Approved => "approved"
    case Rejected => "rejected"
  }

  function ParseAppStatus(s: string): (r: Option<AppStatus>)
    ensures r.Some? ==> AppStatusCode(r.value) == s
    ensures r.None? <==> s !in {"pending", "approved", "rejected"}
  {
    if s == "pending" then Some(Pending)
    else if s == "approved" then Some(Approved)
    else if s == "rejected" then Some(Rejected)
    else None
  }

  lemma {:induction false} AppStatusRoundTrip(s: AppStatus)
    ensures ParseAppStatus(AppStatusCode(s)) == Some(s)
  {
    match s
    case Pending =>
    case Approved =>
    case Rejected =>
  }

  /** A VolunteerApplication row. */
  datatype VolunteerApplication = VolunteerApplication(
    id: Id,
    user: Id,
    post: Id,
    message: Option<string>,
    status: AppStatus,
    appliedAt: Time)

  /** The unique-together key. */
  function Pair(a: VolunteerApplication): (Id, Id)
  {
    (a.user, a.post)
  }

  /** `unique_together = ("user", "crisis_post")`: at most one application per user and post. */
  predicate UniquePairs(apps: seq<VolunteerApplication>)
  {
    Seqs.DistinctBy(apps, Pair)
  }

  /** Whether `uid` already has an application on `post`. */
  predicate HasApplied(apps: seq<VolunteerApplication>, uid: Id, post: Id)
  {
    exists a :: a in apps && a.user == uid && a.post == post
  }

  /** The application with primary key `id`. */
  function FindApplication(apps: seq<VolunteerApplication>, id: Id): (r: Option<VolunteerApplication>)
    ensures r.Some? ==> r.value in apps && r.value.id == id
    ensures r.None? <==> forall a :: a in apps ==> a.id != id
  {
    Seqs.Find(apps, (a: VolunteerApplication) => a.id == id)
  }

  /** Under the constraint, a user's application on a post is unique. */
  lemma ApplicationOfPairUnique(apps: seq<VolunteerApplication>, a: VolunteerApplication, b: VolunteerApplication)
    requires UniquePairs(apps) && a in apps && b in apps && a.user == b.user && a.post == b.post
    ensures a == b
  {
    Seqs.DistinctByKeyDetermines(apps, Pair, a, b);
  }

  /** Adding an application for a pair that has none keeps the constraint. */
  lemma {:induction false} AppendKeepsUniquePairs(apps: seq<VolunteerApplication>, a: VolunteerApplication)
    requires UniquePairs(apps) && !HasApplied(apps, a.user, a.post)
    ensures UniquePairs(apps + [a])
  {
    var s := apps + [a];
    forall i, j | 0 <= i < j < |s| ensures Pair(s[i]) != Pair(s[j]) {
      if j == |apps| {
        assert s[i] in apps;
      } else {
        assert s[i] == apps[i] && s[j] == apps[j];
      }
    }
  }

  /** `volunteer_name`: the applicant's username. */
  function VolunteerName(a: VolunteerApplication, users: map<Id, User>): (name: string)
    requires a.user in users
    ensures name == users[a.user].username
  {
    users[a.user].username
  }

  /** `crisis_title`: the title of the post applied to. */
  function CrisisTitle(a: VolunteerApplication, posts: seq<Crisis.CrisisPost>): (title: string)
    requires exists p :: p in posts && p.id == a.post
    ensures exists p :: p in posts && p.id == a.post && p.title == title
  {
    Crisis.FindPost(posts, a.post).value.title
  }

  /** VolunteerApplicationCreateSerializer.create: `crisis_post` is the only writable field and
      the applicant is the requesting user; the message stays empty and the status takes the
      model default. */
  function NewApplication(id: Id, uid: Id, post: Id, now: Time): (a: VolunteerApplication)
    ensures a.id == id && a.user == uid && a.post == post
    ensures a.status == Pending && a.message.None? && a.appliedAt == now
  {
    VolunteerApplication(id, uid, post, None, Pending, now)
  }

  /** VolunteerApplicationSerializer, the read view: user and post as their string forms. */
  datatype ApplicationView = ApplicationView(id: Id, user: string, crisisPost: string, status: string, appliedAt: Time)

  function ViewApplication(a: VolunteerApplication, users: map<Id, User>, posts: seq<Crisis.CrisisPost>): (v: ApplicationView)
    requires a.user in users && exists p :: p in posts && p.id == a.post
    ensures v.id == a.id && v.user == users[a.user].username && v.appliedAt == a.appliedAt
    ensures ParseAppStatus(v.status) == Some(a.status)
    ensures exists p :: p in posts && p.id == a.post && v.crisisPost == Crisis.PostLabel(p)
  {
    AppStatusRoundTrip(a.status);
    ApplicationView(a.id, users[a.user].username, Crisis.PostLabel(Crisis.FindPost(posts, a.post).value),
                    AppStatusCode(a.status), a.appliedAt)
  }

  // ---------------------------------------------------------------------------------------
  // volunteers/permissions.py

  /** IsPostOwnerOrReadOnly.has_object_permission: the requester owns the application's post.
      Despite the name, reads get no exemption. */
  function IsPostOwnerOrReadOnly(r: Requester, a: VolunteerApplication, post: Crisis.CrisisPost): (allowed: bool)
    requires post.id == a.post
    ensures allowed <==> r.Authenticated? && r.user.id == post.owner
  {
    IsRequester(r, post.owner)
  }

  /** IsVolunteerOwner.has_object_permission: the requester is the applicant. */
  function IsVolunteerOwner(r: Requester, a: VolunteerApplication): (allowed: bool)
    ensures allowed <==> r.Authenticated? && r.user.id == a.user
  {
    IsRequester(r, a.user)
  }

  /** Neither check looks at the application's status or at the staff flag. */
  lemma ChecksIgnoreStatusAndStaff(r: Requester, a: VolunteerApplication, post: Crisis.CrisisPost, s: AppStatus)
    requires post.id == a.post
    ensures IsPostOwnerOrReadOnly(r, a.(status := s), post) == IsPostOwnerOrReadOnly(r, a, post)
    ensures IsVolunteerOwner(r, a.(status := s)) == IsVolunteerOwner(r, a)
    ensures r.Authenticated? ==>
              IsPostOwnerOrReadOnly(Authenticated(r.user.(isStaff := !r.user.isStaff)), a, post)
                == IsPostOwnerOrReadOnly(r, a, post)
  {
  }

  // ---------------------------------------------------------------------------------------
  // volunteers/views.py

  /** The `action` of the decision request: "approve" approves, "reject" rejects, anything
      else (or nothing) is invalid. */
  function DecisionStatus(action: Option<string>): (s: Option<AppStatus>)
    ensures s == Some(Approved) <==> action == Some("approve")
    ensures s == Some(Rejected) <==> action == Some("reject")
    ensures s.None? <==> action != Some("approve") && action != Some("reject")
  {
    if action == Some("approve") then Some(Approved)
    else if action == Some("reject") then Some(Rejected)
    else None
  }

  const InvalidAction := "Invalid action"

  /** The decision on the loaded application: only its status changes, from whatever it was. */
  function Decide(a: VolunteerApplication, s: AppStatus): (b: VolunteerApplication)
    ensures b.status == s
    ensures b.id == a.id && b.user == a.user && b.post == a.post
    ensures b.message == a.message && b.appliedAt == a.appliedAt
  {
    a.(status := s)
  }

  /** The decision can be repeated or reversed: deciding again just overwrites the status. */
  lemma DecideOverwrites(a: VolunteerApplication, s: AppStatus, t: AppStatus)
    ensures Decide(Decide(a, s), t) == Decide(a, t)
    ensures Decide(Decide(a, s), s) == Decide(a, s)
  {
  }

  /** The success message `"Volunteer <username> <status>"`. */
  function DecisionMessage(username: string, s: AppStatus): (m: string)
    ensures |m| == 11 + |username| + |AppStatusCode(s)|
    ensures m[..11 + |username|] == "Volunteer " + username + " "
    ensures m[11 + |username|..] == AppStatusCode(s)
  {
    "Volunteer " + username + " " + AppStatusCode(s)
  }

  /** The message names the volunteer and the decision unambiguously: its last letter tells the
      status, hence its length, and the rest is the username. */
  lemma DecisionMessageInjective(u: string, s: AppStatus, v: string, t: AppStatus)
    requires DecisionMessage(u, s) == DecisionMessage(v, t)
    ensures u == v && s == t
  {
    var m := DecisionMessage(u, s);
    var cs, ct := AppStatusCode(s), AppStatusCode(t);
    assert m[|m| - 1] == cs[|cs| - 1] == ct[|ct| - 1];
    assert |cs| == |ct|;
    assert u == m[10..10 + |u|] == v;
    assert cs == m[|m| - |cs|..] == ct;
    AppStatusRoundTrip(s);
    AppStatusRoundTrip(t);
  }

  /** UserVolunteerApplicationsView: the requester's own applications, newest first; the view
      requires authentication. */
  function MyApplications(apps: seq<VolunteerApplication>, r: Requester): (res: Result<seq<VolunteerApplication>, Error>)
    ensures res.Err? <==> r.Anonymous?
    ensures res.Err? ==> res.error == NotAuthenticated
    ensures res.Ok? ==> forall a :: a in res.value <==> a in apps && a.user == r.user.id
    ensures res.Ok? ==> forall a :: multiset(res.value)[a] == if a.user == r.user.id then multiset(apps)[a] else 0
    ensures res.Ok? ==> Seqs.SortedDesc(res.value, (a: VolunteerApplication) => a.appliedAt)
  {
    if !IsAuthenticated(r) then Err(Deny(r))
    else Ok(Seqs.Select(apps, (a: VolunteerApplication) => a.user == r.user.id, (a: VolunteerApplication) => a.appliedAt))
  }
}
