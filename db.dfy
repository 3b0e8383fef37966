/** The database the apps share: one table per model, the integrity the schema guarantees
    (primary keys, foreign keys, the volunteers' unique pair), and what deleting a row does to
    the rows that refer to it (`on_delete=CASCADE` and `on_delete=SET_NULL` in crisis/models.py,
    volunteers/models.py, donations/models.py and updates/models.py). */
module Db {
  import opened Common
  import opened Accounts
  import Crisis
  import Volunteers
  import Donations
  import Updates
  import Seqs

  datatype Db = Db(
    users: map<Id, User>,
    posts: seq<Crisis.CrisisPost>,
    sections: seq<Crisis.PostSection>,
    apps: seq<Volunteers.VolunteerApplication>,
    money: seq<Donations.DonationMoney>,
    goods: seq<Donations.DonationGoods>,
    updates: seq<Updates.CrisisUpdate>,
    comments: seq<Updates.Comment>,
    nextId: Id)

  // ---------------------------------------------------------------------------------------
  // Keys

  function SectionKey(s: Crisis.PostSection): Id { s.id }
  function AppKey(a: Volunteers.VolunteerApplication): Id { a.id }
  function MoneyKey(d: Donations.DonationMoney): Id { d.id }
  function GoodsKey(g: Donations.DonationGoods): Id { g.id }
  function UpdateKey(u: Updates.CrisisUpdate): Id { u.id }
  function CommentKey(c: Updates.Comment): Id { c.id }

  predicate HasPost(posts: seq<Crisis.CrisisPost>, id: Id)
  {
    exists p :: p in posts && p.id == id
  }

  predicate HasUpdate(updates: seq<Updates.CrisisUpdate>, id: Id)
  {
    exists u :: u in updates && u.id == id
  }

  /** The optional user reference is empty or names a user. */
  predicate OptUser(users: map<Id, User>, u: Option<Id>)
  {
    u.Some? ==> u.value in users
  }

  // ---------------------------------------------------------------------------------------
  // Integrity

  /** Each user sits under its own key; every key in use is below the next free one. */
  predicate KeysBelow(db: Db)
  {
    (forall k :: k in db.users ==> db.users[k].id == k && k < db.nextId)
    && (forall p :: p in db.posts ==> p.id < db.nextId)
    && (forall s :: s in db.sections ==> s.id < db.nextId)
    && (forall a :: a in db.apps ==> a.id < db.nextId)
    && (forall d :: d in db.money ==> d.id < db.nextId)
    && (forall g :: g in db.goods ==> g.id < db.nextId)
    && (forall u :: u in db.updates ==> u.id < db.nextId)
    && (forall c :: c in db.comments ==> c.id < db.nextId)
  }

  /** Primary keys are unique in every table. */
  predicate KeysDistinct(db: Db)
  {
    Crisis.UniqueIds(db.posts)
    && Seqs.DistinctBy(db.sections, SectionKey)
    && Seqs.DistinctBy(db.apps, AppKey)
    && Seqs.DistinctBy(db.money, MoneyKey)
    && Seqs.DistinctBy(db.goods, GoodsKey)
    && Seqs.DistinctBy(db.updates, UpdateKey)
    && Seqs.DistinctBy(db.comments, CommentKey)
  }

  predicate PostsLinked(db: Db)
  {
    forall p :: p in db.posts ==> p.owner in db.users
  }

  predicate SectionsLinked(db: Db)
  {
    forall s :: s in db.sections ==> HasPost(db.posts, s.post) && OptUser(db.users, s.createdBy)
  }

  predicate AppsLinked(db: Db)
  {
    forall a :: a in db.apps ==> a.user in db.users && HasPost(db.posts, a.post)
  }

  predicate DonationsLinked(db: Db)
  {
    (forall d :: d in db.money ==> HasPost(db.posts, d.crisisPost) && OptUser(db.users, d.who.donor))
    && (forall g :: g in db.goods ==> HasPost(db.posts, g.crisisPost) && OptUser(db.users, g.who.donor))
  }

  predicate UpdatesLinked(db: Db)
  {
    forall u :: u in db.updates ==> HasPost(db.posts, u.post) && u.createdBy in db.users
  }

  predicate CommentsLinked(db: Db)
  {
    forall c :: c in db.comments ==> HasUpdate(db.updates, c.update) && c.user in db.users
  }

  /** Every foreign key names an existing row. */
  predicate Linked(db: Db)
  {
    PostsLinked(db) && SectionsLinked(db) && AppsLinked(db) && DonationsLinked(db)
    && UpdatesLinked(db) && CommentsLinked(db)
  }

  /** What the schema guarantees of every committed state. */
  predicate Consistent(db: Db)
  {
    KeysBelow(db) && KeysDistinct(db) && Linked(db) && Volunteers.UniquePairs(db.apps)
  }

  // ---------------------------------------------------------------------------------------
  // Deleting a post: its sections, applications, donations and updates go with it, and so do
  // the comments on those updates.

  /** The keys of the updates on post `pid`. */
  function UpdatesOfPost(db: Db, pid: Id): set<Id>
  {
    set u | u in db.updates && u.post == pid :: u.id
  }

  function DeletePost(db: Db, pid: Id): Db
  {
    var gone := UpdatesOfPost(db, pid);
    db.(posts := Seqs.Filter(db.posts, (p: Crisis.CrisisPost) => p.id != pid),
        sections := Seqs.Filter(db.sections, (s: Crisis.PostSection) => s.post != pid),
        apps := Seqs.Filter(db.apps, (a: Volunteers.VolunteerApplication) => a.post != pid),
        money := Seqs.Filter(db.money, (d: Donations.DonationMoney) => d.crisisPost != pid),
        goods := Seqs.Filter(db.goods, (g: Donations.DonationGoods) => g.crisisPost != pid),
        updates := Seqs.Filter(db.updates, (u: Updates.CrisisUpdate) => u.post != pid),
        comments := Seqs.Filter(db.comments, (c: Updates.Comment) => c.update !in gone))
  }

  /** After deleting a post nothing refers to it, and every row that did not depend on it stays. */
  lemma DeletePostCascades(db: Db, pid: Id)
    ensures var r := DeletePost(db, pid);
            (forall p :: p in r.posts <==> p in db.posts && p.id != pid)
            && (forall s :: s in r.sections <==> s in db.sections && s.post != pid)
            && (forall a :: a in r.apps <==> a in db.apps && a.post != pid)
            && (forall d :: d in r.money <==> d in db.money && d.crisisPost != pid)
            && (forall g :: g in r.goods <==> g in db.goods && g.crisisPost != pid)
            && (forall u :: u in r.updates <==> u in db.updates && u.post != pid)
            && (forall c :: c in r.comments <==>
                  c in db.comments && !exists u :: u in db.updates && u.post == pid && u.id == c.update)
            && r.users == db.users && r.nextId == db.nextId
  {
    var gone := UpdatesOfPost(db, pid);
    forall c: Updates.Comment ensures c.update in gone <==> exists u :: u in db.updates && u.post == pid && u.id == c.update {
      if c.update in gone {
        var u :| u in db.updates && u.post == pid && u.id == c.update;
      }
    }
  }

  /** A post other than the deleted one survives. */
  lemma PostSurvivesDeletePost(db: Db, pid: Id, id: Id)
    requires HasPost(db.posts, id) && id != pid
    ensures HasPost(DeletePost(db, pid).posts, id)
  {
    var p :| p in db.posts && p.id == id;
    assert p in DeletePost(db, pid).posts;
  }

  lemma DeletePostKeys(db: Db, pid: Id)
    requires KeysBelow(db) && KeysDistinct(db) && Volunteers.UniquePairs(db.apps)
    ensures var r := DeletePost(db, pid);
            KeysBelow(r) && KeysDistinct(r) && Volunteers.UniquePairs(r.apps)
  {
    Seqs.FilterDistinct(db.posts, (p: Crisis.CrisisPost) => p.id != pid, Crisis.PostKey);
    Seqs.FilterDistinct(db.sections, (s: Crisis.PostSection) => s.post != pid, SectionKey);
    Seqs.FilterDistinct(db.apps, (a: Volunteers.VolunteerApplication) => a.post != pid, AppKey);
    Seqs.FilterDistinct(db.apps, (a: Volunteers.VolunteerApplication) => a.post != pid, Volunteers.Pair);
    Seqs.FilterDistinct(db.money, (d: Donations.DonationMoney) => d.crisisPost != pid, MoneyKey);
    Seqs.FilterDistinct(db.goods, (g: Donations.DonationGoods) => g.crisisPost != pid, GoodsKey);
    Seqs.FilterDistinct(db.updates, (u: Updates.CrisisUpdate) => u.post != pid, UpdateKey);
    var gone := UpdatesOfPost(db, pid);
    Seqs.FilterDistinct(db.comments, (c: Updates.Comment) => c.update !in gone, CommentKey);
  }

  lemma DeletePostLinksPosts(db: Db, pid: Id)
    requires PostsLinked(db) && SectionsLinked(db) && AppsLinked(db)
    ensures var r := DeletePost(db, pid);
            PostsLinked(r) && SectionsLinked(r) && AppsLinked(r)
  {
    var r := DeletePost(db, pid);
    forall s | s in r.sections ensures HasPost(r.posts, s.post) && OptUser(r.users, s.createdBy) {
      PostSurvivesDeletePost(db, pid, s.post);
    }
    forall a | a in r.apps ensures a.user in r.users && HasPost(r.posts, a.post) {
      PostSurvivesDeletePost(db, pid, a.post);
    }
  }

  lemma DeletePostLinksDonations(db: Db, pid: Id)
    requires DonationsLinked(db) && UpdatesLinked(db)
    ensures var r := DeletePost(db, pid);
            DonationsLinked(r) && UpdatesLinked(r)
  {
    var r := DeletePost(db, pid);
    forall d | d in r.money ensures HasPost(r.posts, d.crisisPost) && OptUser(r.users, d.who.donor) {
      PostSurvivesDeletePost(db, pid, d.crisisPost);
    }
    forall g | g in r.goods ensures HasPost(r.posts, g.crisisPost) && OptUser(r.users, g.who.donor) {
      PostSurvivesDeletePost(db, pid, g.crisisPost);
    }
    forall u | u in r.updates ensures HasPost(r.posts, u.post) && u.createdBy in r.users {
      PostSurvivesDeletePost(db, pid, u.post);
    }
  }

  lemma DeletePostLinksComments(db: Db, pid: Id)
    requires CommentsLinked(db)
    ensures CommentsLinked(DeletePost(db, pid))
  {
    var r := DeletePost(db, pid);
    var gone := UpdatesOfPost(db, pid);
    forall c | c in r.comments ensures HasUpdate(r.updates, c.update) && c.user in r.users {
      assert c in db.comments && c.update !in gone;
      var u :| u in db.updates && u.id == c.update;
      assert u.post != pid;
      assert u in r.updates;
    }
  }

  /** Deleting a post keeps the database consistent. */
  lemma DeletePostConsistent(db: Db, pid: Id)
    requires Consistent(db)
    ensures Consistent(DeletePost(db, pid))
  {
    DeletePostKeys(db, pid);
    DeletePostLinksPosts(db, pid);
    DeletePostLinksDonations(db, pid);
    DeletePostLinksComments(db, pid);
  }

  // ---------------------------------------------------------------------------------------
  // Deleting a user: the posts they own go (with everything a deleted post takes along), and
  // so do their applications, their updates (with the comments on them) and their comments.
  // The creator of a surviving section and the donor of a surviving donation are cleared.

  /** The keys of the posts `uid` owns. */
  function OwnedPosts(db: Db, uid: Id): set<Id>
  {
    set p | p in db.posts && p.owner == uid :: p.id
  }

  /** The keys of the updates that go: those by `uid` and those on posts `uid` owns. */
  function UpdatesGone(db: Db, uid: Id): set<Id>
  {
    var owned := OwnedPosts(db, uid);
    set u | u in db.updates && (u.createdBy == uid || u.post in owned) :: u.id
  }

  /** SET_NULL on a section's creator. */
  function ClearCreator(s: Crisis.PostSection, uid: Id): Crisis.PostSection
  {
    if s.createdBy == Some(uid) then s.(createdBy := None) else s
  }

  /** SET_NULL on a donation's donor. */
  function ClearDonor(w: Donations.DonorFields, uid: Id): Donations.DonorFields
  {
    if w.donor == Some(uid) then w.(donor := None) else w
  }

  function DeleteUser(db: Db, uid: Id): Db
  {
    var owned := OwnedPosts(db, uid);
    var gone := UpdatesGone(db, uid);
    Db(db.users - {uid},
       Seqs.Filter(db.posts, (p: Crisis.CrisisPost) => p.owner != uid),
       Seqs.Map(Seqs.Filter(db.sections, (s: Crisis.PostSection) => s.post !in owned),
                (s: Crisis.PostSection) => ClearCreator(s, uid)),
       Seqs.Filter(db.apps, (a: Volunteers.VolunteerApplication) => a.user != uid && a.post !in owned),
       Seqs.Map(Seqs.Filter(db.money, (d: Donations.DonationMoney) => d.crisisPost !in owned),
                (d: Donations.DonationMoney) => d.(who := ClearDonor(d.who, uid))),
       Seqs.Map(Seqs.Filter(db.goods, (g: Donations.DonationGoods) => g.crisisPost !in owned),
                (g: Donations.DonationGoods) => g.(who := ClearDonor(g.who, uid))),
       Seqs.Filter(db.updates, (u: Updates.CrisisUpdate) => u.createdBy != uid && u.post !in owned),
       Seqs.Filter(db.comments, (c: Updates.Comment) => c.user != uid && c.update !in gone),
       db.nextId)
  }

  /** A post survives exactly when its owner is someone else. */
  lemma PostSurvivesDeleteUser(db: Db, uid: Id, id: Id)
    requires HasPost(db.posts, id) && id !in OwnedPosts(db, uid)
    ensures HasPost(DeleteUser(db, uid).posts, id)
  {
    var p :| p in db.posts && p.id == id;
    assert p.owner != uid;
    assert p in DeleteUser(db, uid).posts;
  }

  /** An update survives unless its author is the user or its post is one the user owns. */
  lemma UpdateSurvivesDeleteUser(db: Db, uid: Id, id: Id)
    requires HasUpdate(db.updates, id) && id !in UpdatesGone(db, uid)
    ensures HasUpdate(DeleteUser(db, uid).updates, id)
  {
    var u :| u in db.updates && u.id == id;
    assert u.createdBy != uid && u.post !in OwnedPosts(db, uid);
    assert u in DeleteUser(db, uid).updates;
  }

  /** Nothing is left that refers to the deleted user. */
  lemma DeleteUserLeavesNoReference(db: Db, uid: Id)
    ensures var r := DeleteUser(db, uid);
            uid !in r.users
            && (forall p :: p in r.posts ==> p.owner != uid)
            && (forall s :: s in r.sections ==> s.createdBy != Some(uid))
            && (forall a :: a in r.apps ==> a.user != uid)
            && (forall d :: d in r.money ==> d.who.donor != Some(uid))
            && (forall g :: g in r.goods ==> g.who.donor != Some(uid))
            && (forall u :: u in r.updates ==> u.createdBy != uid)
            && (forall c :: c in r.comments ==> c.user != uid)
  {
    var r := DeleteUser(db, uid);
    forall s | s in r.sections ensures s.createdBy != Some(uid) {
      var i :| 0 <= i < |r.sections| && r.sections[i] == s;
    }
    forall d | d in r.money ensures d.who.donor != Some(uid) {
      var i :| 0 <= i < |r.money| && r.money[i] == d;
    }
    forall g | g in r.goods ensures g.who.donor != Some(uid) {
      var i :| 0 <= i < |r.goods| && r.goods[i] == g;
    }
  }

  /** Deleting a user removes the posts they own and keeps every other post. */
  lemma DeleteUserRemovesOwnedPosts(db: Db, uid: Id)
    ensures forall p :: p in DeleteUser(db, uid).posts <==> p in db.posts && p.owner != uid
  {
  }

  /** SET_NULL: a section the user created on a post they do not own stays, with no creator. */
  lemma DeleteUserKeepsSection(db: Db, uid: Id, s: Crisis.PostSection)
    requires s in db.sections && s.createdBy == Some(uid) && s.post !in OwnedPosts(db, uid)
    ensures s.(createdBy := None) in DeleteUser(db, uid).sections
  {
    var f := Seqs.Filter(db.sections, (x: Crisis.PostSection) => x.post !in OwnedPosts(db, uid));
    var i :| 0 <= i < |f| && f[i] == s;
    assert DeleteUser(db, uid).sections[i] == s.(createdBy := None);
  }

  /** SET_NULL: a money donation by the user to a post they do not own stays, with no donor and
      its other fields unchanged. */
  lemma DeleteUserKeepsDonation(db: Db, uid: Id, d: Donations.DonationMoney)
    requires d in db.money && d.who.donor == Some(uid) && d.crisisPost !in OwnedPosts(db, uid)
    ensures d.(who := d.who.(donor := None)) in DeleteUser(db, uid).money
  {
    var f := Seqs.Filter(db.money, (x: Donations.DonationMoney) => x.crisisPost !in OwnedPosts(db, uid));
    var i :| 0 <= i < |f| && f[i] == d;
    assert DeleteUser(db, uid).money[i] == d.(who := d.who.(donor := None));
  }

  /** SET_NULL: a goods donation by the user to a post they do not own stays, with no donor and
      its other fields unchanged. */
  lemma DeleteUserKeepsGoods(db: Db, uid: Id, g: Donations.DonationGoods)
    requires g in db.goods && g.who.donor == Some(uid) && g.crisisPost !in OwnedPosts(db, uid)
    ensures g.(who := g.who.(donor := None)) in DeleteUser(db, uid).goods
  {
    var f := Seqs.Filter(db.goods, (x: Donations.DonationGoods) => x.crisisPost !in OwnedPosts(db, uid));
    var i :| 0 <= i < |f| && f[i] == g;
    assert DeleteUser(db, uid).goods[i] == g.(who := g.who.(donor := None));
  }

  /** Sections and donations of other users on posts that survive stay exactly as they were. */
  lemma DeleteUserKeepsOthersRows(db: Db, uid: Id)
    ensures var r := DeleteUser(db, uid);
            var owned := OwnedPosts(db, uid);
            (forall s :: s in db.sections && s.createdBy != Some(uid) && s.post !in owned ==> s in r.sections)
            && (forall d :: d in db.money && d.who.donor != Some(uid) && d.crisisPost !in owned ==> d in r.money)
            && (forall g :: g in db.goods && g.who.donor != Some(uid) && g.crisisPost !in owned ==> g in r.goods)
  {
    var r := DeleteUser(db, uid);
    var owned := OwnedPosts(db, uid);
    var fs := Seqs.Filter(db.sections, (x: Crisis.PostSection) => x.post !in owned);
    forall s | s in db.sections && s.createdBy != Some(uid) && s.post !in owned ensures s in r.sections {
      var i :| 0 <= i < |fs| && fs[i] == s;
      assert r.sections[i] == s;
    }
    var fm := Seqs.Filter(db.money, (x: Donations.DonationMoney) => x.crisisPost !in owned);
    forall d | d in db.money && d.who.donor != Some(uid) && d.crisisPost !in owned ensures d in r.money {
      var i :| 0 <= i < |fm| && fm[i] == d;
      assert r.money[i] == d;
    }
    var fg := Seqs.Filter(db.goods, (x: Donations.DonationGoods) => x.crisisPost !in owned);
    forall g | g in db.goods && g.who.donor != Some(uid) && g.crisisPost !in owned ensures g in r.goods {
      var i :| 0 <= i < |fg| && fg[i] == g;
      assert r.goods[i] == g;
    }
  }

  /** Every section and donation left was on a surviving post, with at most its creator or donor
      cleared. */
  lemma DeleteUserRowsOrigin(db: Db, uid: Id)
    ensures var r := DeleteUser(db, uid);
            var owned := OwnedPosts(db, uid);
            (forall s' :: s' in r.sections ==>
               exists s :: s in db.sections && s.post !in owned && s' == ClearCreator(s, uid))
            && (forall d' :: d' in r.money ==>
                  exists d :: d in db.money && d.crisisPost !in owned && d' == d.(who := ClearDonor(d.who, uid)))
            && (forall g' :: g' in r.goods ==>
                  exists g :: g in db.goods && g.crisisPost !in owned && g' == g.(who := ClearDonor(g.who, uid)))
  {
    var r := DeleteUser(db, uid);
    var owned := OwnedPosts(db, uid);
    var fs := Seqs.Filter(db.sections, (x: Crisis.PostSection) => x.post !in owned);
    forall s' | s' in r.sections
      ensures exists s :: s in db.sections && s.post !in owned && s' == ClearCreator(s, uid)
    {
      var i :| 0 <= i < |r.sections| && r.sections[i] == s';
      assert fs[i] in fs;
    }
    var fm := Seqs.Filter(db.money, (x: Donations.DonationMoney) => x.crisisPost !in owned);
    forall d' | d' in r.money
      ensures exists d :: d in db.money && d.crisisPost !in owned && d' == d.(who := ClearDonor(d.who, uid))
    {
      var i :| 0 <= i < |r.money| && r.money[i] == d';
      assert fm[i] in fm;
    }
    var fg := Seqs.Filter(db.goods, (x: Donations.DonationGoods) => x.crisisPost !in owned);
    forall g' | g' in r.goods
      ensures exists g :: g in db.goods && g.crisisPost !in owned && g' == g.(who := ClearDonor(g.who, uid))
    {
      var i :| 0 <= i < |r.goods| && r.goods[i] == g';
      assert fg[i] in fg;
    }
  }

  /** The user's applications, updates and comments go; so do those on the posts they own. */
  lemma DeleteUserCascades(db: Db, uid: Id)
    ensures var r := DeleteUser(db, uid);
            var owned := OwnedPosts(db, uid);
            (forall a :: a in r.apps <==> a in db.apps && a.user != uid && a.post !in owned)
            && (forall u :: u in r.updates <==> u in db.updates && u.createdBy != uid && u.post !in owned)
            && (forall c :: c in r.comments <==>
                  c in db.comments && c.user != uid && c.update !in UpdatesGone(db, uid))
            && (forall c :: c in r.comments ==> forall u :: u in db.updates && u.id == c.update ==>
                  u.createdBy != uid && u.post !in owned)
  {
    var r := DeleteUser(db, uid);
    forall c, u | c in r.comments && u in db.updates && u.id == c.update
      ensures u.createdBy != uid && u.post !in OwnedPosts(db, uid)
    {
      assert c.update !in UpdatesGone(db, uid);
    }
  }

  lemma DeleteUserKeys(db: Db, uid: Id)
    requires KeysBelow(db) && KeysDistinct(db) && Volunteers.UniquePairs(db.apps)
    ensures var r := DeleteUser(db, uid);
            KeysBelow(r) && KeysDistinct(r) && Volunteers.UniquePairs(r.apps)
  {
    DeleteUserKeysDistinct(db, uid);
    DeleteUserKeysBelow(db, uid);
  }

  lemma DeleteUserKeysDistinct(db: Db, uid: Id)
    requires KeysDistinct(db) && Volunteers.UniquePairs(db.apps)
    ensures var r := DeleteUser(db, uid);
            KeysDistinct(r) && Volunteers.UniquePairs(r.apps)
  {
    var r := DeleteUser(db, uid);
    var owned := OwnedPosts(db, uid);
    var gone := UpdatesGone(db, uid);
    Seqs.FilterDistinct(db.posts, (p: Crisis.CrisisPost) => p.owner != uid, Crisis.PostKey);
    var fs := Seqs.Filter(db.sections, (s: Crisis.PostSection) => s.post !in owned);
    Seqs.FilterDistinct(db.sections, (s: Crisis.PostSection) => s.post !in owned, SectionKey);
    Seqs.MapDistinct(fs, r.sections, SectionKey);
    Seqs.FilterDistinct(db.apps, (a: Volunteers.VolunteerApplication) => a.user != uid && a.post !in owned, AppKey);
    Seqs.FilterDistinct(db.apps, (a: Volunteers.VolunteerApplication) => a.user != uid && a.post !in owned, Volunteers.Pair);
    var fm := Seqs.Filter(db.money, (d: Donations.DonationMoney) => d.crisisPost !in owned);
    Seqs.FilterDistinct(db.money, (d: Donations.DonationMoney) => d.crisisPost !in owned, MoneyKey);
    Seqs.MapDistinct(fm, r.money, MoneyKey);
    var fg := Seqs.Filter(db.goods, (g: Donations.DonationGoods) => g.crisisPost !in owned);
    Seqs.FilterDistinct(db.goods, (g: Donations.DonationGoods) => g.crisisPost !in owned, GoodsKey);
    Seqs.MapDistinct(fg, r.goods, GoodsKey);
    Seqs.FilterDistinct(db.updates, (u: Updates.CrisisUpdate) => u.createdBy != uid && u.post !in owned, UpdateKey);
    Seqs.FilterDistinct(db.comments, (c: Updates.Comment) => c.user != uid && c.update !in gone, CommentKey);
  }

  lemma DeleteUserKeysBelow(db: Db, uid: Id)
    requires KeysBelow(db)
    ensures KeysBelow(DeleteUser(db, uid))
  {
    var r := DeleteUser(db, uid);
    var owned := OwnedPosts(db, uid);
    var fs := Seqs.Filter(db.sections, (s: Crisis.PostSection) => s.post !in owned);
    var fm := Seqs.Filter(db.money, (d: Donations.DonationMoney) => d.crisisPost !in owned);
    var fg := Seqs.Filter(db.goods, (g: Donations.DonationGoods) => g.crisisPost !in owned);
    forall s | s in r.sections ensures s.id < r.nextId {
      var i :| 0 <= i < |r.sections| && r.sections[i] == s;
      assert fs[i] in fs;
    }
    forall d | d in r.money ensures d.id < r.nextId {
      var i :| 0 <= i < |r.money| && r.money[i] == d;
      assert fm[i] in fm;
    }
    forall g | g in r.goods ensures g.id < r.nextId {
      var i :| 0 <= i < |r.goods| && r.goods[i] == g;
      assert fg[i] in fg;
    }
  }

  lemma DeleteUserLinksSections(db: Db, uid: Id)
    requires PostsLinked(db) && SectionsLinked(db) && AppsLinked(db)
    ensures var r := DeleteUser(db, uid);
            PostsLinked(r) && SectionsLinked(r) && AppsLinked(r)
  {
    var r := DeleteUser(db, uid);
    var owned := OwnedPosts(db, uid);
    var fs := Seqs.Filter(db.sections, (s: Crisis.PostSection) => s.post !in owned);
    forall s | s in r.sections ensures HasPost(r.posts, s.post) && OptUser(r.users, s.createdBy) {
      var i :| 0 <= i < |r.sections| && r.sections[i] == s;
      assert fs[i] in fs;
      PostSurvivesDeleteUser(db, uid, s.post);
    }
    forall a | a in r.apps ensures a.user in r.users && HasPost(r.posts, a.post) {
      PostSurvivesDeleteUser(db, uid, a.post);
    }
  }

  lemma DeleteUserLinksDonations(db: Db, uid: Id)
    requires DonationsLinked(db)
    ensures DonationsLinked(DeleteUser(db, uid))
  {
    var r := DeleteUser(db, uid);
    var owned := OwnedPosts(db, uid);
    var fm := Seqs.Filter(db.money, (d: Donations.DonationMoney) => d.crisisPost !in owned);
    var fg := Seqs.Filter(db.goods, (g: Donations.DonationGoods) => g.crisisPost !in owned);
    forall d | d in r.money ensures HasPost(r.posts, d.crisisPost) && OptUser(r.users, d.who.donor) {
      var i :| 0 <= i < |r.money| && r.money[i] == d;
      assert fm[i] in fm;
      PostSurvivesDeleteUser(db, uid, d.crisisPost);
    }
    forall g | g in r.goods ensures HasPost(r.posts, g.crisisPost) && OptUser(r.users, g.who.donor) {
      var i :| 0 <= i < |r.goods| && r.goods[i] == g;
      assert fg[i] in fg;
      PostSurvivesDeleteUser(db, uid, g.crisisPost);
    }
  }

  lemma DeleteUserLinksUpdates(db: Db, uid: Id)
    requires UpdatesLinked(db) && CommentsLinked(db)
    ensures var r := DeleteUser(db, uid);
            UpdatesLinked(r) && CommentsLinked(r)
  {
    var r := DeleteUser(db, uid);
    forall u | u in r.updates ensures HasPost(r.posts, u.post) && u.createdBy in r.users {
      PostSurvivesDeleteUser(db, uid, u.post);
    }
    forall c | c in r.comments ensures HasUpdate(r.updates, c.update) && c.user in r.users {
      UpdateSurvivesDeleteUser(db, uid, c.update);
    }
  }

  /** Deleting a user keeps the database consistent. */
  lemma DeleteUserConsistent(db: Db, uid: Id)
    requires Consistent(db)
    ensures Consistent(DeleteUser(db, uid))
  {
    DeleteUserKeys(db, uid);
    DeleteUserLinksSections(db, uid);
    DeleteUserLinksDonations(db, uid);
    DeleteUserLinksUpdates(db, uid);
  }

  // ---------------------------------------------------------------------------------------
  // Deleting an update (its comments go with it) and deleting a comment

  function DeleteUpdate(db: Db, id: Id): Db
  {
    db.(updates := Seqs.Filter(db.updates, (u: Updates.CrisisUpdate) => u.id != id),
        comments := Seqs.Filter(db.comments, (c: Updates.Comment) => c.update != id))
  }

  /** The update and its comments go; every other row stays. */
  lemma DeleteUpdateCascades(db: Db, id: Id)
    ensures var r := DeleteUpdate(db, id);
            (forall u :: u in r.updates <==> u in db.updates && u.id != id)
            && (forall c :: c in r.comments <==> c in db.comments && c.update != id)
            && r.posts == db.posts && r.users == db.users && r.apps == db.apps
            && r.money == db.money && r.goods == db.goods && r.sections == db.sections
  {
  }

  lemma DeleteUpdateConsistent(db: Db, id: Id)
    requires Consistent(db)
    ensures Consistent(DeleteUpdate(db, id))
  {
    var r := DeleteUpdate(db, id);
    Seqs.FilterDistinct(db.updates, (u: Updates.CrisisUpdate) => u.id != id, UpdateKey);
    Seqs.FilterDistinct(db.comments, (c: Updates.Comment) => c.update != id, CommentKey);
    forall c | c in r.comments ensures HasUpdate(r.updates, c.update) && c.user in r.users {
      var u :| u in db.updates && u.id == c.update;
      assert u in r.updates;
    }
  }

  function DeleteComment(db: Db, id: Id): Db
  {
    db.(comments := Seqs.Filter(db.comments, (c: Updates.Comment) => c.id != id))
  }

  lemma DeleteCommentConsistent(db: Db, id: Id)
    requires Consistent(db)
    ensures Consistent(DeleteComment(db, id))
    ensures forall c :: c in DeleteComment(db, id).comments <==> c in db.comments && c.id != id
  {
    Seqs.FilterDistinct(db.comments, (c: Updates.Comment) => c.id != id, CommentKey);
  }

  // ---------------------------------------------------------------------------------------
  // Inserting rows under the next free key

  lemma HasPostAppend(posts: seq<Crisis.CrisisPost>, p: Crisis.CrisisPost, id: Id)
    requires HasPost(posts, id)
    ensures HasPost(posts + [p], id)
  {
    var q :| q in posts && q.id == id;
    assert q in posts + [p];
  }

  lemma HasUpdateAppend(updates: seq<Updates.CrisisUpdate>, u: Updates.CrisisUpdate, id: Id)
    requires HasUpdate(updates, id)
    ensures HasUpdate(updates + [u], id)
  {
    var q :| q in updates && q.id == id;
    assert q in updates + [u];
  }

  function AddUser(db: Db, u: User): Db
  {
    db.(users := db.users[u.id := u], nextId := db.nextId + 1)
  }

  lemma AddUserConsistent(db: Db, u: User)
    requires Consistent(db) && u.id == db.nextId
    ensures Consistent(AddUser(db, u))
  {
  }

  function AddPost(db: Db, p: Crisis.CrisisPost): Db
  {
    db.(posts := db.posts + [p], nextId := db.nextId + 1)
  }

  lemma AddPostConsistent(db: Db, p: Crisis.CrisisPost)
    requires Consistent(db) && p.id == db.nextId && p.owner in db.users
    ensures Consistent(AddPost(db, p))
  {
    var r := AddPost(db, p);
    Seqs.AppendDistinct(db.posts, p, Crisis.PostKey);
    forall id | HasPost(db.posts, id) ensures HasPost(r.posts, id) {
      HasPostAppend(db.posts, p, id);
    }
  }

  function AddApp(db: Db, a: Volunteers.VolunteerApplication): Db
  {
    db.(apps := db.apps + [a], nextId := db.nextId + 1)
  }

  lemma AddAppConsistent(db: Db, a: Volunteers.VolunteerApplication)
    requires Consistent(db) && a.id == db.nextId && a.user in db.users && HasPost(db.posts, a.post)
    requires !Volunteers.HasApplied(db.apps, a.user, a.post)
    ensures Consistent(AddApp(db, a))
  {
    Seqs.AppendDistinct(db.apps, a, AppKey);
    Volunteers.AppendKeepsUniquePairs(db.apps, a);
  }

  function AddMoney(db: Db, d: Donations.DonationMoney): Db
  {
    db.(money := db.money + [d], nextId := db.nextId + 1)
  }

  lemma AddMoneyConsistent(db: Db, d: Donations.DonationMoney)
    requires Consistent(db) && d.id == db.nextId && HasPost(db.posts, d.crisisPost) && OptUser(db.users, d.who.donor)
    ensures Consistent(AddMoney(db, d))
  {
    Seqs.AppendDistinct(db.money, d, MoneyKey);
  }

  function AddGoods(db: Db, g: Donations.DonationGoods): Db
  {
    db.(goods := db.goods + [g], nextId := db.nextId + 1)
  }

  lemma AddGoodsConsistent(db: Db, g: Donations.DonationGoods)
    requires Consistent(db) && g.id == db.nextId && HasPost(db.posts, g.crisisPost) && OptUser(db.users, g.who.donor)
    ensures Consistent(AddGoods(db, g))
  {
    Seqs.AppendDistinct(db.goods, g, GoodsKey);
  }

  function AddUpdate(db: Db, u: Updates.CrisisUpdate): Db
  {
    db.(updates := db.updates + [u], nextId := db.nextId + 1)
  }

  lemma AddUpdateConsistent(db: Db, u: Updates.CrisisUpdate)
    requires Consistent(db) && u.id == db.nextId && HasPost(db.posts, u.post) && u.createdBy in db.users
    ensures Consistent(AddUpdate(db, u))
  {
    var r := AddUpdate(db, u);
    Seqs.AppendDistinct(db.updates, u, UpdateKey);
    forall id | HasUpdate(db.updates, id) ensures HasUpdate(r.updates, id) {
      HasUpdateAppend(db.updates, u, id);
    }
  }

  function AddComment(db: Db, c: Updates.Comment): Db
  {
    db.(comments := db.comments + [c], nextId := db.nextId + 1)
  }

  lemma AddCommentConsistent(db: Db, c: Updates.Comment)
    requires Consistent(db) && c.id == db.nextId && HasUpdate(db.updates, c.update) && c.user in db.users
    ensures Consistent(AddComment(db, c))
  {
    Seqs.AppendDistinct(db.comments, c, CommentKey);
  }

  // ---------------------------------------------------------------------------------------
  // Lookups by primary key

  /** With one row per key, looking up a row's key finds that row. */
  lemma FindApplicationAt(apps: seq<Volunteers.VolunteerApplication>, i: nat)
    requires Seqs.DistinctBy(apps, AppKey) && i < |apps|
    ensures Volunteers.FindApplication(apps, apps[i].id) == Some(apps[i])
  {
    assert apps[i] in apps;
    var q := Volunteers.FindApplication(apps, apps[i].id).value;
    Seqs.DistinctByKeyDetermines(apps, AppKey, apps[i], q);
  }

  lemma FindUpdateAt(updates: seq<Updates.CrisisUpdate>, i: nat)
    requires Seqs.DistinctBy(updates, UpdateKey) && i < |updates|
    ensures Updates.FindUpdate(updates, updates[i].id) == Some(updates[i])
  {
    assert updates[i] in updates;
    var q := Updates.FindUpdate(updates, updates[i].id).value;
    Seqs.DistinctByKeyDetermines(updates, UpdateKey, updates[i], q);
  }

  lemma FindCommentAt(comments: seq<Updates.Comment>, i: nat)
    requires Seqs.DistinctBy(comments, CommentKey) && i < |comments|
    ensures Updates.FindComment(comments, comments[i].id) == Some(comments[i])
  {
    assert comments[i] in comments;
    var q := Updates.FindComment(comments, comments[i].id).value;
    Seqs.DistinctByKeyDetermines(comments, CommentKey, comments[i], q);
  }

  // ---------------------------------------------------------------------------------------
  // Saving an edited row in place

  lemma HasPostReplace(posts: seq<Crisis.CrisisPost>, i: nat, p: Crisis.CrisisPost, id: Id)
    requires i < |posts| && p.id == posts[i].id && HasPost(posts, id)
    ensures HasPost(posts[i := p], id)
  {
    var q :| q in posts && q.id == id;
    var k :| 0 <= k < |posts| && posts[k] == q;
    if k == i {
      assert posts[i := p][i] == p;
    } else {
      assert posts[i := p][k] == q;
    }
  }

  function ReplacePost(db: Db, i: nat, p: Crisis.CrisisPost): Db
    requires i < |db.posts|
  {
    db.(posts := db.posts[i := p])
  }

  lemma ReplacePostConsistent(db: Db, i: nat, p: Crisis.CrisisPost)
    requires Consistent(db) && i < |db.posts| && p.id == db.posts[i].id && p.owner in db.users
    ensures Consistent(ReplacePost(db, i, p))
  {
    var r := ReplacePost(db, i, p);
    Seqs.ReplaceDistinct(db.posts, i, p, Crisis.PostKey);
    forall id | HasPost(db.posts, id) ensures HasPost(r.posts, id) {
      HasPostReplace(db.posts, i, p, id);
    }
    assert forall q :: q in r.posts ==> q == p || q in db.posts;
  }

  function ReplaceApp(db: Db, i: nat, a: Volunteers.VolunteerApplication): Db
    requires i < |db.apps|
  {
    db.(apps := db.apps[i := a])
  }

  lemma ReplaceAppConsistent(db: Db, i: nat, a: Volunteers.VolunteerApplication)
    requires Consistent(db) && i < |db.apps|
    requires a.id == db.apps[i].id && a.user == db.apps[i].user && a.post == db.apps[i].post
    ensures Consistent(ReplaceApp(db, i, a))
  {
    Seqs.ReplaceDistinct(db.apps, i, a, AppKey);
    Seqs.ReplaceDistinct(db.apps, i, a, Volunteers.Pair);
    assert db.apps[i] in db.apps;
    assert forall x :: x in db.apps[i := a] ==> x == a || x in db.apps;
  }

  function ReplaceUpdate(db: Db, i: nat, u: Updates.CrisisUpdate): Db
    requires i < |db.updates|
  {
    db.(updates := db.updates[i := u])
  }

  lemma ReplaceUpdateConsistent(db: Db, i: nat, u: Updates.CrisisUpdate)
    requires Consistent(db) && i < |db.updates| && u.id == db.updates[i].id
    requires HasPost(db.posts, u.post) && u.createdBy in db.users
    ensures Consistent(ReplaceUpdate(db, i, u))
  {
    var r := ReplaceUpdate(db, i, u);
    Seqs.ReplaceDistinct(db.updates, i, u, UpdateKey);
    assert forall x :: x in r.updates ==> x == u || x in db.updates;
    forall c | c in r.comments ensures HasUpdate(r.updates, c.update) {
      var q :| q in db.updates && q.id == c.update;
      var k :| 0 <= k < |db.updates| && db.updates[k] == q;
      assert r.updates[k].id == c.update;
    }
  }

  function ReplaceComment(db: Db, i: nat, c: Updates.Comment): Db
    requires i < |db.comments|
  {
    db.(comments := db.comments[i := c])
  }

  lemma ReplaceCommentConsistent(db: Db, i: nat, c: Updates.Comment)
    requires Consistent(db) && i < |db.comments|
    requires c.id == db.comments[i].id && c.update == db.comments[i].update && c.user == db.comments[i].user
    ensures Consistent(ReplaceComment(db, i, c))
  {
    Seqs.ReplaceDistinct(db.comments, i, c, CommentKey);
    assert db.comments[i] in db.comments;
    assert forall x :: x in db.comments[i := c] ==> x == c || x in db.comments;
  }
}
