# CrisisAid backend: a Dafny model of its business rules

CrisisAid is a Django REST backend for crisis relief. Users register, then open crisis posts (with
sections), volunteer on other users' posts, donate money or goods, and publish progress updates with
comments. This project models the rule layer of that backend over an in-memory relational store and
proves what the code promises about it:

- the closed choices (post type and status, application status, payment method) and their defaults;
- the permission classes, and the order in which a view applies them: the view-level check, the
  object lookup (404), the object-level check, the serializer's validation, then the save;
- the validators and the creation rules: registration, donations, volunteer applications, the
  update gate (staff, post owner or approved volunteer), and comments;
- the in-place approve/reject decision on an application;
- the list filters, the donation summary (a sum that is 0 when there are no rows, and counts), and
  the admin list helpers (fifty-character previews, the masked donor, the comment count);
- the schema's delete rules (CASCADE and SET_NULL), stated as a consistency invariant of the whole
  database that every write preserves.

Layout:

- `common.dfy`: options, results, keys, request methods, and the ways a request fails.
- `seqs.dfy`: the generic filters, sorting, lookups and sums that the querysets are built from.
- `display.dfy`: previews, decimal rendering, and the invalid-key message.
- `accounts.dfy`, `crisis.dfy`, `volunteers.dfy`, `donations.dfy`, `updates.dfy`: one module per
  Django app.
- `db.dfy`: the database as a value. `Consistent` says keys are unique and below the next free key,
  every foreign key names a row, and the (user, post) pair of an application is unique. It also holds
  every insert, edit and delete as a function, each with a lemma that the invariant is kept.
- `store.dfy`: a `Store` class with one field per table. Its methods are the views that write, each
  keeping `Valid()` and stating its new state as one of the `Db` functions.

Some behaviours are modelled as the code has them, even where they look unintended:

- `status` is a writable field of the post serializer, so an owner can approve their own post.
- Editing an update applies no gate, and its `crisis_post` is writable.
- A volunteer may apply to a post in any status.
- A decision can be repeated or reversed.
- Registration never sets `username`, which is unique and defaults to the empty string. After the
  first registration, every further one therefore fails at the database.
- A second application by the same user on the same post passes the serializer (the user is not a
  serializer field) and is refused by the database's unique pair.

Request payloads are typed values: each optional field is an `Option`, and PUT and PATCH are told
apart by a `partial` flag. Money is integer cents. Timestamps are integers passed in by the caller.
All tables draw keys from one counter.

## Model

| member | source | states |
|---|---|---|
| Accounts.IsAuthenticatedOrCreateOnly | accounts/permissions.py:9-16 | every POST is allowed; the actions "create" and "register" are allowed; anything else is allowed exactly when the requester is authenticated |
| Accounts.IsOwner | accounts/permissions.py:23-24 | allowed exactly when the requester is authenticated and has the object's key, as model instances compare by key |
| Accounts.IsNGO | accounts/permissions.py:31-32 | allowed exactly for an authenticated user whose role is "ngo" |
| Accounts.IsAdminUserOrReadOnly | accounts/permissions.py:39-42 | safe methods always pass; other methods pass exactly for authenticated staff |
| Accounts.AdminOrReadOnlyNeedsStaffToWrite | accounts/permissions.py:39-42 | a write that passes was made by an authenticated staff user |
| Accounts.MissingFields | accounts/serializers.py:11-20 | one "This field is required." error for each missing required field, and no other error |
| Accounts.EmailErrors | accounts/models.py:8 | no error exactly when an email is given and no user has it; a missing email is "required"; a used one is "already exists" |
| Accounts.KnownFields | accounts/serializers.py:14-20 | the validated data holds exactly the payload's registration fields with their values |
| Accounts.PasswordErrors | accounts/serializers.py:11-12 | no error exactly when both password fields are present |
| Accounts.ValidateRegistration | accounts/serializers.py:22-25 | succeeds exactly when the required fields are present, the email is unused and the passwords match; success returns the known fields unchanged; a missing field gets its "required" error and every error is then a field error, so the mismatch is reported only when the fields are valid |
| Accounts.ValidatedKeepsKnownFields | accounts/serializers.py:25 | validated data is a sub-map of the payload holding every registration field given |
| Accounts.NewUser | accounts/serializers.py:27-31 | the user is inactive, not staff, has an empty username, carries the email and password, and keeps no confirm_password |
| Accounts.RegisteredUserInactive | accounts/serializers.py:31 | every validated registration yields an inactive user |
| Accounts.RegisteredUsernamesClash | accounts/serializers.py:16-20 | any two registered users have the same (empty) username |
| Crisis.ParsePostType | crisis/models.py:7-11 | a stored string names a post type exactly when it is national, district or individual |
| Crisis.PostTypeRoundTrip | crisis/models.py:7-11 | every post type's code parses back to it |
| Crisis.ParsePostStatus | crisis/models.py:13-17 | a stored string names a status exactly when it is pending, approved or rejected |
| Crisis.PostStatusRoundTrip | crisis/models.py:13-17 | every status's code parses back to it |
| Crisis.OwnerName | crisis/models.py:36-38 | owner_name is the owner's username |
| Crisis.CreatorName | crisis/models.py:65-67 | creator_name is the creator's username, or "Unknown" when the creator is cleared |
| Crisis.FindPost | crisis/views.py:7 | the lookup finds a post with that key, and finds none exactly when no post has it |
| Crisis.FindPostUnique | crisis/views.py:7 | with unique keys, the lookup of a post's key returns that post |
| Crisis.NewPost | crisis/views.py:14-15 | the owner is the requester whatever the payload; an omitted status is pending; the given fields are kept |
| Crisis.ValidatePostPatch | crisis/serializers.py:14-16 | a PATCH always passes; a PUT passes exactly when title, description and post_type are all given |
| Crisis.ApplyPostPatch | crisis/serializers.py:14-16 | supplied fields replace stored ones, updated_at is renewed, and the key, owner and creation time stay |
| Crisis.OwnerCanApproveOwnPost | crisis/serializers.py:16 | an owner's PATCH of status moves a pending post to approved |
| Crisis.IsOwnerOrReadOnly | crisis/permissions.py:8-13 | safe methods pass; other methods pass exactly for the post's owner |
| Crisis.PostViewAccess | crisis/views.py:9 | a request passes the view-level check exactly when it is safe or authenticated; otherwise it is told to authenticate |
| Crisis.PostObjectAccess | crisis/views.py:9 | a request on one post passes exactly when it is safe or made by the owner |
| Crisis.PostAccessIgnoresStatus | crisis/permissions.py:8-13 | the decision is the same whatever the post's status |
| Crisis.StaffNotExempt | crisis/permissions.py:12-13 | a staff user who does not own the post is refused a write |
| Crisis.CreateNeedsAuthentication | crisis/views.py:9 | creating passes the permission chain exactly for authenticated requesters |
| Crisis.ChooseOrdering | crisis/views.py:10-12 | the first term naming an allowed field decides, wherever it stands among invalid terms; with none, newest created_at first |
| Crisis.ListPosts | crisis/views.py:7-12 | the list is a permutation of all posts, sorted by the chosen ordering |
| Crisis.ListNewestFirst | crisis/views.py:7 | without an ordering parameter, created_at never increases along the list |
| Crisis.ListShowsEveryPost | crisis/views.py:7 | every post is listed, whatever its status |
| Crisis.PostLabel | crisis/models.py:32-33 | a post's string form is its title followed by " (", its type's code and ")" |
| Crisis.PostLabelInjective | crisis/models.py:32-33 | two posts with the same string form have the same title and type |
| Volunteers.ParseAppStatus | volunteers/models.py:8-12 | a stored string names an application status exactly when it is pending, approved or rejected |
| Volunteers.AppStatusRoundTrip | volunteers/models.py:8-12 | every application status's code parses back to it |
| Volunteers.FindApplication | volunteers/views.py:25 | the lookup finds an application with that key, and finds none exactly when no application has it |
| Volunteers.ApplicationOfPairUnique | volunteers/models.py:20-21 | under the unique pair, two applications by one user on one post are the same row |
| Volunteers.AppendKeepsUniquePairs | volunteers/models.py:20-21 | adding an application for a pair with none keeps the pair unique |
| Volunteers.VolunteerName | volunteers/models.py:28-30 | volunteer_name is the applicant's username |
| Volunteers.CrisisTitle | volunteers/models.py:32-34 | crisis_title is the title of the application's post |
| Volunteers.NewApplication | volunteers/serializers.py:13-21 | the applicant is the requester, the post is the given one, the status is pending and the message empty |
| Volunteers.ViewApplication | volunteers/serializers.py:4-10 | the read view shows the applicant's username, the post's label and the status code |
| Volunteers.IsPostOwnerOrReadOnly | volunteers/permissions.py:7-8 | allowed exactly for the owner of the application's post, for every method |
| Volunteers.IsVolunteerOwner | volunteers/permissions.py:14-15 | allowed exactly for the applicant |
| Volunteers.ChecksIgnoreStatusAndStaff | volunteers/permissions.py:7-15 | neither check depends on the application's status or the staff flag |
| Volunteers.DecisionStatus | volunteers/views.py:28-34 | "approve" gives approved, "reject" gives rejected, anything else is invalid |
| Volunteers.Decide | volunteers/views.py:32-34 | only the status changes, to the decided one |
| Volunteers.DecideOverwrites | volunteers/views.py:32-34 | deciding again overwrites the earlier decision; repeating it changes nothing |
| Volunteers.DecisionMessage | volunteers/views.py:35 | the success message is "Volunteer ", the volunteer's username and a space, followed by the new status's code |
| Volunteers.DecisionMessageInjective | volunteers/views.py:35 | the message determines both the volunteer's username and the decision |
| Volunteers.MyApplications | volunteers/views.py:13-18 | authenticated only; exactly the requester's applications, each as often as in the table, newest first |
| Donations.ParsePaymentMethod | donations/models.py:8-15 | a stored string names a payment method exactly when it is one of the six codes |
| Donations.PaymentMethodRoundTrip | donations/models.py:8-15 | every payment method's code parses back to it |
| Donations.DisplayName | donations/models.py:38-45 | "Anonymous" when hidden; else the donor user's name; else the guest name when non-empty; else "Anonymous" |
| Donations.DisplayNamesAgree | donations/models.py:71-78 | goods donations resolve the name by the same rule as money donations |
| Donations.AnonymousHidesUser | donations/models.py:41-42 | a hidden donation shows "Anonymous" even with a donor user attached |
| Donations.ValidateAmount | donations/serializers.py:40-43 | an amount passes unchanged exactly when it is positive; otherwise the amount error |
| Donations.ValidateDonationPost | donations/serializers.py:45-48 | a post passes exactly when it is approved; otherwise the approved-only error |
| Donations.CheckDonationPost | donations/serializers.py:93-96 | an unknown key gives the invalid-key error; no error implies an approved post with that key, and with unique keys the converse holds |
| Donations.ValidateMoney | donations/serializers.py:25-48 | valid exactly when the post check passes and the amount is positive; the amount error appears exactly when the amount is not positive |
| Donations.ValidateGoods | donations/serializers.py:78-96 | valid exactly when the post check passes; nothing else is checked |
| Donations.GoodsCheckOnlyPost | donations/serializers.py:93-96 | two goods payloads for the same post validate alike |
| Donations.AssignDonor | donations/serializers.py:50-54 | the donor is the requester when authenticated, and none otherwise |
| Donations.NewMoney | donations/serializers.py:50-54 | the donor comes from the request; the payment method defaults to bkash and is_anonymous to false; the other fields are the payload's |
| Donations.NewGoods | donations/serializers.py:98-102 | the donor comes from the request; is_anonymous defaults to false; the other fields are the payload's |
| Donations.DonorFromRequestOnly | donations/serializers.py:25-38 | the recorded donor depends only on who sends the request |
| Donations.AggregateSum | donations/views.py:80 | the aggregate has no value exactly over no rows, and is otherwise the sum of amounts |
| Donations.SumOrZero | donations/views.py:80 | the total is the sum of amounts, 0 for no rows |
| Donations.MoneyOfPost | donations/views.py:54-56 | exactly the post's money donations, each as often as in the table, newest first |
| Donations.GoodsOfPost | donations/views.py:64-66 | exactly the post's goods donations, each as often as in the table, newest first |
| Donations.Summary | donations/views.py:73-94 | not found exactly for an unknown post; otherwise the post's title, its donations of each kind as a permutation of the table's rows for the post, newest donated_at first, their total and the two record counts |
| Donations.SummaryTotalIsTableSum | donations/views.py:77-80 | the summary total is the sum over the post's rows as stored |
| Donations.SummaryCountsAreTableCounts | donations/views.py:81-82 | the summary's counts are the numbers of the post's rows in each table |
| Donations.SummaryAfterDonation | donations/views.py:77-82 | one more money donation raises the total by its amount and the count by one, leaving the goods count |
| Donations.SummaryTotalPositive | donations/views.py:80-81 | with positive amounts, the total is positive exactly when the post has a money donation |
| Donations.MyDonations | donations/views.py:98-112 | authenticated only; the requester's donations of each kind as a permutation of the table's rows for them, newest donated_at first, their money total and the combined count |
| Donations.MyDonationsAreTableTotals | donations/views.py:102-108 | the requester's money total is the sum over their rows as stored, and the count is the number of their rows in both tables |
| Donations.MyDonationsIncludeAnonymous | donations/views.py:102 | a donor's hidden donations are still in their own list |
| Donations.DisplayDonor | donations/admin.py:14-17 | hidden donors show the grey marker; others their display name |
| Donations.DisplayDonorHidesNames | donations/admin.py:14-17 | the admin never shows a hidden donor's username |
| Donations.ItemDescriptionShort | donations/admin.py:47-48 | up to 50 characters unchanged; longer is the first 50 plus "..."; never over 53 |
| Donations.ChangelistTotal | donations/admin.py:26-30 | the changelist total is the sum of every money amount, 0 when none |
| Donations.ChangelistTotalSplits | donations/admin.py:28 | the changelist total is one post's summary total plus the total of all other posts |
| Display.Preview | updates/admin.py:53-54 | up to 50 characters unchanged; longer is the first 50 plus "..."; never over 53 |
| Display.PreviewKeepsPrefix | updates/admin.py:54 | a preview begins with the text's first (up to 50) characters |
| Display.PreviewIsTextIff | updates/admin.py:54 | a preview equals its text exactly when the text is short, or is 50 characters followed by "..." |
| Display.NatToString | updates/admin.py:21 | a count is rendered as a non-empty string of decimal digits with no leading zero |
| Display.ParseNatToString | updates/admin.py:21 | the rendering reads back as the same count |
| Display.NatToStringInjective | updates/admin.py:21 | distinct counts render differently |
| Display.InvalidPkNamesKey | updates/serializers.py:24 | the invalid-key message of a related field determines the key it names |
| Updates.FindUpdate | updates/views.py:45 | the lookup finds an update with that key, and finds none exactly when no update has it |
| Updates.FindComment | updates/views.py:87 | the lookup finds a comment with that key, and finds none exactly when no comment has it |
| Updates.CreatorName | updates/models.py:24-26 | creator_name is the creator's username |
| Updates.CreatorEmail | updates/models.py:28-30 | creator_email is the creator's email |
| Updates.CommenterName | updates/models.py:52-54 | commenter_name is the author's username |
| Updates.TotalComments | updates/models.py:32-34 | the count is 0 exactly when no comment is on the update, and never exceeds the comments |
| Updates.TotalCommentsAfterComment | updates/models.py:32-34 | a new comment adds one to its own update's count and nothing to others |
| Updates.IsUpdateCreatorOrReadOnly | updates/permissions.py:7-12 | safe methods pass; others pass exactly for the update's creator |
| Updates.IsCommentOwnerOrReadOnly | updates/permissions.py:19-24 | safe methods pass; others pass exactly for the comment's author |
| Updates.CanCreateUpdate | updates/permissions.py:31-43 | every non-POST passes; a POST passes exactly when authenticated, staff or not |
| Updates.CreateUpdateAccess | updates/views.py:20 | creating passes exactly for authenticated requesters; otherwise they are told to authenticate |
| Updates.CanCreateUpdateAddsNothing | updates/permissions.py:39-43 | after authentication, CanCreateUpdate never refuses |
| Updates.UpdateObjectAccess | updates/views.py:47 | a request on an update passes exactly when safe or made by its creator |
| Updates.CommentObjectAccess | updates/views.py:89 | a request on a comment passes exactly when safe or made by its author |
| Updates.OnlyAuthorsWrite | updates/permissions.py:7-24 | neither the post owner nor staff may write someone else's update or comment |
| Updates.ApprovedVolunteerQuery | updates/serializers.py:98-103 | the query is true exactly when the user has an approved application on the post |
| Updates.ValidateUpdatePost | updates/serializers.py:84-110 | the gate passes exactly for staff, the post owner, or an approved volunteer on that post; otherwise the gate message |
| Updates.GateIgnoresPostStatus | updates/serializers.py:84-110 | the gate gives the same answer whatever the post's status |
| Updates.UndecidedApplicantRefused | updates/serializers.py:99-108 | a pending or rejected applicant (not staff, not owner) is refused |
| Updates.ApprovalOpensGate | updates/serializers.py:98-103 | approving an applicant's application lets them pass the gate on that post |
| Updates.ValidateUpdate | updates/serializers.py:79-110 | an unknown post key gives the invalid-key error; with unique keys, success is exactly the gate passing on the named post |
| Updates.NewUpdate | updates/serializers.py:112-114 | the creator is the requester whatever the payload; the given fields are kept |
| Updates.ValidateComment | updates/serializers.py:21-24 | a comment validates exactly when its update exists; otherwise the invalid-key error on update |
| Updates.NewComment | updates/serializers.py:26-28 | the author is the requester; the update and text are the payload's |
| Updates.ValidateUpdatePatch | updates/serializers.py:38-55 | a PUT needs post, title and description; a given post key must exist; nothing else is checked |
| Updates.ApplyUpdatePatch | updates/serializers.py:38-55 | supplied fields replace stored ones, updated_at is renewed, and the key, creator and creation time stay |
| Updates.EditBypassesGate | updates/views.py:44-47 | a creator refused by the gate on a post can still move their update onto it by an edit |
| Updates.ValidateCommentPatch | updates/serializers.py:8-18 | a PATCH always passes; a PUT passes exactly when the text is given |
| Updates.ApplyCommentPatch | updates/serializers.py:8-18 | only the text (when given) and updated_at change |
| Updates.Timeline | updates/views.py:38-40 | exactly the post's updates, each as often as in the table, newest first; an unknown post gives an empty list |
| Updates.MyUpdates | updates/views.py:51-56 | authenticated only; exactly the requester's updates, each as often as in the table, newest first |
| Updates.CommentsOf | updates/views.py:80-82 | exactly the update's comments, each as often as in the table, newest first |
| Updates.CommentsOfCountsTotal | updates/models.py:32-34 | the comment list is as long as total_comments |
| Updates.MyComments | updates/views.py:112-117 | authenticated only; exactly the requester's comments, each as often as in the table, newest first |
| Updates.TotalCommentsDisplay | updates/admin.py:18-22 | "No comments" exactly for 0; otherwise the count followed by " comment(s)" |
| Updates.TotalCommentsDisplayInjective | updates/admin.py:18-22 | different counts are displayed differently |
| Updates.CreatorDisplay | updates/admin.py:14-15 | creator_display is the creator's name |
| Updates.CommenterDisplay | updates/admin.py:45-46 | commenter_display is the author's name |
| Updates.UpdateTitle | updates/admin.py:49-50 | update_title is the title of the commented update |
| Updates.TextPreview | updates/admin.py:53-54 | up to 50 characters unchanged; longer is the first 50 plus "..."; never over 53 |
| Db.DeletePostCascades | crisis/models.py:55 | deleting a post removes exactly its sections, applications, donations and updates, and the comments on those updates; users stay |
| Db.DeletePostConsistent | crisis/models.py:55 | deleting a post keeps the database consistent |
| Db.DeleteUserLeavesNoReference | crisis/models.py:23 | after deleting a user no row refers to them |
| Db.DeleteUserRemovesOwnedPosts | crisis/models.py:23 | deleting a user removes exactly the posts they own |
| Db.DeleteUserKeepsSection | crisis/models.py:58 | a section the user created on a surviving post stays, with its creator cleared |
| Db.DeleteUserKeepsDonation | donations/models.py:18 | a money donation the user made to a surviving post stays, with its donor cleared and its other fields unchanged |
| Db.DeleteUserKeepsGoods | donations/models.py:50 | a goods donation the user made to a surviving post stays, with its donor cleared and its other fields unchanged |
| Db.DeleteUserKeepsOthersRows | crisis/models.py:58 | other users' sections and donations on posts that survive stay unchanged |
| Db.DeleteUserRowsOrigin | crisis/models.py:23 | every section and donation left was on a post that survives, with at most its creator or donor cleared |
| Db.DeleteUserCascades | updates/models.py:9 | an application, update or comment stays exactly when it is not the user's and does not hang off a post they own (or, for a comment, an update that goes) |
| Db.DeleteUserConsistent | crisis/models.py:23 | deleting a user keeps the database consistent |
| Db.DeleteUpdateCascades | updates/models.py:38 | deleting an update removes exactly it and its comments; other tables stay |
| Db.DeleteUpdateConsistent | updates/models.py:38 | deleting an update keeps the database consistent |
| Db.DeleteCommentConsistent | updates/views.py:103-108 | deleting a comment removes exactly that comment and keeps the database consistent |
| Db.AddUserConsistent | accounts/serializers.py:32 | saving a new user under the next key keeps the database consistent |
| Db.AddPostConsistent | crisis/views.py:14-15 | saving a post with an existing owner keeps the database consistent |
| Db.AddAppConsistent | volunteers/models.py:20-21 | saving an application for a pair with none keeps the database consistent |
| Db.AddMoneyConsistent | donations/serializers.py:50-54 | saving a money donation on an existing post keeps the database consistent |
| Db.AddGoodsConsistent | donations/serializers.py:98-102 | saving a goods donation on an existing post keeps the database consistent |
| Db.AddUpdateConsistent | updates/serializers.py:112-114 | saving an update on an existing post keeps the database consistent |
| Db.AddCommentConsistent | updates/serializers.py:26-28 | saving a comment on an existing update keeps the database consistent |
| Db.ReplacePostConsistent | crisis/views.py:9 | saving an edited post in place keeps the database consistent |
| Db.ReplaceAppConsistent | volunteers/views.py:32-33 | saving a decided application in place keeps the database consistent |
| Db.ReplaceUpdateConsistent | updates/views.py:44-47 | saving an edited update whose post exists keeps the database consistent |
| Db.ReplaceCommentConsistent | updates/views.py:91-96 | saving an edited comment in place keeps the database consistent |
| Store.Store.Register | accounts/serializers.py:22-32 | validation errors pass through; when a user with the empty username already exists the save fails on the username (as it does after any earlier registration); otherwise one inactive user is added under the next key |
| Store.Store.CreatePost | crisis/views.py:14-15 | refused exactly for anonymous requesters; otherwise the post is added with the requester as owner |
| Store.Store.EditPost | crisis/views.py:6-9 | anonymous, then missing post (404), then non-owner are refused in that order; the edit succeeds exactly for the owner with a valid payload and replaces only that post |
| Store.Store.DestroyPost | crisis/views.py:6-9 | the owner's delete succeeds and applies the post's cascades; others are refused and nothing changes |
| Store.Store.Apply | volunteers/views.py:8-10 | anonymous is refused; an unknown post is the invalid-key error; a second application is an integrity error; otherwise a pending application is added, whatever the post's status |
| Store.Store.DecideApplication | volunteers/views.py:22-35 | authentication, then the action (400), then 404, then the post owner's check; success overwrites only the status and names the volunteer |
| Store.Store.DonateMoney | donations/views.py:18-30 | anyone may donate; validation errors pass through; otherwise the donation is added with the donor taken from the request |
| Store.Store.DonateGoods | donations/views.py:34-46 | anyone may donate; validation errors pass through; otherwise the donation is added with the donor taken from the request |
| Store.Store.PostUpdate | updates/views.py:18-30 | anonymous is refused; the gate's errors pass through; otherwise the update is added with the requester as creator |
| Store.Store.EditUpdate | updates/views.py:44-47 | anonymous, 404, then non-creator are refused; the creator's valid edit replaces only that update, with no gate |
| Store.Store.DestroyUpdate | updates/views.py:44-47 | the creator's delete removes the update and its comments; others are refused and nothing changes |
| Store.Store.AddComment | updates/views.py:60-72 | anonymous is refused; an unknown update is the invalid-key error; otherwise the comment is added with the requester as author |
| Store.Store.EditComment | updates/views.py:91-101 | anonymous, 404, then non-author are refused; the author's valid edit replaces only that comment |
| Store.Store.DestroyComment | updates/views.py:103-108 | the author's delete removes the comment and answers "Comment deleted successfully!"; others are refused |
| Store.Store.RemoveUser | crisis/models.py:23 | deleting a user applies every delete rule and keeps the database consistent |

## Left out

- Search (`search_fields`) is not modelled: it matches case-insensitively, and the model has no case folding.
- Tie-breaking between equal timestamps in the orderings is not modelled; only the order by the sort key is stated.
- Images (banner, update and profile pictures) are not modelled: they are file uploads with no rule attached.
- Password hashing (`set_password`) is not modelled: the model stores the password handed to it.
- Email confirmation, allauth and social login are not modelled: they are calls into foreign libraries. accounts/adapter.py and accounts/views.py are not part of this model.
- The `float(...)` conversion of totals in the summary and "my donations" is not modelled; totals stay exact integer cents.
- Field-level limits are not modelled: max_length, max_digits and decimal_places, blank, and email and URL formats. Only presence and the rules written in the serializers are.
- Payloads with wrong types or missing keys are not modelled, except for registration: payloads are typed values.
- Concurrency, transactions and automatic timestamps are not modelled. A single store handles one request at a time, and `now` is a parameter.
- One key counter is shared by all tables; the database uses one sequence per table. Keys are only compared for equality, so the rules do not depend on this.
- HTML output from `format_html` appears only as literal strings.
- The changelist's `f"৳ {total:,.2f}"` formatting and its `extra_context` dict are not modelled; the total before formatting is.
- `amount_display` in donations/admin.py is not modelled: it is formatting only.
- The `__str__` of donations and updates is not modelled; the string form of a post is (`Crisis.PostLabel`).
- The read serializers' field lists are not modelled, apart from the volunteer application view.
- CustomUser has no `role` field, so `role` is modelled as an abstract field of the user.
- urls.py is not modelled, including volunteers/urls.py importing views that do not exist.
- Behaviour exercised only by the tests is not modelled, because the views do not implement it: approve/reject actions on posts, my_posts, and status-filtered listing.
- The PUT path of ApproveRejectVolunteerView (the inherited `update`) is not modelled; only its PATCH handler is.
- Listing and retrieving single objects through the post and detail view sets is not modelled beyond the list ordering; reads always pass the permission chains.
- crisis/management/commands/populate_data.py is not part of this model: it seeds the database from random data.
- Crisis.ValidatePostPatch: checks only that the required fields are present, because the field limits above are left out.
