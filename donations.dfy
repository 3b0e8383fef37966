/** The donations app: money and goods donations (donations/models.py), the create serializers'
    checks (donations/serializers.py), the per-post lists, the summary and "my donations"
    (donations/views.py), and the admin list helpers (donations/admin.py). */
module Donations {
  import opened Common
  import opened Accounts
  import Crisis
  import Seqs
  import Display

  datatype PaymentMethod = Bkash | Nagad | Rocket | Bank | Card | Other

  function PaymentMethodCode(m: PaymentMethod): string
  {
    match m
    case Bkash => "bkash"
    case Nagad => "nagad"
    case Rocket => "rocket"
    case Bank => "bank"
    case Card => "card"
    case Other => "other"
  }

  function ParsePaymentMethod(s: string): (r: Option<PaymentMethod>)
    ensures r.Some? ==> PaymentMethodCode(r.value) == s
    ensures r.None? <==> s !in {"bkash", "nagad", "rocket", "bank", "card", "other"}
  {
    if s == "bkash" then Some(Bkash)
    else if s == "nagad" then Some(Nagad)
    else if s == "rocket" then Some(Rocket)
    else if s == "bank" then Some(Bank)
    else if s == "card" then Some(Card)
    else if s == "other" then Some(Other)
    else None
  }

  lemma {:induction false} PaymentMethodRoundTrip(m: PaymentMethod)
    ensures ParsePaymentMethod(PaymentMethodCode(m)) == Some(m)
  {
    match m
    case Bkash =>
    case Nagad =>
    case Rocket =>
    case Bank =>
    case Card =>
    case Other =>
  }

  const DefaultPaymentMethod := Bkash

  /** Who gave: a user (cleared when that user is deleted) and the guest fields. */
  datatype DonorFields = DonorFields(
    donor: Option<Id>,
    donorName: Option<string>,
    donorEmail: Option<string>,
    donorPhone: Option<string>)

  /** A DonationMoney row; `amount` in cents. */
  datatype DonationMoney = DonationMoney(
    id: Id,
    crisisPost: Id,
    who: DonorFields,
    amount: Cents,
    paymentMethod: PaymentMethod,
    transactionId: Option<string>,
    message: Option<string>,
    isAnonymous: bool,
    donatedAt: Time)

  /** A DonationGoods row. */
  datatype DonationGoods = DonationGoods(
    id: Id,
    crisisPost: Id,
    who: DonorFields,
    itemDescription: string,
    quantity: Option<string>,
    deliveryMethod: Option<string>,
    message: Option<string>,
    isAnonymous: bool,
    donatedAt: Time)

  // ---------------------------------------------------------------------------------------
  // display_name, shared by both models

  const AnonymousName := "Anonymous"

  /** Python's truthiness of an optional string: present and non-empty. */
  predicate Truthy(s: Option<string>)
  {
    s.Some? && s.value != ""
  }

  /** The `display_name` rule: hidden donors are "Anonymous"; otherwise the donor user's name,
      else the guest name when non-empty, else "Anonymous". */
  function DisplayName(isAnonymous: bool, who: DonorFields, users: map<Id, User>): (name: string)
    requires who.donor.Some? ==> who.donor.value in users
    ensures isAnonymous ==> name == AnonymousName
    ensures !isAnonymous && who.donor.Some? ==> name == users[who.donor.value].username
    ensures !isAnonymous && who.donor.None? && Truthy(who.donorName) ==> name == who.donorName.value
    ensures !isAnonymous && who.donor.None? && !Truthy(who.donorName) ==> name == AnonymousName
  {
    if isAnonymous then AnonymousName
    else if who.donor.Some? then users[who.donor.value].username
    else if Truthy(who.donorName) then who.donorName.value
    else AnonymousName
  }

  function MoneyDisplayName(d: DonationMoney, users: map<Id, User>): string
    requires d.who.donor.Some? ==> d.who.donor.value in users
  {
    DisplayName(d.isAnonymous, d.who, users)
  }

  function GoodsDisplayName(g: DonationGoods, users: map<Id, User>): string
    requires g.who.donor.Some? ==> g.who.donor.value in users
  {
    DisplayName(g.isAnonymous, g.who, users)
  }

  /** The two models resolve names by one rule: equal donor fields and flags give equal names. */
  lemma DisplayNamesAgree(d: DonationMoney, g: DonationGoods, users: map<Id, User>)
    requires d.who == g.who && d.isAnonymous == g.isAnonymous
    requires d.who.donor.Some? ==> d.who.donor.value in users
    ensures MoneyDisplayName(d, users) == GoodsDisplayName(g, users)
  {
  }

  /** A hidden donation shows "Anonymous" even when a user is attached. */
  lemma AnonymousHidesUser(d: DonationMoney, users: map<Id, User>)
    requires d.isAnonymous && d.who.donor.Some? && d.who.donor.value in users
    ensures MoneyDisplayName(d, users) == AnonymousName
  {
  }

  // ---------------------------------------------------------------------------------------
  // donations/serializers.py

  /** DonationMoneyCreateSerializer's writable fields: `donor` is not among them. */
  datatype MoneyInput = MoneyInput(
    crisisPost: Id,
    donorName: Option<string>,
    donorEmail: Option<string>,
    donorPhone: Option<string>,
    amount: Cents,
    paymentMethod: Option<PaymentMethod>,
    transactionId: Option<string>,
    message: Option<string>,
    isAnonymous: Option<bool>)

  /** DonationGoodsCreateSerializer's writable fields. */
  datatype GoodsInput = GoodsInput(
    crisisPost: Id,
    donorName: Option<string>,
    donorEmail: Option<string>,
    donorPhone: Option<string>,
    itemDescription: string,
    quantity: Option<string>,
    deliveryMethod: Option<string>,
    message: Option<string>,
    isAnonymous: Option<bool>)

  const AmountMessage := "Amount must be greater than 0."
  const ApprovedOnlyMessage := "You can only donate to approved crisis posts."

  /** `validate_amount`. */
  function ValidateAmount(amount: Cents): (r: Result<Cents, FieldError>)
    ensures r.Ok? <==> amount > 0
    ensures r.Ok? ==> r.value == amount
    ensures r.Err? ==> r.error == FieldError("amount", AmountMessage)
  {
    if amount <= 0 then Err(FieldError("amount", AmountMessage)) else Ok(amount)
  }

  /** `validate_crisis_post`, written identically in both create serializers. */
  function ValidateDonationPost(p: Crisis.CrisisPost): (r: Result<Crisis.CrisisPost, FieldError>)
    ensures r.Ok? <==> p.status == Crisis.Approved
    ensures r.Ok? ==> r.value == p
    ensures r.Err? ==> r.error == FieldError("crisis_post", ApprovedOnlyMessage)
  {
    if p.status != Crisis.Approved then Err(FieldError("crisis_post", ApprovedOnlyMessage)) else Ok(p)
  }

  /** The `crisis_post` field: the key must name a post (else the related-field error), and the
      post must be approved. */
  function CheckDonationPost(posts: seq<Crisis.CrisisPost>, pk: Id): (errs: seq<FieldError>)
    ensures (forall p :: p in posts ==> p.id != pk) ==> errs == [FieldError("crisis_post", Display.InvalidPk(pk))]
    ensures errs == [] ==> exists p :: p in posts && p.id == pk && p.status == Crisis.Approved
    ensures Crisis.UniqueIds(posts) ==>
              (errs == [] <==> exists p :: p in posts && p.id == pk && p.status == Crisis.Approved)
    ensures errs == [] || errs == [FieldError("crisis_post", Display.InvalidPk(pk))]
            || errs == [FieldError("crisis_post", ApprovedOnlyMessage)]
  {
    match Crisis.FindPost(posts, pk)
    case None => [FieldError("crisis_post", Display.InvalidPk(pk))]
    case Some(p) =>
      assert Crisis.UniqueIds(posts) ==> forall q :: q in posts && q.id == pk ==> q == p by {
        if Crisis.UniqueIds(posts) {
          forall q | q in posts && q.id == pk ensures q == p {
            Crisis.FindPostUnique(posts, q);
          }
        }
      }
      match ValidateDonationPost(p)
      case Ok(_) => []
      case Err(e) => [e]
  }

  /** DonationMoneyCreateSerializer validation: field errors are collected in field order,
      `crisis_post` before `amount`; valid data comes back as given. */
  function ValidateMoney(input: MoneyInput, posts: seq<Crisis.CrisisPost>): (r: Result<MoneyInput, Error>)
    ensures r.Ok? ==> r.value == input
    ensures r.Ok? <==> CheckDonationPost(posts, input.crisisPost) == [] && input.amount > 0
    ensures r.Ok? ==> input.amount > 0
                      && exists p :: p in posts && p.id == input.crisisPost && p.status == Crisis.Approved
    ensures r.Err? ==> r.error.ValidationFailed?
    ensures r.Err? ==> (FieldError("amount", AmountMessage) in r.error.errors <==> input.amount <= 0)
  {
    var errs := CheckDonationPost(posts, input.crisisPost)
      + (match ValidateAmount(input.amount) case Ok(_) => [] case Err(e) => [e]);
    if errs == [] then Ok(input) else Err(ValidationFailed(errs))
  }

  /** DonationGoodsCreateSerializer validation: only the post is checked; quantities and
      descriptions are taken as given. */
  function ValidateGoods(input: GoodsInput, posts: seq<Crisis.CrisisPost>): (r: Result<GoodsInput, Error>)
    ensures r.Ok? ==> r.value == input
    ensures r.Ok? <==> CheckDonationPost(posts, input.crisisPost) == []
    ensures r.Ok? ==> exists p :: p in posts && p.id == input.crisisPost && p.status == Crisis.Approved
    ensures r.Err? ==> r.error.ValidationFailed? && |r.error.errors| == 1
  {
    var errs := CheckDonationPost(posts, input.crisisPost);
    if errs == [] then Ok(input) else Err(ValidationFailed(errs))
  }

  /** The goods check ignores everything but the post: two inputs to the same post validate
      alike. */
  lemma GoodsCheckOnlyPost(a: GoodsInput, b: GoodsInput, posts: seq<Crisis.CrisisPost>)
    requires a.crisisPost == b.crisisPost
    ensures ValidateGoods(a, posts).Ok? == ValidateGoods(b, posts).Ok?
  {
  }

  /** `create`: an authenticated requester becomes the donor; otherwise there is none. */
  function AssignDonor(r: Requester): (donor: Option<Id>)
    ensures donor.Some? <==> r.Authenticated?
    ensures donor.Some? ==> donor.value == r.user.id
  {
    if r.Authenticated? then Some(r.user.id) else None
  }

  /** The money row `create` saves: the donor from the request, the client's other fields, and
      the model defaults for an omitted payment method (bKash) and anonymity flag (false). */
  function NewMoney(input: MoneyInput, r: Requester, id: Id, now: Time): (d: DonationMoney)
    ensures d.id == id && d.crisisPost == input.crisisPost && d.amount == input.amount && d.donatedAt == now
    ensures d.who.donor == AssignDonor(r)
    ensures d.who.donorName == input.donorName && d.who.donorEmail == input.donorEmail
            && d.who.donorPhone == input.donorPhone
    ensures d.paymentMethod == (if input.paymentMethod.Some? then input.paymentMethod.value else Bkash)
    ensures d.isAnonymous <==> input.isAnonymous == Some(true)
    ensures d.transactionId == input.transactionId && d.message == input.message
  {
    DonationMoney(id, input.crisisPost,
                  DonorFields(AssignDonor(r), input.donorName, input.donorEmail, input.donorPhone),
                  input.amount,
                  match input.paymentMethod case Some(m) => m case None => DefaultPaymentMethod,
                  input.transactionId, input.message,
                  match input.isAnonymous case Some(b) => b case None => false,
                  now)
  }

  /** The goods row `create` saves. */
  function NewGoods(input: GoodsInput, r: Requester, id: Id, now: Time): (g: DonationGoods)
    ensures g.id == id && g.crisisPost == input.crisisPost && g.donatedAt == now
    ensures g.who.donor == AssignDonor(r)
    ensures g.who.donorName == input.donorName && g.who.donorEmail == input.donorEmail
            && g.who.donorPhone == input.donorPhone
    ensures g.itemDescription == input.itemDescription && g.quantity == input.quantity
            && g.deliveryMethod == input.deliveryMethod && g.message == input.message
    ensures g.isAnonymous <==> input.isAnonymous == Some(true)
  {
    DonationGoods(id, input.crisisPost,
                  DonorFields(AssignDonor(r), input.donorName, input.donorEmail, input.donorPhone),
                  input.itemDescription, input.quantity, input.deliveryMethod, input.message,
                  match input.isAnonymous case Some(b) => b case None => false,
                  now)
  }

  /** A client cannot name the donor: two requests that differ only in who sends them record
      their senders, whatever the payload says. */
  lemma DonorFromRequestOnly(input: MoneyInput, u: User, id: Id, now: Time)
    ensures NewMoney(input, Authenticated(u), id, now).who.donor == Some(u.id)
    ensures NewMoney(input, Anonymous, id, now).who.donor.None?
  {
  }

  // ---------------------------------------------------------------------------------------
  // donations/views.py

  function Amount(d: DonationMoney): int
  {
    d.amount
  }

  /** `aggregate(total=Sum('amount'))['total']`: no value over an empty queryset. */
  function AggregateSum(s: seq<DonationMoney>): (r: Option<Cents>)
    ensures r.None? <==> s == []
    ensures r.Some? ==> r.value == Seqs.SumBy(s, Amount)
  {
    if s == [] then None else Some(Seqs.SumBy(s, Amount))
  }

  /** `... or 0`. */
  function SumOrZero(s: seq<DonationMoney>): (total: Cents)
    ensures total == Seqs.SumBy(s, Amount)
    ensures s == [] ==> total == 0
  {
    match AggregateSum(s)
    case None => 0
    case Some(t) => t
  }

  /** CrisisMoneyDonationsView: the post's money donations, newest first. */
  function MoneyOfPost(money: seq<DonationMoney>, crisisId: Id): (r: seq<DonationMoney>)
    ensures forall d :: d in r <==> d in money && d.crisisPost == crisisId
    ensures forall d :: multiset(r)[d] == if d.crisisPost == crisisId then multiset(money)[d] else 0
    ensures Seqs.SortedDesc(r, (d: DonationMoney) => d.donatedAt)
  {
    Seqs.Select(money, (d: DonationMoney) => d.crisisPost == crisisId, (d: DonationMoney) => d.donatedAt)
  }

  /** CrisisGoodsDonationsView: the post's goods donations, newest first. */
  function GoodsOfPost(goods: seq<DonationGoods>, crisisId: Id): (r: seq<DonationGoods>)
    ensures forall g :: g in r <==> g in goods && g.crisisPost == crisisId
    ensures forall g :: multiset(r)[g] == if g.crisisPost == crisisId then multiset(goods)[g] else 0
    ensures Seqs.SortedDesc(r, (g: DonationGoods) => g.donatedAt)
  {
    Seqs.Select(goods, (g: DonationGoods) => g.crisisPost == crisisId, (g: DonationGoods) => g.donatedAt)
  }

  /** The summary's body (`total_money` before its conversion to a float). */
  datatype DonationSummary = DonationSummary(
    crisisId: Id,
    crisisTitle: string,
    totalMoney: Cents,
    totalDonorsMoney: nat,
    totalGoodsDonations: nat,
    moneyDonations: seq<DonationMoney>,
    goodsDonations: seq<DonationGoods>)

  /** CrisisDonationSummaryView.get: 404 for an unknown post; otherwise the post's donations, the
      sum of their amounts (0 when none) and the numbers of records. */
  function Summary(posts: seq<Crisis.CrisisPost>, money: seq<DonationMoney>, goods: seq<DonationGoods>,
                   crisisId: Id): (r: Result<DonationSummary, Error>)
    ensures r.Err? <==> forall p :: p in posts ==> p.id != crisisId
    ensures r.Err? ==> r.error == NotFound
    ensures r.Ok? ==> exists p :: p in posts && p.id == crisisId && r.value.crisisTitle == p.title
    ensures r.Ok? ==> r.value.crisisId == crisisId
    ensures r.Ok? ==> forall d :: d in r.value.moneyDonations <==> d in money && d.crisisPost == crisisId
    ensures r.Ok? ==> forall g :: g in r.value.goodsDonations <==> g in goods && g.crisisPost == crisisId
    ensures r.Ok? ==> forall d :: multiset(r.value.moneyDonations)[d]
                                 == if d.crisisPost == crisisId then multiset(money)[d] else 0
    ensures r.Ok? ==> forall g :: multiset(r.value.goodsDonations)[g]
                                 == if g.crisisPost == crisisId then multiset(goods)[g] else 0
    ensures r.Ok? ==> Seqs.SortedDesc(r.value.moneyDonations, (d: DonationMoney) => d.donatedAt)
    ensures r.Ok? ==> Seqs.SortedDesc(r.value.goodsDonations, (g: DonationGoods) => g.donatedAt)
    ensures r.Ok? ==> r.value.totalMoney == Seqs.SumBy(r.value.moneyDonations, Amount)
    ensures r.Ok? ==> r.value.totalDonorsMoney == |r.value.moneyDonations|
    ensures r.Ok? ==> r.value.totalGoodsDonations == |r.value.goodsDonations|
  {
    match Crisis.FindPost(posts, crisisId)
    case None => Err(NotFound)
    case Some(p) =>
      var ms := MoneyOfPost(money, crisisId);
      var gs := GoodsOfPost(goods, crisisId);
      Ok(DonationSummary(crisisId, p.title, SumOrZero(ms), |ms|, |gs|, ms, gs))
  }

  /** The summary's total is the sum over the post's rows as stored, whatever the listing order. */
  lemma SummaryTotalIsTableSum(posts: seq<Crisis.CrisisPost>, money: seq<DonationMoney>,
                               goods: seq<DonationGoods>, crisisId: Id)
    requires Crisis.FindPost(posts, crisisId).Some?
    ensures Summary(posts, money, goods, crisisId).value.totalMoney
            == Seqs.SumBy(Seqs.Filter(money, (d: DonationMoney) => d.crisisPost == crisisId), Amount)
  {
    var p := (d: DonationMoney) => d.crisisPost == crisisId;
    var key := (d: DonationMoney) => d.donatedAt;
    Seqs.SelectIsFilter(money, p, key);
    Seqs.SumByPermutation(Seqs.Select(money, p, key), Seqs.Filter(money, p), Amount);
  }

  /** The summary's two counts are the numbers of the post's rows in each table. */
  lemma SummaryCountsAreTableCounts(posts: seq<Crisis.CrisisPost>, money: seq<DonationMoney>,
                                    goods: seq<DonationGoods>, crisisId: Id)
    requires Crisis.FindPost(posts, crisisId).Some?
    ensures var s := Summary(posts, money, goods, crisisId).value;
            s.totalDonorsMoney == |Seqs.Filter(money, (d: DonationMoney) => d.crisisPost == crisisId)|
            && s.totalGoodsDonations == |Seqs.Filter(goods, (g: DonationGoods) => g.crisisPost == crisisId)|
  {
    var p := (d: DonationMoney) => d.crisisPost == crisisId;
    var q := (g: DonationGoods) => g.crisisPost == crisisId;
    assert |Seqs.Select(money, p, (d: DonationMoney) => d.donatedAt)| == |Seqs.Filter(money, p)|;
    assert |Seqs.Select(goods, q, (g: DonationGoods) => g.donatedAt)| == |Seqs.Filter(goods, q)|;
  }

  /** A new money donation to the post raises its total by the amount and its count by one. */
  lemma SummaryAfterDonation(posts: seq<Crisis.CrisisPost>, money: seq<DonationMoney>,
                             goods: seq<DonationGoods>, d: DonationMoney)
    requires Crisis.FindPost(posts, d.crisisPost).Some?
    ensures var before := Summary(posts, money, goods, d.crisisPost).value;
            var after := Summary(posts, money + [d], goods, d.crisisPost).value;
            after.totalMoney == before.totalMoney + d.amount
            && after.totalDonorsMoney == before.totalDonorsMoney + 1
            && after.totalGoodsDonations == before.totalGoodsDonations
  {
    var p := (x: DonationMoney) => x.crisisPost == d.crisisPost;
    SummaryTotalIsTableSum(posts, money, goods, d.crisisPost);
    SummaryTotalIsTableSum(posts, money + [d], goods, d.crisisPost);
    Seqs.FilterAppend(money, d, p);
    Seqs.SumByConcat(Seqs.Filter(money, p), [d], Amount);
    assert [d][1..] == [];
  }

  /** With validated (positive) amounts, a post's total is positive exactly when it has a money
      donation. */
  lemma SummaryTotalPositive(posts: seq<Crisis.CrisisPost>, money: seq<DonationMoney>,
                             goods: seq<DonationGoods>, crisisId: Id)
    requires forall d :: d in money ==> d.amount > 0
    requires Crisis.FindPost(posts, crisisId).Some?
    ensures var s := Summary(posts, money, goods, crisisId).value;
            s.totalMoney > 0 <==> s.totalDonorsMoney > 0
  {
    var s := Summary(posts, money, goods, crisisId).value;
    Seqs.SumByPositive(s.moneyDonations, Amount);
  }

  /** MyDonationsView's body (`total_money_donated` before its conversion to a float). */
  datatype MyDonationsData = MyDonationsData(
    moneyDonations: seq<DonationMoney>,
    goodsDonations: seq<DonationGoods>,
    totalMoneyDonated: Cents,
    totalDonationsCount: nat)

  /** MyDonationsView.get: authenticated requesters only; their own donations of both kinds, the
      sum of their money (0 when none) and the number of records of both kinds. */
  function MyDonations(r: Requester, money: seq<DonationMoney>, goods: seq<DonationGoods>): (res: Result<MyDonationsData, Error>)
    ensures res.Err? <==> r.Anonymous?
    ensures res.Err? ==> res.error == NotAuthenticated
    ensures res.Ok? ==> forall d :: d in res.value.moneyDonations <==> d in money && d.who.donor == Some(r.user.id)
    ensures res.Ok? ==> forall g :: g in res.value.goodsDonations <==> g in goods && g.who.donor == Some(r.user.id)
    ensures res.Ok? ==> forall d :: multiset(res.value.moneyDonations)[d]
                                   == if d.who.donor == Some(r.user.id) then multiset(money)[d] else 0
    ensures res.Ok? ==> forall g :: multiset(res.value.goodsDonations)[g]
                                   == if g.who.donor == Some(r.user.id) then multiset(goods)[g] else 0
    ensures res.Ok? ==> Seqs.SortedDesc(res.value.moneyDonations, (d: DonationMoney) => d.donatedAt)
    ensures res.Ok? ==> Seqs.SortedDesc(res.value.goodsDonations, (g: DonationGoods) => g.donatedAt)
    ensures res.Ok? ==> res.value.totalMoneyDonated == Seqs.SumBy(res.value.moneyDonations, Amount)
    ensures res.Ok? ==> res.value.totalDonationsCount == |res.value.moneyDonations| + |res.value.goodsDonations|
  {
    if !IsAuthenticated(r) then Err(Deny(r))
    else
      var uid := r.user.id;
      var ms := Seqs.Select(money, (d: DonationMoney) => d.who.donor == Some(uid), (d: DonationMoney) => d.donatedAt);
      var gs := Seqs.Select(goods, (g: DonationGoods) => g.who.donor == Some(uid), (g: DonationGoods) => g.donatedAt);
      Ok(MyDonationsData(ms, gs, SumOrZero(ms), |ms| + |gs|))
  }

  /** The requester's total and count are taken over their rows as stored in the two tables. */
  lemma MyDonationsAreTableTotals(r: Requester, money: seq<DonationMoney>, goods: seq<DonationGoods>)
    requires r.Authenticated?
    ensures var mine := (d: DonationMoney) => d.who.donor == Some(r.user.id);
            var mineGoods := (g: DonationGoods) => g.who.donor == Some(r.user.id);
            var v := MyDonations(r, money, goods).value;
            v.totalMoneyDonated == Seqs.SumBy(Seqs.Filter(money, mine), Amount)
            && v.totalDonationsCount == |Seqs.Filter(money, mine)| + |Seqs.Filter(goods, mineGoods)|
  {
    var uid := r.user.id;
    var p := (d: DonationMoney) => d.who.donor == Some(uid);
    var q := (g: DonationGoods) => g.who.donor == Some(uid);
    var ms := Seqs.Select(money, p, (d: DonationMoney) => d.donatedAt);
    Seqs.SelectIsFilter(money, p, (d: DonationMoney) => d.donatedAt);
    Seqs.SumByPermutation(ms, Seqs.Filter(money, p), Amount);
    assert |Seqs.Select(goods, q, (g: DonationGoods) => g.donatedAt)| == |Seqs.Filter(goods, q)|;
  }

  /** Anonymous-flagged donations still belong to their donor: the flag hides the name from
      others, not the record from its owner. */
  lemma MyDonationsIncludeAnonymous(u: User, money: seq<DonationMoney>, goods: seq<DonationGoods>, d: DonationMoney)
    requires d in money && d.who.donor == Some(u.id) && d.isAnonymous
    ensures d in MyDonations(Authenticated(u), money, goods).value.moneyDonations
  {
  }

  // ---------------------------------------------------------------------------------------
  // donations/admin.py

  const MaskedAnonymous := "<i style=\"color: gray;\">Anonymous</i>"

  /** `display_donor`: hidden donors are shown by the grey marker, others by their display name. */
  function DisplayDonor(isAnonymous: bool, who: DonorFields, users: map<Id, User>): (shown: string)
    requires who.donor.Some? ==> who.donor.value in users
    ensures isAnonymous ==> shown == MaskedAnonymous
    ensures !isAnonymous ==> shown == DisplayName(isAnonymous, who, users)
  {
    if isAnonymous then MaskedAnonymous else DisplayName(isAnonymous, who, users)
  }

  /** The admin never shows the name of a hidden donor. */
  lemma DisplayDonorHidesNames(isAnonymous: bool, who: DonorFields, users: map<Id, User>)
    requires isAnonymous && who.donor.Some? && who.donor.value in users
    requires users[who.donor.value].username != MaskedAnonymous
    ensures DisplayDonor(isAnonymous, who, users) != users[who.donor.value].username
  {
  }

  /** `item_description_short`. */
  function ItemDescriptionShort(g: DonationGoods): (r: string)
    ensures |g.itemDescription| <= Display.PreviewWidth ==> r == g.itemDescription
    ensures |g.itemDescription| > Display.PreviewWidth ==>
              r == g.itemDescription[..Display.PreviewWidth] + Display.Ellipsis
    ensures |r| <= 53
  {
    Display.Preview(g.itemDescription)
  }

  /** The changelist's total before formatting: the sum over every money donation, 0 when none. */
  function ChangelistTotal(money: seq<DonationMoney>): (total: Cents)
    ensures total == Seqs.SumBy(money, Amount)
    ensures money == [] ==> total == 0
  {
    SumOrZero(money)
  }

  /** The changelist total is one post's summary total plus the total of all other posts. */
  lemma ChangelistTotalSplits(posts: seq<Crisis.CrisisPost>, money: seq<DonationMoney>,
                              goods: seq<DonationGoods>, crisisId: Id)
    requires Crisis.FindPost(posts, crisisId).Some?
    ensures ChangelistTotal(money)
            == Summary(posts, money, goods, crisisId).value.totalMoney
               + Seqs.SumBy(Seqs.Filter(money, (d: DonationMoney) => d.crisisPost != crisisId), Amount)
  {
    var p := (d: DonationMoney) => d.crisisPost == crisisId;
    SummaryTotalIsTableSum(posts, money, goods, crisisId);
    Seqs.SumByFilterSplit(money, p, (d: DonationMoney) => d.crisisPost != crisisId, Amount);
  }
}
