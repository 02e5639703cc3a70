/** The donor's own pages: the purchase records with their name-based image fallback, the profile and
    registration figures, and the profile edit and avatar upload. */
module Users {
  import opened Wrappers
  import opened Text
  import opened Seqs
  import opened Keywords
  import opened Entities
  import opened ViewModels
  import opened Auth
  import Ecpay

  // ---------------------------------------------------------------------------------------------
  // Image by supply name

  const SalineImage := "/images/saline.jpg"
  const BandageImage := "/images/bandage.png"
  const WipesImage := "/images/wipes.jpg"
  const CornImage := "/images/corn.png"
  const CoatImage := "/images/coat.png"
  const UserDefaultImage := "/images/user-default.png"

  /** The name as GetEmergencyImageByName tests it: lower-cased, "" for null. */
  function LoweredName(supplyName: Option<string>): string {
    if supplyName.Some? then ToLower(supplyName.value) else ""
  }

  /** GetEmergencyImageByName: the keyword groups are tried in the order written. */
  function GetEmergencyImageByName(supplyName: Option<string>): string {
    var name := LoweredName(supplyName);
    if Contains(name, "胰島素") || Contains(name, "藥") || Contains(name, "醫療") then SalineImage
    else if Contains(name, "急救包") || Contains(name, "醫療急救") then BandageImage
    else if Contains(name, "紙尿褲") || Contains(name, "尿布") then WipesImage
    else if Contains(name, "罐頭") || Contains(name, "食物") then CornImage
    else if Contains(name, "睡袋") || Contains(name, "衣") then CoatImage
    else UserDefaultImage
  }

  /** The same classifier as data: keyword groups with their images, in priority order. */
  const EmergencyImageRules: seq<Rule> := [
    Rule(["胰島素", "藥", "醫療"], SalineImage),
    Rule(["急救包", "醫療急救"], BandageImage),
    Rule(["紙尿褲", "尿布"], WipesImage),
    Rule(["罐頭", "食物"], CornImage),
    Rule(["睡袋", "衣"], CoatImage)]

  /** The image is the one of the first keyword group found in the lower-cased name, and the default
      image when there is none. */
  lemma EmergencyImageIsFirstMatch(supplyName: Option<string>)
    ensures GetEmergencyImageByName(supplyName) ==
            FirstMatch(EmergencyImageRules, LoweredName(supplyName), UserDefaultImage)
  {
    var name := LoweredName(supplyName);
    var rules := EmergencyImageRules;
    MatchesThree(name, "胰島素", "藥", "醫療", SalineImage);
    MatchesTwo(name, "急救包", "醫療急救", BandageImage);
    MatchesTwo(name, "紙尿褲", "尿布", WipesImage);
    MatchesTwo(name, "罐頭", "食物", CornImage);
    MatchesTwo(name, "睡袋", "衣", CoatImage);
    var m := [Matches(name, rules[0]), Matches(name, rules[1]), Matches(name, rules[2]),
              Matches(name, rules[3]), Matches(name, rules[4])];
    if !m[0] && !m[1] && !m[2] && !m[3] && !m[4] {
      assert forall i :: 0 <= i < |rules| ==> !Matches(name, rules[i]);
    } else {
      var i := if m[0] then 0 else if m[1] then 1 else if m[2] then 2 else if m[3] then 3 else 4;
      assert Matches(name, rules[i]) && FirstMatching(rules, name, i);
    }
  }

  /** Anything named with 醫療 is drawn as saline, medical first-aid kits included. */
  lemma MedicalNamesGetSaline(name: string)
    requires Contains(name, "醫療")
    ensures GetEmergencyImageByName(Some(name)) == SalineImage
  {
    ContainsLower(name, "醫療");
  }

  /** The keyword 醫療急救 never decides: the bandage image goes only to names with 急救包. */
  lemma BandageNeedsFirstAidKit(supplyName: Option<string>)
    ensures GetEmergencyImageByName(supplyName) == BandageImage ==> Contains(LoweredName(supplyName), "急救包")
  {
    var name := LoweredName(supplyName);
    if Contains(name, "醫療急救") {
      var i :| 0 <= i <= |name| - 4 && OccursAt(name, "醫療急救", i);
      assert name[i..i + 2] == name[i..i + 4][..2];
      assert OccursAt(name, "醫療", i);
    }
  }

  // ---------------------------------------------------------------------------------------------
  // Purchase records

  /** The tables the purchase-record page reads. */
  datatype PurchaseDb = PurchaseDb(
    orders: seq<UserOrder>,
    details: seq<UserOrderDetail>,
    purchases: seq<EmergencyPurchaseRecord>,
    needs: seq<EmergencySupplyNeed>,
    supplies: seq<Supply>)

  const EmergencySource := "emergency"
  const UnknownSupply := "未知物資"
  const DefaultSupplyImage := "/images/default-supply.png"
  const Guest := "訪客"

  function FindNeed(needs: seq<EmergencySupplyNeed>, id: int): (r: Option<EmergencySupplyNeed>)
    ensures r.Some? ==> r.value in needs && r.value.emergencyNeedId == id
    ensures r.None? ==> forall n :: n in needs ==> n.emergencyNeedId != id
  {
    match FirstIndex(needs, (n: EmergencySupplyNeed) => n.emergencyNeedId == id)
    case None => None
    case Some(k) => Some(needs[k])
  }

  /** The picture of an emergency item: the need's own image when it has a non-empty one, else the
      one chosen from the supply name. */
  function EmergencyItemImage(need: Option<EmergencySupplyNeed>, supplyName: Option<string>): string {
    if need.Some? && !IsNullOrEmpty(need.value.imageUrl) then need.value.imageUrl.value
    else GetEmergencyImageByName(supplyName)
  }

  /** An item's total is its unit price times its quantity. */
  predicate Priced(item: OrderItem) {
    item.totalPrice == item.unitPrice * item.quantity as real
  }

  function EmergencyItem(ep: EmergencyPurchaseRecord, needs: seq<EmergencySupplyNeed>): (r: OrderItem)
    ensures Priced(r) && r.isEmergency
    ensures r.supplyName == ep.supplyName && r.quantity == ep.quantity && r.unitPrice == ep.unitPrice
  {
    OrderItem(ep.supplyName, ep.quantity, ep.unitPrice, ep.unitPrice * ep.quantity as real,
              EmergencyItemImage(FindNeed(needs, ep.emergencyNeedId), ep.supplyName), true)
  }

  function DetailItem(od: UserOrderDetail, supplies: seq<Supply>): (r: OrderItem)
    ensures Priced(r) && !r.isEmergency
    ensures r.quantity == od.quantity && r.unitPrice == od.unitPrice
    ensures var s := FindSupply(supplies, od.supplyId);
            && (s.None? ==> r.supplyName == Some(UnknownSupply) && r.imageUrl == DefaultSupplyImage)
            && (s.Some? ==> r.supplyName == Some(s.value.supplyName.GetOr(UnknownSupply))
                            && r.imageUrl == s.value.imageUrl.GetOr(DefaultSupplyImage))
  {
    var s := FindSupply(supplies, od.supplyId);
    var name := if s.Some? then s.value.supplyName.GetOr(UnknownSupply) else UnknownSupply;
    var image := if s.Some? then s.value.imageUrl.GetOr(DefaultSupplyImage) else DefaultSupplyImage;
    OrderItem(Some(name), od.quantity, od.unitPrice, od.unitPrice * od.quantity as real, image, false)
  }

  function PurchasesOf(db: PurchaseDb, orderId: int): seq<EmergencyPurchaseRecord> {
    Filter(db.purchases, (ep: EmergencyPurchaseRecord) => ep.userOrderId == orderId)
  }

  function DetailsOf(db: PurchaseDb, orderId: int): seq<UserOrderDetail> {
    Filter(db.details, (od: UserOrderDetail) => od.userOrderId == orderId)
  }

  function EmergencyItems(eps: seq<EmergencyPurchaseRecord>, needs: seq<EmergencySupplyNeed>): (r: seq<OrderItem>)
    ensures |r| == |eps| && forall i :: 0 <= i < |r| ==> r[i] == EmergencyItem(eps[i], needs)
    ensures forall i :: 0 <= i < |r| ==> Priced(r[i]) && r[i].isEmergency
  {
    Map(eps, (ep: EmergencyPurchaseRecord) => EmergencyItem(ep, needs))
  }

  function DetailItems(ods: seq<UserOrderDetail>, supplies: seq<Supply>): (r: seq<OrderItem>)
    ensures |r| == |ods| && forall i :: 0 <= i < |r| ==> r[i] == DetailItem(ods[i], supplies)
    ensures forall i :: 0 <= i < |r| ==> Priced(r[i]) && !r[i].isEmergency
  {
    Map(ods, (od: UserOrderDetail) => DetailItem(od, supplies))
  }

  /** The items of one order: an emergency order lists its emergency purchase records, any other
      order its order details; every item is priced at unit price times quantity. */
  function OrderItems(o: UserOrder, db: PurchaseDb): (r: seq<OrderItem>)
    ensures forall i :: 0 <= i < |r| ==> Priced(r[i])
    ensures forall i :: 0 <= i < |r| ==> (r[i].isEmergency <==> o.orderSource == EmergencySource)
    ensures o.orderSource == EmergencySource ==> |r| == |PurchasesOf(db, o.userOrderId)|
    ensures o.orderSource != EmergencySource ==> |r| == |DetailsOf(db, o.userOrderId)|
  {
    if o.orderSource == EmergencySource then
      var r := EmergencyItems(PurchasesOf(db, o.userOrderId), db.needs);
      r
    else
      var r := DetailItems(DetailsOf(db, o.userOrderId), db.supplies);
      r
  }

  /** The item shows one of the order's emergency purchase records. */
  predicate FromPurchase(item: OrderItem, db: PurchaseDb, orderId: int) {
    exists ep :: ep in db.purchases && ep.userOrderId == orderId && item.supplyName == ep.supplyName &&
                 item.quantity == ep.quantity && item.unitPrice == ep.unitPrice
  }

  /** The item shows one of the order's details. */
  predicate FromDetail(item: OrderItem, db: PurchaseDb, orderId: int) {
    exists od :: od in db.details && od.userOrderId == orderId && item.quantity == od.quantity &&
                 item.unitPrice == od.unitPrice
  }

  /** Every item of an emergency order comes from one of that order's emergency purchase records,
      and every item of any other order from one of its order details. */
  lemma OrderItemsProvenance(o: UserOrder, db: PurchaseDb)
    ensures o.orderSource == EmergencySource ==>
              forall i :: 0 <= i < |OrderItems(o, db)| ==> FromPurchase(OrderItems(o, db)[i], db, o.userOrderId)
    ensures o.orderSource != EmergencySource ==>
              forall i :: 0 <= i < |OrderItems(o, db)| ==> FromDetail(OrderItems(o, db)[i], db, o.userOrderId)
  {
    var r := OrderItems(o, db);
    if o.orderSource == EmergencySource {
      var eps := PurchasesOf(db, o.userOrderId);
      forall i | 0 <= i < |r| ensures FromPurchase(r[i], db, o.userOrderId) {
        assert r[i] == EmergencyItem(eps[i], db.needs);
        assert eps[i] in db.purchases && eps[i].userOrderId == o.userOrderId;
      }
    } else {
      var ods := DetailsOf(db, o.userOrderId);
      forall i | 0 <= i < |r| ensures FromDetail(r[i], db, o.userOrderId) {
        assert r[i] == DetailItem(ods[i], db.supplies);
        assert ods[i] in db.details && ods[i].userOrderId == o.userOrderId;
      }
    }
  }

  /** The image rule for emergency items: the need's non-empty image wins, otherwise the image is
      the one the supply name selects. */
  lemma EmergencyItemImageRule(o: UserOrder, db: PurchaseDb, i: nat)
    requires o.orderSource == EmergencySource && i < |OrderItems(o, db)|
    ensures var ep := PurchasesOf(db, o.userOrderId)[i];
            var need := FindNeed(db.needs, ep.emergencyNeedId);
            var image := OrderItems(o, db)[i].imageUrl;
            && (need.Some? && !IsNullOrEmpty(need.value.imageUrl) ==> image == need.value.imageUrl.value)
            && (need.None? || IsNullOrEmpty(need.value.imageUrl) ==> image == GetEmergencyImageByName(ep.supplyName))
  {
  }

  /** `Where(o => o.UserId == userId)` on the orders. */
  function UserOrders(orders: seq<UserOrder>, userId: int): (r: seq<UserOrder>)
    ensures forall o :: o in r <==> o in orders && o.userId == userId
  {
    Filter(orders, (o: UserOrder) => o.userId == userId)
  }

  /** OrderByDescending(OrderDate) as an order: newer orders first. */
  predicate OrderNewerOrSame(a: UserOrder, b: UserOrder) {
    a.orderDate >= b.orderDate
  }

  lemma OrderNewerOrSameIsTotalPreorder()
    ensures TotalPreorder(OrderNewerOrSame)
  {
  }

  function UserOrdersNewestFirst(orders: seq<UserOrder>, userId: int): seq<UserOrder> {
    SortBy(UserOrders(orders, userId), OrderNewerOrSame)
  }

  /** The newest-first listing holds the donor's orders and only them, with newer orders first. */
  lemma UserOrdersNewestFirstSpec(orders: seq<UserOrder>, userId: int)
    ensures var r := UserOrdersNewestFirst(orders, userId);
            && |r| == |UserOrders(orders, userId)|
            && (forall i :: 0 <= i < |r| ==> r[i] in orders && r[i].userId == userId)
            && (forall i, j :: 0 <= i < j < |r| ==> r[i].orderDate >= r[j].orderDate)
  {
    var mine := UserOrders(orders, userId);
    var r := UserOrdersNewestFirst(orders, userId);
    OrderNewerOrSameIsTotalPreorder();
    SortBySorted(mine, OrderNewerOrSame);
    forall i | 0 <= i < |r| ensures r[i] in orders && r[i].userId == userId {
      assert r[i] in multiset(mine);
    }
  }

  function OrderRecordOf(o: UserOrder, db: PurchaseDb): OrderRecord {
    OrderRecord(o.userOrderId, o.orderNumber, o.orderDate, o.totalPrice, o.paymentStatus, OrderItems(o, db))
  }

  function OrderRecords(orders: seq<UserOrder>, db: PurchaseDb): (r: seq<OrderRecord>)
    ensures |r| == |orders| && forall i :: 0 <= i < |r| ==> r[i] == OrderRecordOf(orders[i], db)
  {
    Map(orders, (o: UserOrder) => OrderRecordOf(o, db))
  }

  /** PurchaseRecords: every order of the donor, newest first, each with its items. */
  function PurchaseRecords(user: User, db: PurchaseDb): (page: PurchaseRecordsPage)
    ensures page.userName == user.name.GetOr(Guest)
    ensures TotalOrders(page) == Count(db.orders, (o: UserOrder) => o.userId == user.userId)
  {
    PurchaseRecordsPage(user.name.GetOr(Guest), OrderRecords(UserOrdersNewestFirst(db.orders, user.userId), db))
  }

  /** The page as the signed-in donor sees it; None is the redirect to the login page when the
      e-mail claim is missing or names no donor. */
  function PurchaseRecordsFor(email: Option<string>, users: seq<User>, db: PurchaseDb): (r: Option<PurchaseRecordsPage>)
    ensures r.Some? <==> !IsNullOrEmpty(email) && FindUserByEmail(users, email.value).Some?
  {
    if IsNullOrEmpty(email) then None
    else match FindUserByEmail(users, email.value)
      case None => None
      case Some(i) => Some(PurchaseRecords(users[i], db))
  }

  /** The listed orders are the donor's, newest first. */
  lemma PurchaseRecordsNewestFirst(user: User, db: PurchaseDb)
    ensures var page := PurchaseRecords(user, db);
            && (forall i :: 0 <= i < |page.orders| ==>
                  exists o :: o in db.orders && o.userId == user.userId && o.userOrderId == page.orders[i].orderId)
            && (forall i, j :: 0 <= i < j < |page.orders| ==> page.orders[i].orderDate >= page.orders[j].orderDate)
  {
    var sorted := UserOrdersNewestFirst(db.orders, user.userId);
    var page := PurchaseRecords(user, db);
    assert page.orders == OrderRecords(sorted, db);
    UserOrdersNewestFirstSpec(db.orders, user.userId);
    forall i | 0 <= i < |page.orders|
      ensures exists o :: o in db.orders && o.userId == user.userId && o.userOrderId == page.orders[i].orderId
    {
      var o := sorted[i];
      assert page.orders[i] == OrderRecordOf(o, db);
      assert o in db.orders && o.userId == user.userId && o.userOrderId == page.orders[i].orderId;
    }
  }

  function UserOrderPrice(o: UserOrder): Money { o.totalPrice }

  lemma {:induction false} SumOfRecords(s: seq<UserOrder>, db: PurchaseDb)
    ensures Sum(OrderRecords(s, db), OrderPrice) == Sum(s, UserOrderPrice)
  {
    if s != [] {
      SumOfRecords(s[1..], db);
      assert OrderRecords(s, db)[1..] == OrderRecords(s[1..], db);
    }
  }

  /** TotalDonated on the purchase-record page adds up every order of the donor, whatever its
      payment status. */
  lemma TotalDonatedCoversAllOrders(user: User, db: PurchaseDb)
    ensures TotalDonated(PurchaseRecords(user, db)) == Sum(UserOrders(db.orders, user.userId), UserOrderPrice)
  {
    SumOfRecords(UserOrdersNewestFirst(db.orders, user.userId), db);
    SumSortBy(UserOrders(db.orders, user.userId), OrderNewerOrSame, UserOrderPrice);
  }

  // ---------------------------------------------------------------------------------------------
  // Profile and registration figures

  /** A registration count: all of the donor's registrations, and those still `registered`. */
  datatype RegistrationCounts = RegistrationCounts(total: nat, active: nat)

  function UserRegistrationCounts(registrations: seq<UserActivityRegistration>, userId: int): (c: RegistrationCounts)
    ensures c.active <= c.total <= |registrations|
    ensures c.total == 0 <==> forall i :: 0 <= i < |registrations| ==> registrations[i].userId != userId
    ensures c.active > 0 <==> exists i :: 0 <= i < |registrations| &&
                                registrations[i].userId == userId && registrations[i].status == Entities.Registered
  {
    var mine := (r: UserActivityRegistration) => r.userId == userId;
    var active := (r: UserActivityRegistration) => r.userId == userId && r.status == Entities.Registered;
    FilterNarrower(registrations, mine, active);
    RegistrationCounts(Count(registrations, mine), Count(registrations, active))
  }

  /** `Where(r => r.UserId == userId)` on the registrations. */
  function UserRegistrations(registrations: seq<UserActivityRegistration>, userId: int): (r: seq<UserActivityRegistration>)
    ensures forall x :: x in r <==> x in registrations && x.userId == userId
  {
    Filter(registrations, (x: UserActivityRegistration) => x.userId == userId)
  }

  /** OrderByDescending(RegisterTime) as an order. */
  predicate RegistrationNewerOrSame(a: UserActivityRegistration, b: UserActivityRegistration) {
    a.registerTime >= b.registerTime
  }

  lemma RegistrationNewerOrSameIsTotalPreorder()
    ensures TotalPreorder(RegistrationNewerOrSame)
  {
  }

  function UserRegistrationsNewestFirst(registrations: seq<UserActivityRegistration>, userId: int): seq<UserActivityRegistration> {
    SortBy(UserRegistrations(registrations, userId), RegistrationNewerOrSame)
  }

  const RecentCount := 5

  /** The figures UserProfile shows. */
  datatype ProfileStats = ProfileStats(
    registrations: RegistrationCounts,
    recentActivities: seq<UserActivityRegistration>,
    totalOrders: nat,
    totalAmount: Money,
    recentPurchases: seq<UserOrder>)

  predicate PaidBy(o: UserOrder, userId: int) {
    o.userId == userId && o.paymentStatus == Ecpay.PaidStatus
  }

  function UserProfileStats(userId: int, registrations: seq<UserActivityRegistration>,
                            orders: seq<UserOrder>): (s: ProfileStats)
    ensures |s.recentActivities| <= RecentCount && |s.recentPurchases| <= RecentCount
    ensures s.registrations == UserRegistrationCounts(registrations, userId)
    ensures s.totalOrders == Count(orders, (o: UserOrder) => o.userId == userId)
  {
    ProfileStats(
      UserRegistrationCounts(registrations, userId),
      Take(UserRegistrationsNewestFirst(registrations, userId), RecentCount),
      Count(orders, (o: UserOrder) => o.userId == userId),
      Sum(Filter(orders, (o: UserOrder) => PaidBy(o, userId)), UserOrderPrice),
      Take(UserOrdersNewestFirst(orders, userId), RecentCount))
  }

  /** The profile's purchase total adds up the paid orders of the donor and nothing else: with no
      orders it is zero, and one more order adds its price exactly when it is the donor's and paid. */
  lemma PaidTotalAppend(userId: int, registrations: seq<UserActivityRegistration>, orders: seq<UserOrder>,
                        o: UserOrder)
    ensures UserProfileStats(userId, registrations, []).totalAmount == 0.0
    ensures UserProfileStats(userId, registrations, orders + [o]).totalAmount ==
            UserProfileStats(userId, registrations, orders).totalAmount +
            (if o.userId == userId && o.paymentStatus == Ecpay.PaidStatus then o.totalPrice else 0.0)
  {
    var paid := (x: UserOrder) => PaidBy(x, userId);
    FilterAppend(orders, [o], paid);
    SumAppend(Filter(orders, paid), Filter([o], paid), UserOrderPrice);
    assert Filter([o], paid) == if PaidBy(o, userId) then [o] else [];
  }

  /** The newest-first listing of registrations holds the donor's registrations and only them,
      later registrations first. */
  lemma UserRegistrationsNewestFirstSpec(registrations: seq<UserActivityRegistration>, userId: int)
    ensures var r := UserRegistrationsNewestFirst(registrations, userId);
            && |r| == |UserRegistrations(registrations, userId)|
            && (forall i :: 0 <= i < |r| ==> r[i] in registrations && r[i].userId == userId)
            && (forall i, j :: 0 <= i < j < |r| ==> r[i].registerTime >= r[j].registerTime)
  {
    var mine := UserRegistrations(registrations, userId);
    var r := UserRegistrationsNewestFirst(registrations, userId);
    RegistrationNewerOrSameIsTotalPreorder();
    SortBySorted(mine, RegistrationNewerOrSame);
    forall i | 0 <= i < |r| ensures r[i] in registrations && r[i].userId == userId {
      assert r[i] in multiset(mine);
    }
  }

  /** The recent activities are the donor's newest five registrations: the head of the
      newest-first listing, full when the donor has five or more, none older than those left out. */
  lemma RecentActivitiesAreNewest(userId: int, registrations: seq<UserActivityRegistration>, orders: seq<UserOrder>)
    ensures var recent := UserProfileStats(userId, registrations, orders).recentActivities;
            var all := UserRegistrationsNewestFirst(registrations, userId);
            && recent == all[..|recent|]
            && |recent| == (if |all| < RecentCount then |all| else RecentCount)
            && (forall i :: 0 <= i < |recent| ==> recent[i] in registrations && recent[i].userId == userId)
            && (forall i, j :: 0 <= i < |recent| <= j < |all| ==> recent[i].registerTime >= all[j].registerTime)
  {
    var all := UserRegistrationsNewestFirst(registrations, userId);
    var recent := Take(all, RecentCount);
    assert UserProfileStats(userId, registrations, orders).recentActivities == recent;
    UserRegistrationsNewestFirstSpec(registrations, userId);
    assert forall i :: 0 <= i < |recent| ==> recent[i] == all[i];
  }

  /** The recent purchases are the donor's newest five orders, in the same sense. */
  lemma RecentPurchasesAreNewest(userId: int, registrations: seq<UserActivityRegistration>, orders: seq<UserOrder>)
    ensures var recent := UserProfileStats(userId, registrations, orders).recentPurchases;
            var all := UserOrdersNewestFirst(orders, userId);
            && recent == all[..|recent|]
            && |recent| == (if |all| < RecentCount then |all| else RecentCount)
            && (forall i :: 0 <= i < |recent| ==> recent[i] in orders && recent[i].userId == userId)
            && (forall i, j :: 0 <= i < |recent| <= j < |all| ==> recent[i].orderDate >= all[j].orderDate)
  {
    var all := UserOrdersNewestFirst(orders, userId);
    var recent := Take(all, RecentCount);
    assert UserProfileStats(userId, registrations, orders).recentPurchases == recent;
    UserOrdersNewestFirstSpec(orders, userId);
    assert forall i :: 0 <= i < |recent| ==> recent[i] == all[i];
  }

  /** The donor's Registrations page: the donor's registrations newest first, with how many there
      are and how many are still `registered`. */
  datatype RegistrationsPage = RegistrationsPage(userName: string, totalRegistrations: nat,
                                                 activeRegistrations: nat, rows: seq<UserActivityRegistration>)

  predicate IsRegisteredRegistration(r: UserActivityRegistration) {
    r.status == Entities.Registered
  }

  function UserRegistrationsPage(user: User, registrations: seq<UserActivityRegistration>): (page: RegistrationsPage)
    ensures page.userName == user.name.GetOr(Guest)
    ensures page.activeRegistrations <= page.totalRegistrations
    ensures forall x :: x in page.rows <==> x in registrations && x.userId == user.userId
  {
    var rows := UserRegistrationsNewestFirst(registrations, user.userId);
    UserRegistrationsNewestFirstSpec(registrations, user.userId);
    assert forall x :: x in UserRegistrations(registrations, user.userId) ==> x in multiset(rows);
    RegistrationsPage(user.name.GetOr(Guest), |rows|, Count(rows, IsRegisteredRegistration), rows)
  }

  /** The Registrations page and the profile report the same figures, and the page lists the
      registrations later ones first. */
  lemma UserRegistrationsPageMatchesProfile(user: User, registrations: seq<UserActivityRegistration>,
                                            orders: seq<UserOrder>)
    ensures var page := UserRegistrationsPage(user, registrations);
            var stats := UserProfileStats(user.userId, registrations, orders);
            && page.totalRegistrations == stats.registrations.total
            && page.activeRegistrations == stats.registrations.active
            && forall i, j :: 0 <= i < j < |page.rows| ==> page.rows[i].registerTime >= page.rows[j].registerTime
  {
    var userId := user.userId;
    var mine := (x: UserActivityRegistration) => x.userId == userId;
    var active := (x: UserActivityRegistration) => x.userId == userId && x.status == Entities.Registered;
    var rows := UserRegistrationsNewestFirst(registrations, userId);
    UserRegistrationsNewestFirstSpec(registrations, userId);
    FilterOfFilter(registrations, mine, IsRegisteredRegistration, active);
    FilterSortBy(UserRegistrations(registrations, userId), RegistrationNewerOrSame, IsRegisteredRegistration);
    assert UserRegistrationsPage(user, registrations).rows == rows;
  }

  /** The profile's purchase amount counts paid orders only, so with non-negative prices it never
      exceeds what the purchase-record page reports as donated. */
  lemma PaidAmountAtMostDonated(user: User, registrations: seq<UserActivityRegistration>, db: PurchaseDb)
    requires forall i :: 0 <= i < |db.orders| ==> db.orders[i].totalPrice >= 0.0
    ensures UserProfileStats(user.userId, registrations, db.orders).totalAmount <= TotalDonated(PurchaseRecords(user, db))
  {
    var mine := (o: UserOrder) => o.userId == user.userId;
    var paid := (o: UserOrder) => o.paymentStatus == Ecpay.PaidStatus;
    var paidMine := (o: UserOrder) => PaidBy(o, user.userId);
    FilterOfFilter(db.orders, mine, paid, paidMine);
    var m := UserOrders(db.orders, user.userId);
    assert m == Filter(db.orders, mine);
    forall i | 0 <= i < |m| ensures UserOrderPrice(m[i]) >= 0.0 {
      var k :| 0 <= k < |db.orders| && db.orders[k] == m[i];
    }
    SumFilterLe(m, paid, UserOrderPrice);
    TotalDonatedCoversAllOrders(user, db);
  }

  // ---------------------------------------------------------------------------------------------
  // Profile edit and avatar upload

  /** The editable fields of UserEditViewModel. */
  datatype EditForm = EditForm(name: Option<string>, phone: Option<string>, identityNumber: string, password: string)

  /** What the image-upload service did with the file the request carried. */
  datatype Upload = NoFile | Uploaded(imagePath: Option<string>) | UploadFailed

  datatype EditOutcome = EditNotFound | UploadRejected | ProfileSaved

  function FindUserByClaim(users: seq<User>, email: Option<string>): Option<nat> {
    if email.None? then None else FindUserByEmail(users, email.value)
  }

  /** EditProfile (POST): with a failed upload nothing changes; otherwise the donor's name, phone and
      identity number are taken from the form, the password is hashed anew and the image is the
      uploaded one when an upload succeeded and the old one otherwise. */
  function EditProfileResult(users: seq<User>, email: Option<string>, form: EditForm, upload: Upload,
                             ps: PasswordService): (r: (seq<User>, EditOutcome))
    ensures r.1 != ProfileSaved ==> r.0 == users
    ensures r.1 == EditNotFound <==> FindUserByClaim(users, email).None?
    ensures r.1 == UploadRejected <==> FindUserByClaim(users, email).Some? && upload.UploadFailed?
    ensures r.1 == ProfileSaved ==>
              var k := FindUserByClaim(users, email).value;
              && |r.0| == |users|
              && (forall i :: 0 <= i < |users| && i != k ==> r.0[i] == users[i])
              && r.0[k].userId == users[k].userId && r.0[k].email == users[k].email
              && r.0[k].name == form.name && r.0[k].phone == form.phone
              && r.0[k].identityNumber == form.identityNumber
              && r.0[k].password == ps.hash(form.password)
              && r.0[k].profileImage == (if upload.Uploaded? then upload.imagePath else users[k].profileImage)
  {
    match FindUserByClaim(users, email)
    case None => (users, EditNotFound)
    case Some(k) =>
      if upload.UploadFailed? then (users, UploadRejected)
      else
        var image := if upload.Uploaded? then upload.imagePath else users[k].profileImage;
        var u := users[k].(name := form.name, phone := form.phone, identityNumber := form.identityNumber,
                           password := ps.hash(form.password), profileImage := image);
        (users[k := u], ProfileSaved)
  }

  /** After a saved edit the donor signs in with the new password. */
  lemma LoginAfterEdit(users: seq<User>, logins: seq<CaseLogin>, cases: seq<Case>, email: string,
                       form: EditForm, upload: Upload, ps: PasswordService)
    requires HashesVerify(ps, form.password)
    requires EditProfileResult(users, Some(email), form, upload, ps).1 == ProfileSaved
    ensures Login(EditProfileResult(users, Some(email), form, upload, ps).0, logins, cases, email,
                  form.password, ps).SignedIn?
  {
    var r := EditProfileResult(users, Some(email), form, upload, ps);
    var k := FindUserByEmail(users, email).value;
    FirstIndexStable(users, r.0, k, (u: User) => u.email == email);
    HashIsNotMarker(ps, form.password);
    assert UserAccepts(r.0, email, form.password, ps);
  }

  /** UploadProfileImage: only a successful upload for a known donor replaces the avatar, and
      nothing else. */
  function UploadResult(users: seq<User>, email: Option<string>, upload: Upload): (r: (seq<User>, bool))
    ensures !r.1 ==> r.0 == users
    ensures r.1 <==> upload.Uploaded? && FindUserByClaim(users, email).Some?
    ensures r.1 ==> var k := FindUserByClaim(users, email).value;
                    && |r.0| == |users|
                    && (forall i :: 0 <= i < |users| && i != k ==> r.0[i] == users[i])
                    && r.0[k] == users[k].(profileImage := upload.imagePath)
  {
    if upload.NoFile? then (users, false)
    else match FindUserByClaim(users, email)
      case None => (users, false)
      case Some(k) =>
        if upload.UploadFailed? then (users, false)
        else (users[k := users[k].(profileImage := upload.imagePath)], true)
  }

  /** The controller over the Users table; `passwords` is the hashing service. */
  class UserController {
    var users: seq<User>
    const passwords: PasswordService

    constructor (users: seq<User>, passwords: PasswordService)
      ensures this.users == users && this.passwords == passwords
    {
      this.users := users;
      this.passwords := passwords;
    }

    method EditProfile(email: Option<string>, form: EditForm, upload: Upload) returns (outcome: EditOutcome)
      modifies this
      ensures (users, outcome) == EditProfileResult(old(users), email, form, upload, passwords)
    {
      var found := FindUserByClaim(users, email);
      if found.None? {
        return EditNotFound;
      }
      var k := found.value;
      var newImagePath := users[k].profileImage;
      if upload.Uploaded? {
        newImagePath := upload.imagePath;
      } else if upload.UploadFailed? {
        return UploadRejected;
      }
      var user := users[k];
      user := user.(name := form.name);
      user := user.(phone := form.phone);
      user := user.(identityNumber := form.identityNumber);
      user := user.(password := passwords.hash(form.password));
      user := user.(profileImage := newImagePath);
      users := users[k := user];
      outcome := ProfileSaved;
    }

    method UploadProfileImage(email: Option<string>, upload: Upload) returns (success: bool)
      modifies this
      ensures (users, success) == UploadResult(old(users), email, upload)
    {
      if upload.NoFile? {
        return false;
      }
      var found := FindUserByClaim(users, email);
      if found.None? {
        return false;
      }
      if upload.UploadFailed? {
        return false;
      }
      var k := found.value;
      users := users[k := users[k].(profileImage := upload.imagePath)];
      success := true;
    }
  }
}
