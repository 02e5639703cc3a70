/** The computed properties of the purchase-record view models and of the case registration list. */
module ViewModels {
  import opened Wrappers
  import opened Text
  import opened Seqs
  import opened Entities

  // ---------------------------------------------------------------------------------------------
  // Purchase records

  /** OrderItemViewModel: one line of an order as the donor sees it. */
  datatype OrderItem = OrderItem(
    supplyName: Option<string>,
    quantity: int,
    unitPrice: Money,
    totalPrice: Money,
    imageUrl: string,
    isEmergency: bool)

  /** OrderRecordViewModel; `items` starts out empty. */
  datatype OrderRecord = OrderRecord(
    orderId: int,
    orderNumber: string,
    orderDate: Instant,
    totalPrice: Money,
    paymentStatus: string,
    items: seq<OrderItem>)

  /** UserPurchaseRecordsViewModel; `orders` starts out empty. */
  datatype PurchaseRecordsPage = PurchaseRecordsPage(userName: string, orders: seq<OrderRecord>)

  /** `TotalOrders`: how many orders the page lists. */
  function TotalOrders(page: PurchaseRecordsPage): nat {
    |page.orders|
  }

  function OrderPrice(o: OrderRecord): Money { o.totalPrice }

  /** `TotalDonated`: the prices of all listed orders added up, paid or not. */
  function TotalDonated(page: PurchaseRecordsPage): (r: Money)
    ensures page.orders == [] ==> r == 0.0
    ensures (forall i :: 0 <= i < |page.orders| ==> page.orders[i].totalPrice >= 0.0) ==> r >= 0.0
  {
    if forall i :: 0 <= i < |page.orders| ==> page.orders[i].totalPrice >= 0.0 then
      SumNonNegative(page.orders, OrderPrice);
      Sum(page.orders, OrderPrice)
    else
      Sum(page.orders, OrderPrice)
  }

  /** `TotalItems`: the quantities of an order's items added up. */
  function TotalItems(items: seq<OrderItem>): (n: int)
    ensures items == [] ==> n == 0
    ensures (forall i :: 0 <= i < |items| ==> items[i].quantity >= 0) ==> n >= 0
    ensures (forall i :: 0 <= i < |items| ==> items[i].quantity >= 0) ==>
              forall i :: 0 <= i < |items| ==> items[i].quantity <= n
  {
    if items == [] then 0
    else
      assert forall i :: 1 <= i < |items| ==> items[i] == items[1..][i - 1];
      items[0].quantity + TotalItems(items[1..])
  }

  /** TotalItems is the sum of the quantities: one item counts its quantity, and the total of two
      lists joined is the sum of their totals. */
  lemma {:induction false} TotalItemsAppend(a: seq<OrderItem>, b: seq<OrderItem>)
    ensures TotalItems(a + b) == TotalItems(a) + TotalItems(b)
    ensures |a| == 1 ==> TotalItems(a) == a[0].quantity
  {
    if a != [] {
      assert (a + b)[0] == a[0] && (a + b)[1..] == a[1..] + b;
      TotalItemsAppend(a[1..], b);
    } else {
      assert a + b == b;
    }
  }

  /** `IsEmergencyOrder`: some item came from an emergency need. */
  function IsEmergencyOrder(items: seq<OrderItem>): (r: bool)
    ensures r <==> exists i :: 0 <= i < |items| && items[i].isEmergency
  {
    if items == [] then false
    else
      assert forall i :: 1 <= i < |items| ==> items[i] == items[1..][i - 1];
      items[0].isEmergency || IsEmergencyOrder(items[1..])
  }

  // ---------------------------------------------------------------------------------------------
  // Case registrations

  /** CaseActivityRegistrationItem: a registration joined with its activity. */
  datatype RegistrationItem = RegistrationItem(
    registrationId: int,
    activityId: int,
    activityName: string,
    activityDescription: string,
    location: string,
    startDate: Instant,
    endDate: Instant,
    registerTime: Instant,
    status: string,
    imageUrl: string,
    category: string,
    targetAudience: string)

  /** `IsUpcoming`, for the clock value `now`. */
  predicate IsUpcoming(item: RegistrationItem, now: Instant) {
    item.startDate > now
  }

  /** `IsCompleted`, for the clock value `now`. */
  predicate IsCompleted(item: RegistrationItem, now: Instant) {
    item.endDate < now
  }

  /** `IsActive`. */
  predicate IsActive(item: RegistrationItem) {
    item.status == Registered
  }

  const SignedUpLabel := "已報名"
  const CancelledLabel := "已取消"

  /** `StatusDisplay`: one of two labels, the first exactly for the active registrations. */
  function StatusDisplay(item: RegistrationItem): (r: string)
    ensures r == SignedUpLabel || r == CancelledLabel
    ensures r == SignedUpLabel <==> IsActive(item)
  {
    if item.status == Registered then SignedUpLabel else CancelledLabel
  }

  /** The categories the list spells out in full. */
  predicate IsShortCategory(c: string) {
    c == "生活" || c == "心靈" || c == "運動"
  }

  /** `CategoryDisplay`: the three short categories spelled out, any other category left as it is. */
  function CategoryDisplay(category: string): (r: string)
    ensures !IsShortCategory(r)
    ensures !IsShortCategory(category) ==> r == category
    ensures IsShortCategory(category) ==> StartsWith(r, category) && |r| == 4
  {
    if category == "生活" then "生活技能"
    else if category == "心靈" then "心靈成長"
    else if category == "運動" then "運動健康"
    else category
  }

  /** Displaying a displayed category changes nothing more. */
  lemma CategoryDisplayIdempotent(category: string)
    ensures CategoryDisplay(CategoryDisplay(category)) == CategoryDisplay(category)
  {
  }

  /** A registration cannot be both upcoming and completed when its activity ends no earlier than
      it starts. */
  lemma UpcomingExcludesCompleted(item: RegistrationItem, now: Instant)
    requires item.startDate <= item.endDate
    ensures !(IsUpcoming(item, now) && IsCompleted(item, now))
  {
  }
}
