/** The database rows the core reads and writes, as values. Tables are sequences of rows in the
    order the database returns them; a nullable column is an Option. */
module Entities {
  import opened Wrappers
  import opened Seqs

  /** A `DateTime`, as a count of 100-nanosecond ticks. */
  type Instant = int

  const TicksPerMinute: int := 600_000_000
  const TicksPerHour: int := 60 * TicksPerMinute

  /** `DateTime.MinValue`, tick zero: the date shown for a missing activity. */
  const MinValue: Instant := 0

  /** A `decimal` amount, taken as exact. */
  type Money = real

  /** A donor account (table Users). */
  datatype User = User(
    userId: int,
    identityNumber: string,
    email: string,
    password: string,
    phone: Option<string>,
    name: Option<string>,
    profileImage: Option<string>)

  /** A case's login (table CaseLogins); the password column can hold null. */
  datatype CaseLogin = CaseLogin(caseId: int, email: string, password: Option<string>)

  /** A case (table Cases): only the columns the core reads. */
  datatype Case = Case(caseId: int, name: Option<string>)

  /** A row of table PasswordResetTokens; `userType` is "User" or "Case". */
  datatype PasswordResetToken = PasswordResetToken(
    email: string,
    token: string,
    userType: string,
    createdAt: Instant,
    expiresAt: Instant,
    isUsed: bool,
    usedAt: Option<Instant>)

  /** A donation order (table UserOrders). `orderSource` is "regular", "package" or "emergency". */
  datatype UserOrder = UserOrder(
    userOrderId: int,
    userId: int,
    orderNumber: string,
    orderDate: Instant,
    totalPrice: Money,
    paymentStatus: string,
    orderSource: string)

  /** A line of an order (table UserOrderDetails). */
  datatype UserOrderDetail = UserOrderDetail(
    userOrderId: int,
    supplyId: int,
    quantity: int,
    unitPrice: Money,
    orderSource: string)

  /** A supply (table Supplies); `categoryName` is the name of its category row, None when it has none. */
  datatype Supply = Supply(
    supplyId: int,
    supplyName: Option<string>,
    supplyType: Option<string>,
    imageUrl: Option<string>,
    categoryName: Option<string>)

  /** A case-specific need (table EmergencySupplyNeeds). */
  datatype EmergencySupplyNeed = EmergencySupplyNeed(
    emergencyNeedId: int,
    caseId: int,
    supplyId: int,
    quantity: int,
    visitDate: Instant,
    status: string,
    pickupDate: Option<Instant>,
    imageUrl: Option<string>)

  /** A purchase made against an emergency need (table EmergencyPurchaseRecords). */
  datatype EmergencyPurchaseRecord = EmergencyPurchaseRecord(
    userOrderId: int,
    emergencyNeedId: int,
    supplyName: Option<string>,
    quantity: int,
    unitPrice: Money)

  /** A case's standing supply request (table RegularSuppliesNeeds). */
  datatype RegularSuppliesNeed = RegularSuppliesNeed(
    caseId: int,
    supplyId: int,
    quantity: int,
    applyDate: Instant,
    pickupDate: Option<Instant>,
    status: string)

  /** An activity (table Activities). */
  datatype Activity = Activity(
    activityId: int,
    activityName: Option<string>,
    description: Option<string>,
    location: Option<string>,
    category: Option<string>,
    targetAudience: Option<string>,
    status: string,
    startDate: Instant,
    endDate: Instant,
    imageUrl: Option<string>)

  /** A donor's sign-up for an activity; `status` is "registered" or "cancelled". */
  datatype UserActivityRegistration = UserActivityRegistration(
    registrationId: int,
    userId: int,
    activityId: int,
    status: string,
    registerTime: Instant)

  /** A case's sign-up for an activity. */
  datatype CaseActivityRegistration = CaseActivityRegistration(
    registrationId: int,
    caseId: int,
    activityId: int,
    status: string,
    registerTime: Instant)

  /** An achievement a donor holds (table UserAchievements). */
  datatype UserAchievement = UserAchievement(userId: int, achievementCode: string, earnedAt: Instant)

  /** The status value every "active" registration count looks for. */
  const Registered := "registered"

  /** The `Supply` navigation property: the first supply row with the id, None when there is none. */
  function FindSupply(supplies: seq<Supply>, id: int): (r: Option<Supply>)
    ensures r.Some? ==> r.value in supplies && r.value.supplyId == id
    ensures r.None? ==> forall s :: s in supplies ==> s.supplyId != id
  {
    match FirstIndex(supplies, (s: Supply) => s.supplyId == id)
    case None => None
    case Some(k) => Some(supplies[k])
  }
}
