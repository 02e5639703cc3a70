/** The case-facing pages: the supply shop with its category filter, a case's supply records, the
    case's password change and its activity registrations. */
module Cases {
  import opened Wrappers
  import opened Text
  import opened Seqs
  import opened Entities
  import opened ViewModels
  import Auth

  // ---------------------------------------------------------------------------------------------
  // Shop

  const CaseRole := "Case"

  datatype ShoppingOutcome = RedirectToApplication | SupplyList(supplies: seq<Supply>)

  /** The supply belongs to a category whose name contains the text. */
  predicate InCategory(s: Supply, category: string) {
    s.categoryName.Some? && Contains(s.categoryName.value, category)
  }

  /** ShoppingIndex: a signed-in case is sent to the application page; anyone else sees the
      supplies, narrowed to the matching categories when a category is given. */
  function ShoppingIndex(authenticated: bool, role: Option<string>, category: Option<string>,
                         supplies: seq<Supply>): (r: ShoppingOutcome)
    ensures r.RedirectToApplication? <==> authenticated && role == Some(CaseRole)
    ensures r.SupplyList? && IsNullOrEmpty(category) ==> r.supplies == supplies
    ensures r.SupplyList? && !IsNullOrEmpty(category) ==>
              forall s :: s in r.supplies <==> s in supplies && InCategory(s, category.value)
  {
    if authenticated && role == Some(CaseRole) then RedirectToApplication
    else if IsNullOrEmpty(category) then SupplyList(supplies)
    else SupplyList(Filter(supplies, (s: Supply) => InCategory(s, category.value)))
  }

  // ---------------------------------------------------------------------------------------------
  // Supply records

  /** The case whose records CasePurchaseList shows: the id is fixed in the source. */
  const DemoCaseId := 1
  const NotPickedUp := "未領取"
  const PickedUp := "已領取"
  const InterviewSupply := "訪談物資"

  /** SupplyRecordItem: a need joined with its supply. */
  datatype SupplyRecordItem = SupplyRecordItem(
    name: Option<string>,
    category: Option<string>,
    quantity: int,
    applyDate: Instant,
    pickupDate: Option<Instant>,
    status: string,
    imageUrl: Option<string>)

  function SupplyField(s: Option<Supply>, f: Supply -> Option<string>): Option<string> {
    if s.Some? then f(s.value) else None
  }

  function SupplyName(s: Supply): Option<string> { s.supplyName }
  function SupplyCategory(s: Supply): Option<string> { s.categoryName }
  function SupplyImage(s: Supply): Option<string> { s.imageUrl }

  function RegularRecord(r: RegularSuppliesNeed, supplies: seq<Supply>): SupplyRecordItem {
    var s := FindSupply(supplies, r.supplyId);
    SupplyRecordItem(SupplyField(s, SupplyName), SupplyField(s, SupplyCategory), r.quantity, r.applyDate,
                     r.pickupDate, r.status, SupplyField(s, SupplyImage))
  }

  /** An emergency need picked up by the case, shown as an interview supply dated by the visit. */
  function EmergencyRecord(e: EmergencySupplyNeed, supplies: seq<Supply>): (x: SupplyRecordItem)
    ensures x.status == InterviewSupply && x.applyDate == e.visitDate && x.quantity == e.quantity
  {
    var s := FindSupply(supplies, e.supplyId);
    SupplyRecordItem(SupplyField(s, SupplyName), SupplyField(s, SupplyCategory), e.quantity, e.visitDate,
                     e.pickupDate, InterviewSupply, SupplyField(s, SupplyImage))
  }

  predicate IsUnreceived(r: RegularSuppliesNeed) {
    r.caseId == DemoCaseId && r.status == NotPickedUp
  }

  predicate IsReceivedRegular(r: RegularSuppliesNeed) {
    r.caseId == DemoCaseId && (r.status == PickedUp || r.status == InterviewSupply)
  }

  predicate IsReceivedEmergency(e: EmergencySupplyNeed) {
    e.caseId == DemoCaseId && e.status == PickedUp
  }

  /** SupplyRecordViewModel as CasePurchaseList fills it. */
  datatype SupplyRecords = SupplyRecords(unreceived: seq<SupplyRecordItem>, received: seq<SupplyRecordItem>)

  function RegularRecords(rs: seq<RegularSuppliesNeed>, supplies: seq<Supply>): (r: seq<SupplyRecordItem>)
    ensures |r| == |rs| && forall i :: 0 <= i < |r| ==> r[i] == RegularRecord(rs[i], supplies)
  {
    Map(rs, (x: RegularSuppliesNeed) => RegularRecord(x, supplies))
  }

  function EmergencyRecords(es: seq<EmergencySupplyNeed>, supplies: seq<Supply>): (r: seq<SupplyRecordItem>)
    ensures |r| == |es| && forall i :: 0 <= i < |r| ==> r[i] == EmergencyRecord(es[i], supplies)
  {
    Map(es, (x: EmergencySupplyNeed) => EmergencyRecord(x, supplies))
  }

  /** CasePurchaseList: the case's unreceived regular needs, and the union of its received regular
      needs with its picked-up emergency needs. */
  function CasePurchaseList(regular: seq<RegularSuppliesNeed>, emergency: seq<EmergencySupplyNeed>,
                            supplies: seq<Supply>): (v: SupplyRecords)
    ensures |v.unreceived| == Count(regular, IsUnreceived)
    ensures forall i :: 0 <= i < |v.unreceived| ==> v.unreceived[i].status == NotPickedUp
    ensures forall i :: 0 <= i < |v.received| ==>
              v.received[i].status == PickedUp || v.received[i].status == InterviewSupply
    ensures NoDuplicates(v.received)
  {
    var unreceived := RegularRecords(Filter(regular, IsUnreceived), supplies);
    var fromRegular := RegularRecords(Filter(regular, IsReceivedRegular), supplies);
    var fromEmergency := EmergencyRecords(Filter(emergency, IsReceivedEmergency), supplies);
    assert forall x :: x in fromRegular ==> x.status == PickedUp || x.status == InterviewSupply;
    SupplyRecords(unreceived, Union(fromRegular, fromEmergency))
  }

  /** The received list holds exactly the records of the case's received regular needs and of its
      picked-up emergency needs, each relabelled as an interview supply dated by its visit. */
  lemma ReceivedIsUnion(regular: seq<RegularSuppliesNeed>, emergency: seq<EmergencySupplyNeed>, supplies: seq<Supply>)
    ensures var v := CasePurchaseList(regular, emergency, supplies);
            && (forall r :: r in regular && IsReceivedRegular(r) ==> RegularRecord(r, supplies) in v.received)
            && (forall e :: e in emergency && IsReceivedEmergency(e) ==> EmergencyRecord(e, supplies) in v.received)
            && (forall x :: x in v.received ==>
                  (exists r :: r in regular && IsReceivedRegular(r) && x == RegularRecord(r, supplies)) ||
                  (exists e :: e in emergency && IsReceivedEmergency(e) && x == EmergencyRecord(e, supplies)))
  {
    var fr := Filter(regular, IsReceivedRegular);
    var fe := Filter(emergency, IsReceivedEmergency);
    var a := RegularRecords(fr, supplies);
    var b := EmergencyRecords(fe, supplies);
    forall r | r in regular && IsReceivedRegular(r) ensures RegularRecord(r, supplies) in a {
      var k :| 0 <= k < |fr| && fr[k] == r;
    }
    forall e | e in emergency && IsReceivedEmergency(e) ensures EmergencyRecord(e, supplies) in b {
      var k :| 0 <= k < |fe| && fe[k] == e;
    }
    forall x | x in a ensures exists r :: r in regular && IsReceivedRegular(r) && x == RegularRecord(r, supplies) {
      var k :| 0 <= k < |a| && a[k] == x;
      assert fr[k] in regular;
    }
    forall x | x in b ensures exists e :: e in emergency && IsReceivedEmergency(e) && x == EmergencyRecord(e, supplies) {
      var k :| 0 <= k < |b| && b[k] == x;
      assert fe[k] in emergency;
    }
  }

  /** The unreceived list holds exactly the records of the case's regular needs still waiting to be
      picked up, in the order of the needs. */
  lemma UnreceivedRecords(regular: seq<RegularSuppliesNeed>, emergency: seq<EmergencySupplyNeed>,
                          supplies: seq<Supply>)
    ensures var v := CasePurchaseList(regular, emergency, supplies);
            && (forall r :: r in regular && IsUnreceived(r) ==> RegularRecord(r, supplies) in v.unreceived)
            && (forall x :: x in v.unreceived ==>
                  exists r :: r in regular && IsUnreceived(r) && x == RegularRecord(r, supplies))
  {
    var fu := Filter(regular, IsUnreceived);
    var a := RegularRecords(fu, supplies);
    forall r | r in regular && IsUnreceived(r) ensures RegularRecord(r, supplies) in a {
      var k :| 0 <= k < |fu| && fu[k] == r;
    }
    forall x | x in a ensures exists r :: r in regular && IsUnreceived(r) && x == RegularRecord(r, supplies) {
      var k :| 0 <= k < |a| && a[k] == x;
      assert fu[k] in regular;
    }
  }

  /** Nothing is listed both as unreceived and as received. */
  lemma ReceivedAndUnreceivedDisjoint(regular: seq<RegularSuppliesNeed>, emergency: seq<EmergencySupplyNeed>,
                                      supplies: seq<Supply>)
    ensures var v := CasePurchaseList(regular, emergency, supplies);
            forall x :: x in v.unreceived ==> x !in v.received
  {
  }

  // ---------------------------------------------------------------------------------------------
  // Password change

  datatype PasswordChangeOutcome = PasswordMismatch | CaseNotFound | PasswordChanged

  function FindLoginByClaim(logins: seq<CaseLogin>, email: Option<string>): Option<nat> {
    if email.None? then None else Auth.FindCaseLogin(logins, email.value)
  }

  /** CaseProfile (POST): differing entries change nothing; otherwise the case login with the
      e-mail gets the new password exactly as typed, null included. */
  function ChangePasswordResult(logins: seq<CaseLogin>, email: Option<string>, newPassword: Option<string>,
                                confirmPassword: Option<string>): (r: (seq<CaseLogin>, PasswordChangeOutcome))
    ensures r.1 == PasswordMismatch <==> newPassword != confirmPassword
    ensures r.1 == CaseNotFound <==> newPassword == confirmPassword && FindLoginByClaim(logins, email).None?
    ensures r.1 != PasswordChanged ==> r.0 == logins
    ensures r.1 == PasswordChanged ==>
              var k := FindLoginByClaim(logins, email).value;
              && |r.0| == |logins|
              && (forall i :: 0 <= i < |logins| && i != k ==> r.0[i] == logins[i])
              && r.0[k] == logins[k].(password := newPassword)
  {
    if newPassword != confirmPassword then (logins, PasswordMismatch)
    else match FindLoginByClaim(logins, email)
      case None => (logins, CaseNotFound)
      case Some(k) => (logins[k := logins[k].(password := newPassword)], PasswordChanged)
  }

  /** The new password is stored unhashed, so a case without a donor account of the same e-mail
      signs in with it, as long as it does not look like a BCrypt hash or the Google marker. */
  lemma LoginAfterPasswordChange(users: seq<User>, logins: seq<CaseLogin>, cases: seq<Case>, email: string,
                                 password: string, ps: Auth.PasswordService)
    requires FindLoginByClaim(logins, Some(email)).Some?
    requires Auth.FindUserByEmail(users, email).None?
    requires !StartsWith(password, Auth.BcryptPrefix) && password != Auth.GoogleOAuthMarker
    ensures var logins' := ChangePasswordResult(logins, Some(email), Some(password), Some(password)).0;
            var r := Auth.Login(users, logins', cases, email, password, ps);
            r.SignedIn? && r.principal.role == "Case"
  {
    var k := Auth.FindCaseLogin(logins, email).value;
    var logins' := ChangePasswordResult(logins, Some(email), Some(password), Some(password)).0;
    FirstIndexStable(logins, logins', k, (c: CaseLogin) => c.email == email);
    assert Auth.CaseAccepts(logins', email, password, ps);
  }

  /** Submitting both fields empty stores a null password, after which the case's login attempts
      fault instead of signing in. */
  lemma BlankPasswordBreaksLogin(users: seq<User>, logins: seq<CaseLogin>, cases: seq<Case>, email: string,
                                 password: string, ps: Auth.PasswordService)
    requires FindLoginByClaim(logins, Some(email)).Some?
    requires Auth.FindUserByEmail(users, email).None?
    ensures var logins' := ChangePasswordResult(logins, Some(email), None, None).0;
            Auth.Login(users, logins', cases, email, password, ps) == Auth.Fault
  {
    var k := Auth.FindCaseLogin(logins, email).value;
    var logins' := ChangePasswordResult(logins, Some(email), None, None).0;
    FirstIndexStable(logins, logins', k, (c: CaseLogin) => c.email == email);
  }

  /** The controller state CaseProfile (POST) changes. */
  class CaseController {
    var logins: seq<CaseLogin>

    constructor (logins: seq<CaseLogin>)
      ensures this.logins == logins
    {
      this.logins := logins;
    }

    method ChangePassword(email: Option<string>, newPassword: Option<string>, confirmPassword: Option<string>)
      returns (outcome: PasswordChangeOutcome)
      modifies this
      ensures (logins, outcome) == ChangePasswordResult(old(logins), email, newPassword, confirmPassword)
    {
      if newPassword != confirmPassword {
        return PasswordMismatch;
      }
      var found := FindLoginByClaim(logins, email);
      if found.None? {
        return CaseNotFound;
      }
      var k := found.value;
      logins := logins[k := logins[k].(password := newPassword)];
      outcome := PasswordChanged;
    }
  }

  // ---------------------------------------------------------------------------------------------
  // Registrations

  /** How many registrations the case has, and how many are still `registered`. */
  datatype RegistrationCounts = RegistrationCounts(total: nat, active: nat)

  function CaseRows(registrations: seq<CaseActivityRegistration>, caseId: int): (r: seq<CaseActivityRegistration>)
    ensures forall x :: x in r <==> x in registrations && x.caseId == caseId
  {
    Filter(registrations, (x: CaseActivityRegistration) => x.caseId == caseId)
  }

  predicate IsRegisteredRow(x: CaseActivityRegistration) {
    x.status == Entities.Registered
  }

  function CaseRegistrationCounts(registrations: seq<CaseActivityRegistration>, caseId: int): (c: RegistrationCounts)
    ensures c.active <= c.total <= |registrations|
    ensures c.total == 0 <==> forall i :: 0 <= i < |registrations| ==> registrations[i].caseId != caseId
    ensures c.active > 0 <==> exists i :: 0 <= i < |registrations| &&
                                registrations[i].caseId == caseId && IsRegisteredRow(registrations[i])
  {
    var mine := (x: CaseActivityRegistration) => x.caseId == caseId;
    var active := (x: CaseActivityRegistration) => x.caseId == caseId && IsRegisteredRow(x);
    FilterNarrower(registrations, mine, active);
    RegistrationCounts(Count(registrations, mine), Count(registrations, active))
  }

  /** OrderByDescending(RegisterTime) as an order. */
  predicate NewerOrSame(a: CaseActivityRegistration, b: CaseActivityRegistration) {
    a.registerTime >= b.registerTime
  }

  lemma NewerOrSameIsTotalPreorder()
    ensures TotalPreorder(NewerOrSame)
  {
  }

  function FindActivity(activities: seq<Activity>, id: int): (r: Option<Activity>)
    ensures r.Some? ==> r.value in activities && r.value.activityId == id
    ensures r.None? ==> forall a :: a in activities ==> a.activityId != id
  {
    match FirstIndex(activities, (a: Activity) => a.activityId == id)
    case None => None
    case Some(k) => Some(activities[k])
  }

  const UnknownActivity := "未知活動"
  const DefaultActivityImage := "/images/activity-default.png"

  /** A registration with its activity; a missing activity shows placeholder text and dates. */
  function RegistrationItemOf(r: CaseActivityRegistration, activities: seq<Activity>): (item: RegistrationItem)
    ensures item.registrationId == r.registrationId && item.activityId == r.activityId
    ensures item.status == r.status && item.registerTime == r.registerTime
    ensures FindActivity(activities, r.activityId).None? ==>
              item.activityName == UnknownActivity && item.imageUrl == DefaultActivityImage &&
              item.startDate == MinValue && item.endDate == MinValue && item.category == "" &&
              item.activityDescription == "" && item.location == "" && item.targetAudience == ""
    ensures FindActivity(activities, r.activityId).Some? ==>
              var act := FindActivity(activities, r.activityId).value;
              && item.activityName == act.activityName.GetOr(UnknownActivity)
              && item.activityDescription == act.description.GetOr("")
              && item.location == act.location.GetOr("")
              && item.startDate == act.startDate && item.endDate == act.endDate
              && item.imageUrl == act.imageUrl.GetOr(DefaultActivityImage)
              && item.category == act.category.GetOr("")
              && item.targetAudience == act.targetAudience.GetOr("")
  {
    var a := FindActivity(activities, r.activityId);
    if a.None? then
      RegistrationItem(r.registrationId, r.activityId, UnknownActivity, "", "", MinValue, MinValue,
                       r.registerTime, r.status, DefaultActivityImage, "", "")
    else
      var act := a.value;
      RegistrationItem(r.registrationId, r.activityId, act.activityName.GetOr(UnknownActivity),
                       act.description.GetOr(""), act.location.GetOr(""), act.startDate, act.endDate,
                       r.registerTime, r.status, act.imageUrl.GetOr(DefaultActivityImage),
                       act.category.GetOr(""), act.targetAudience.GetOr(""))
  }

  function RegistrationItems(rows: seq<CaseActivityRegistration>, activities: seq<Activity>): (r: seq<RegistrationItem>)
    ensures |r| == |rows| && forall i :: 0 <= i < |r| ==> r[i] == RegistrationItemOf(rows[i], activities)
  {
    Map(rows, (x: CaseActivityRegistration) => RegistrationItemOf(x, activities))
  }

  const DefaultCaseName := "個案"

  /** The outcomes of the case's Registrations page; Fault is the exception raised when the e-mail
      has no case login. */
  datatype RegistrationsOutcome =
    | RedirectToLogin
    | RegistrationsFault
    | RegistrationsPage(caseName: string, totalRegistrations: nat, activeRegistrations: nat,
                        items: seq<RegistrationItem>)

  function FirstCase(cases: seq<Case>, caseId: int): Option<Case> {
    match FirstIndex(cases, (c: Case) => c.caseId == caseId)
    case None => None
    case Some(k) => Some(cases[k])
  }

  /** Registrations: every registration of the signed-in case, newest first, with its figures. */
  function CaseRegistrations(email: Option<string>, logins: seq<CaseLogin>, cases: seq<Case>,
                             registrations: seq<CaseActivityRegistration>, activities: seq<Activity>)
    : (r: RegistrationsOutcome)
    ensures r.RedirectToLogin? <==>
              IsNullOrEmpty(email) ||
              (FindLoginByClaim(logins, email).Some? &&
               FirstCase(cases, logins[FindLoginByClaim(logins, email).value].caseId).None?)
    ensures r.RegistrationsFault? <==> !IsNullOrEmpty(email) && FindLoginByClaim(logins, email).None?
    ensures r.RegistrationsPage? ==> !IsNullOrEmpty(email) && FindLoginByClaim(logins, email).Some?
    ensures r.RegistrationsPage? ==> r.totalRegistrations == |r.items|
    ensures r.RegistrationsPage? ==>
              r.caseName == FirstCase(cases, logins[FindLoginByClaim(logins, email).value].caseId).value.name.GetOr(DefaultCaseName)
  {
    if IsNullOrEmpty(email) then RedirectToLogin
    else match FindLoginByClaim(logins, email)
      case None => RegistrationsFault
      case Some(k) =>
        match FirstCase(cases, logins[k].caseId)
        case None => RedirectToLogin
        case Some(cas) =>
          var rows := SortBy(CaseRows(registrations, cas.caseId), NewerOrSame);
          RegistrationsPage(cas.name.GetOr(DefaultCaseName), |rows|, Count(rows, IsRegisteredRow),
                            RegistrationItems(rows, activities))
  }

  /** The page lists exactly the signed-in case's registrations, each joined with its activity. */
  lemma RegistrationsPageItems(email: Option<string>, logins: seq<CaseLogin>, cases: seq<Case>,
                               registrations: seq<CaseActivityRegistration>, activities: seq<Activity>)
    ensures var r := CaseRegistrations(email, logins, cases, registrations, activities);
            r.RegistrationsPage? ==>
              var caseId := logins[FindLoginByClaim(logins, email).value].caseId;
              && (forall x :: x in registrations && x.caseId == caseId ==> RegistrationItemOf(x, activities) in r.items)
              && (forall i :: 0 <= i < |r.items| ==>
                    exists x :: x in registrations && x.caseId == caseId && r.items[i] == RegistrationItemOf(x, activities))
  {
    var r := CaseRegistrations(email, logins, cases, registrations, activities);
    if r.RegistrationsPage? {
      var k := FindLoginByClaim(logins, email).value;
      var cas := FirstCase(cases, logins[k].caseId).value;
      var caseId := logins[k].caseId;
      assert cas.caseId == caseId;
      var mine := CaseRows(registrations, caseId);
      var rows := SortBy(mine, NewerOrSame);
      assert forall x :: x in rows <==> x in mine by {
        forall x ensures x in rows <==> x in mine {
          assert x in multiset(rows) <==> x in multiset(mine);
        }
      }
      assert r.items == RegistrationItems(rows, activities);
      forall x | x in registrations && x.caseId == caseId ensures RegistrationItemOf(x, activities) in r.items {
        var j :| 0 <= j < |rows| && rows[j] == x;
        assert r.items[j] == RegistrationItemOf(x, activities);
      }
      forall i | 0 <= i < |r.items|
        ensures exists x :: x in registrations && x.caseId == caseId && r.items[i] == RegistrationItemOf(x, activities)
      {
        assert rows[i] in mine;
      }
    }
  }

  lemma {:induction false} ActiveItemsMatchRows(rows: seq<CaseActivityRegistration>, activities: seq<Activity>)
    ensures |Filter(RegistrationItems(rows, activities), IsActive)| == |Filter(rows, IsRegisteredRow)|
  {
    if rows != [] {
      ActiveItemsMatchRows(rows[1..], activities);
      assert RegistrationItems(rows, activities)[1..] == RegistrationItems(rows[1..], activities);
    }
  }

  /** The page's figures are the ones the profile counts for the signed-in case, its active count
      is the number of listed items whose IsActive holds, and the list is newest first. */
  lemma RegistrationsPageConsistent(email: Option<string>, logins: seq<CaseLogin>, cases: seq<Case>,
                                    registrations: seq<CaseActivityRegistration>, activities: seq<Activity>)
    ensures var r := CaseRegistrations(email, logins, cases, registrations, activities);
            r.RegistrationsPage? ==>
              && var counts := CaseRegistrationCounts(registrations, logins[FindLoginByClaim(logins, email).value].caseId);
              && r.totalRegistrations == counts.total && r.activeRegistrations == counts.active
              && r.activeRegistrations == |Filter(r.items, IsActive)|
              && forall i, j :: 0 <= i < j < |r.items| ==> r.items[i].registerTime >= r.items[j].registerTime
  {
    var r := CaseRegistrations(email, logins, cases, registrations, activities);
    if r.RegistrationsPage? {
      var k := FindLoginByClaim(logins, email).value;
      var cas := FirstCase(cases, logins[k].caseId).value;
      var mine := CaseRows(registrations, cas.caseId);
      var rows := SortBy(mine, NewerOrSame);
      var active := (x: CaseActivityRegistration) => x.caseId == cas.caseId && IsRegisteredRow(x);
      FilterOfFilter(registrations, (x: CaseActivityRegistration) => x.caseId == cas.caseId, IsRegisteredRow, active);
      FilterSortBy(mine, NewerOrSame, IsRegisteredRow);
      ActiveItemsMatchRows(rows, activities);
      NewerOrSameIsTotalPreorder();
      SortBySorted(mine, NewerOrSame);
    }
  }
}
