/** The activity pages for cases: the filtered activity list and the sign-up form and its submission. */
module Activities {
  import opened Wrappers
  import opened Text
  import opened Seqs
  import opened Entities
  import Cases

  // ---------------------------------------------------------------------------------------------
  // Activity list

  const CaseAudience := "case"

  predicate ForCases(a: Activity) {
    a.targetAudience.Some? && a.targetAudience.value == CaseAudience
  }

  predicate InCategory(a: Activity, category: string) {
    a.category.Some? && a.category.value == category
  }

  predicate NameContains(a: Activity, keyword: string) {
    a.activityName.Some? && Contains(a.activityName.value, keyword)
  }

  /** The activity passes every filter of the list: it is for cases, and a non-empty category or
      keyword, when given, must match too. */
  predicate Listed(a: Activity, category: Option<string>, keyword: Option<string>) {
    && ForCases(a)
    && (IsNullOrEmpty(category) || InCategory(a, category.value))
    && (IsNullOrEmpty(keyword) || NameContains(a, keyword.value))
  }

  /** The reference list: the activities that pass every filter, in table order. */
  function ListedActivities(activities: seq<Activity>, category: Option<string>, keyword: Option<string>)
    : (r: seq<Activity>)
    ensures forall a :: a in r <==> a in activities && Listed(a, category, keyword)
  {
    Filter(activities, (a: Activity) => Listed(a, category, keyword))
  }

  /** CaseActivityIndex: the audience filter, then the category and keyword filters when they are
      given, applied one after the other; the result is the single conjunctive filter. */
  method CaseActivityIndex(activities: seq<Activity>, category: Option<string>, keyword: Option<string>)
    returns (list: seq<Activity>)
    ensures list == ListedActivities(activities, category, keyword)
  {
    var forCases := (a: Activity) => ForCases(a);
    list := Filter(activities, forCases);
    var afterCategory := (a: Activity) => ForCases(a) && (IsNullOrEmpty(category) || InCategory(a, category.value));
    if !IsNullOrEmpty(category) {
      var inCategory := (a: Activity) => InCategory(a, category.value);
      FilterOfFilter(activities, forCases, inCategory, afterCategory);
      list := Filter(list, inCategory);
    } else {
      assert forall a :: afterCategory(a) == forCases(a);
      FilterSame(activities, forCases, afterCategory);
    }
    assert list == Filter(activities, afterCategory);
    var all := (a: Activity) => Listed(a, category, keyword);
    if !IsNullOrEmpty(keyword) {
      var hasKeyword := (a: Activity) => NameContains(a, keyword.value);
      FilterOfFilter(activities, afterCategory, hasKeyword, all);
      list := Filter(list, hasKeyword);
    } else {
      FilterSame(activities, afterCategory, all);
    }
  }

  lemma {:induction false} FilterSame<T>(s: seq<T>, p: T -> bool, q: T -> bool)
    requires forall x :: p(x) == q(x)
    ensures Filter(s, p) == Filter(s, q)
  {
    if s != [] {
      FilterSame(s[1..], p, q);
    }
  }

  /** Leaving both filters empty lists every activity meant for cases. */
  lemma EmptyFiltersListAllCaseActivities(activities: seq<Activity>, category: Option<string>, keyword: Option<string>)
    requires IsNullOrEmpty(category) && IsNullOrEmpty(keyword)
    ensures forall a :: a in ListedActivities(activities, category, keyword) <==> a in activities && ForCases(a)
  {
  }

  /** Adding a filter never lists more: a keyword only narrows the category-filtered list. */
  lemma {:induction false} KeywordNarrows(activities: seq<Activity>, category: Option<string>, keyword: string)
    ensures |ListedActivities(activities, category, Some(keyword))| <= |ListedActivities(activities, category, None)|
  {
    FilterNarrower(activities, (a: Activity) => Listed(a, category, None), (a: Activity) => Listed(a, category, Some(keyword)));
  }

  // ---------------------------------------------------------------------------------------------
  // Sign-up

  /** The case a sign-up form is filled in for: the id is fixed in the source. */
  const DemoCaseId := 5

  datatype SignupForm = SignupForm(activity: Activity, registration: CaseActivityRegistration)

  /** CaseSignup (GET): None is NotFound for an unknown id; otherwise the form shows the activity and
      a registration for it, `registered`, awaiting its time. */
  function CaseSignupForm(activities: seq<Activity>, id: int): (r: Option<SignupForm>)
    ensures r.None? <==> forall a :: a in activities ==> a.activityId != id
    ensures r.Some? ==>
              && r.value.activity in activities && r.value.activity.activityId == id
              && r.value.registration.activityId == id && r.value.registration.caseId == DemoCaseId
              && r.value.registration.status == Registered
  {
    match Cases.FindActivity(activities, id)
    case None => None
    case Some(a) => Some(SignupForm(a, CaseActivityRegistration(0, DemoCaseId, a.activityId, Registered, MinValue)))
  }

  datatype SignupOutcome = BadRequest | SignedUp

  /** The registrations table CaseSignup (POST) appends to. */
  class ActivityController {
    var registrations: seq<CaseActivityRegistration>

    constructor (registrations: seq<CaseActivityRegistration>)
      ensures this.registrations == registrations
    {
      this.registrations := registrations;
    }

    /** CaseSignup (POST): `registration` is None when the posted model or its registration is null.
        A present registration is stamped with `now` and stored. */
    method CaseSignup(registration: Option<CaseActivityRegistration>, now: Instant) returns (outcome: SignupOutcome)
      modifies this
      ensures outcome == BadRequest <==> registration.None?
      ensures registration.None? ==> registrations == old(registrations)
      ensures registration.Some? ==> registrations == old(registrations) + [registration.value.(registerTime := now)]
    {
      if registration.None? {
        return BadRequest;
      }
      var row := registration.value;
      row := row.(registerTime := now);
      registrations := registrations + [row];
      outcome := SignedUp;
    }
  }

  /** A stored sign-up counts once for its case, and as active exactly when it is `registered`. */
  lemma SignupCounted(registrations: seq<CaseActivityRegistration>, row: CaseActivityRegistration)
    ensures var before := Cases.CaseRegistrationCounts(registrations, row.caseId);
            var after := Cases.CaseRegistrationCounts(registrations + [row], row.caseId);
            && after.total == before.total + 1
            && after.active == before.active + (if row.status == Registered then 1 else 0)
  {
    var mine := (x: CaseActivityRegistration) => x.caseId == row.caseId;
    var active := (x: CaseActivityRegistration) => x.caseId == row.caseId && Cases.IsRegisteredRow(x);
    FilterAppend(registrations, [row], mine);
    FilterAppend(registrations, [row], active);
  }
}
