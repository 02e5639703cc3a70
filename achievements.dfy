/** The achievement engine: a fixed table of five achievements, the rule that decides each one from
    a donor's activity registrations, the award pass, and the per-achievement status list. */
module Achievements {
  import opened Wrappers
  import opened Seqs
  import opened Entities

  // ---------------------------------------------------------------------------------------------
  // Definition table

  datatype Definition = Definition(code: string, name: string, description: string, icon: string)

  /** The dictionary `ACHIEVEMENTS` as (key, definition) pairs, in the order its values are enumerated. */
  const Table: seq<(string, Definition)> := [
    ("first_registration", Definition("first_registration", "初來乍到", "完成第一次活動報名", "star")),
    ("first_completion", Definition("first_completion", "初體驗", "完成第一次活動參與", "check-circle")),
    ("multi_category", Definition("multi_category", "多元探索者", "參與3種不同類型的活動", "rainbow")),
    ("regular_participant", Definition("regular_participant", "熱心志工", "累計完成5次活動", "heart")),
    ("case_helper", Definition("case_helper", "溫暖陪伴", "參與個案專屬活動", "users"))]

  /** `ACHIEVEMENTS.Values`, in the order the table lists them. */
  const Definitions: seq<Definition> := Values(Table)

  function Values(t: seq<(string, Definition)>): (r: seq<Definition>)
    ensures |r| == |t| && forall i :: 0 <= i < |t| ==> r[i] == t[i].1
  {
    if t == [] then [] else [t[0].1] + Values(t[1..])
  }

  predicate DistinctCodes(defs: seq<Definition>) {
    forall i, j :: 0 <= i < j < |defs| ==> defs[i].code != defs[j].code
  }

  predicate IsDefinedCode(defs: seq<Definition>, code: string) {
    exists i :: 0 <= i < |defs| && defs[i].code == code
  }

  /** The table has five entries, each filed under its own code, and no code twice. */
  lemma TableWellFormed()
    ensures |Table| == 5 && Definitions == Values(Table)
    ensures forall i :: 0 <= i < |Table| ==> Table[i].0 == Table[i].1.code
    ensures forall i, j :: 0 <= i < j < |Table| ==> Table[i].0 != Table[j].0
    ensures DistinctCodes(Definitions)
  {
  }

  // ---------------------------------------------------------------------------------------------
  // Conditions

  /** The tables the conditions read. */
  datatype Db = Db(registrations: seq<UserActivityRegistration>, activities: seq<Activity>)

  /** The activities one registration joins to: those with its ActivityId, if it is the donor's and
      `registered`; none otherwise. */
  function JoinedOne(userId: int, r: UserActivityRegistration, acts: seq<Activity>): seq<Activity> {
    if r.userId == userId && r.status == Registered
    then Filter(acts, (a: Activity) => a.activityId == r.activityId)
    else []
  }

  /** The donor's `registered` registrations joined to activities on ActivityId, one activity per
      matching pair. */
  function Joined(userId: int, regs: seq<UserActivityRegistration>, acts: seq<Activity>): seq<Activity> {
    if regs == [] then []
    else JoinedOne(userId, regs[0], acts) + Joined(userId, regs[1..], acts)
  }

  /** Every joined activity is an activity of one of the donor's `registered` registrations. */
  lemma {:induction false} JoinedSound(userId: int, regs: seq<UserActivityRegistration>, acts: seq<Activity>,
                                       a: Activity)
    requires a in Joined(userId, regs, acts)
    ensures a in acts
    ensures exists i :: 0 <= i < |regs| && regs[i].userId == userId && regs[i].status == Registered &&
                        regs[i].activityId == a.activityId
  {
    var head := JoinedOne(userId, regs[0], acts);
    assert Joined(userId, regs, acts) == head + Joined(userId, regs[1..], acts);
    if a in head {
      var k :| 0 <= k < |head| && head[k] == a;
      assert regs[0].activityId == a.activityId;
    } else {
      JoinedSound(userId, regs[1..], acts, a);
      var i :| 0 <= i < |regs[1..]| && regs[1..][i].userId == userId && regs[1..][i].status == Registered &&
               regs[1..][i].activityId == a.activityId;
      assert regs[i + 1] == regs[1..][i];
    }
  }

  /** Every activity of one of the donor's `registered` registrations is joined. */
  lemma {:induction false} JoinedComplete(userId: int, regs: seq<UserActivityRegistration>, acts: seq<Activity>,
                                          i: int, k: int)
    requires 0 <= i < |regs| && regs[i].userId == userId && regs[i].status == Registered
    requires 0 <= k < |acts| && acts[k].activityId == regs[i].activityId
    ensures acts[k] in Joined(userId, regs, acts)
  {
    var head := JoinedOne(userId, regs[0], acts);
    assert Joined(userId, regs, acts) == head + Joined(userId, regs[1..], acts);
    if i > 0 {
      assert regs[1..][i - 1] == regs[i];
      JoinedComplete(userId, regs[1..], acts, i - 1, k);
    }
  }

  /** `first_registration`: the donor has any registration, whatever its status. */
  predicate HasFirstRegistration(userId: int, db: Db) {
    exists i :: 0 <= i < |db.registrations| && db.registrations[i].userId == userId
  }

  /** The activity is over: marked completed and ended before `now`. */
  predicate Finished(a: Activity, now: Instant) {
    a.status == "completed" && a.endDate < now
  }

  /** `first_completion`: some joined activity is finished. */
  predicate HasFirstCompletion(userId: int, db: Db, now: Instant) {
    exists a :: a in Joined(userId, db.registrations, db.activities) && Finished(a, now)
  }

  /** The distinct categories of the joined activities; a missing category counts as one value. */
  function Categories(userId: int, db: Db): set<Option<string>> {
    set a | a in Joined(userId, db.registrations, db.activities) :: a.category
  }

  /** `multi_category`: at least three distinct categories. */
  predicate HasMultiCategory(userId: int, db: Db) {
    |Categories(userId, db)| >= 3
  }

  /** `regular_participant`: at least five finished joined activities. */
  predicate HasRegularParticipation(userId: int, db: Db, now: Instant) {
    Count(Joined(userId, db.registrations, db.activities), (a: Activity) => Finished(a, now)) >= 5
  }

  /** `case_helper`: some joined activity targets cases. */
  predicate HasCaseHelperActivity(userId: int, db: Db) {
    exists a :: a in Joined(userId, db.registrations, db.activities) && a.targetAudience == Some("case")
  }

  /** MeetsAchievementCondition: the rule of the code; an unknown code never holds. */
  function MeetsCondition(userId: int, code: string, db: Db, now: Instant): (r: bool)
    ensures r ==> IsDefinedCode(Definitions, code)
    ensures code == "first_registration" ==>
              (r <==> exists i :: 0 <= i < |db.registrations| && db.registrations[i].userId == userId)
  {
    assert Definitions[0].code == "first_registration" && Definitions[1].code == "first_completion";
    assert Definitions[2].code == "multi_category" && Definitions[3].code == "regular_participant";
    assert Definitions[4].code == "case_helper";
    if code == "first_registration" then HasFirstRegistration(userId, db)
    else if code == "first_completion" then HasFirstCompletion(userId, db, now)
    else if code == "multi_category" then HasMultiCategory(userId, db)
    else if code == "regular_participant" then HasRegularParticipation(userId, db, now)
    else if code == "case_helper" then HasCaseHelperActivity(userId, db)
    else false
  }

  lemma FinishedImpliesRegistered(userId: int, db: Db, now: Instant)
    requires HasFirstCompletion(userId, db, now)
    ensures HasFirstRegistration(userId, db)
  {
    var joined := Joined(userId, db.registrations, db.activities);
    var k :| 0 <= k < |joined| && Finished(joined[k], now);
    JoinedSound(userId, db.registrations, db.activities, joined[k]);
  }

  /** Five finished activities include a first one. */
  lemma RegularImpliesFirstCompletion(userId: int, db: Db, now: Instant)
    requires HasRegularParticipation(userId, db, now)
    ensures HasFirstCompletion(userId, db, now)
  {
    var joined := Joined(userId, db.registrations, db.activities);
    var finished := (a: Activity) => Finished(a, now);
    assert Count(joined, finished) > 0;
    var k :| 0 <= k < |joined| && finished(joined[k]);
  }

  lemma MultiCategoryImpliesRegistered(userId: int, db: Db)
    requires HasMultiCategory(userId, db)
    ensures HasFirstRegistration(userId, db)
  {
    var joined := Joined(userId, db.registrations, db.activities);
    JoinedSound(userId, db.registrations, db.activities, joined[0]);
  }

  lemma CaseHelperImpliesRegistered(userId: int, db: Db)
    requires HasCaseHelperActivity(userId, db)
    ensures HasFirstRegistration(userId, db)
  {
    var joined := Joined(userId, db.registrations, db.activities);
    var k :| 0 <= k < |joined| && joined[k].targetAudience == Some("case");
    JoinedSound(userId, db.registrations, db.activities, joined[k]);
  }

  /** Every achievement presupposes a registration. */
  lemma ConditionImpliesRegistered(userId: int, code: string, db: Db, now: Instant)
    requires MeetsCondition(userId, code, db, now)
    ensures HasFirstRegistration(userId, db)
  {
    if code == "first_completion" {
      FinishedImpliesRegistered(userId, db, now);
    } else if code == "multi_category" {
      MultiCategoryImpliesRegistered(userId, db);
    } else if code == "regular_participant" {
      RegularImpliesFirstCompletion(userId, db, now);
      FinishedImpliesRegistered(userId, db, now);
    } else if code == "case_helper" {
      CaseHelperImpliesRegistered(userId, db);
    }
  }

  /** Registration i is the donor's, `registered`, and activity k is its activity. */
  predicate JoinsTo(userId: int, db: Db, i: int, k: int) {
    && 0 <= i < |db.registrations| && 0 <= k < |db.activities|
    && db.registrations[i].userId == userId && db.registrations[i].status == Registered
    && db.activities[k].activityId == db.registrations[i].activityId
  }

  /** An activity is joined exactly when some registration of the donor joins to it. */
  lemma JoinedIff(userId: int, db: Db, a: Activity)
    ensures a in Joined(userId, db.registrations, db.activities) <==>
            exists i, k :: JoinsTo(userId, db, i, k) && db.activities[k] == a
  {
    var regs, acts := db.registrations, db.activities;
    if a in Joined(userId, regs, acts) {
      JoinedSound(userId, regs, acts, a);
      var i :| 0 <= i < |regs| && regs[i].userId == userId && regs[i].status == Registered &&
               regs[i].activityId == a.activityId;
      var k :| 0 <= k < |acts| && acts[k] == a;
      assert JoinsTo(userId, db, i, k);
    }
    if exists i, k :: JoinsTo(userId, db, i, k) && db.activities[k] == a {
      var i, k :| JoinsTo(userId, db, i, k) && db.activities[k] == a;
      JoinedComplete(userId, regs, acts, i, k);
    }
  }

  /** `first_completion` read off the tables: an activity of one of the donor's `registered`
      registrations is completed and has ended. */
  lemma FirstCompletionIff(userId: int, db: Db, now: Instant)
    ensures HasFirstCompletion(userId, db, now) <==>
            exists i, k :: JoinsTo(userId, db, i, k) && Finished(db.activities[k], now)
  {
    if HasFirstCompletion(userId, db, now) {
      var a :| a in Joined(userId, db.registrations, db.activities) && Finished(a, now);
      JoinedIff(userId, db, a);
    }
    if exists i, k :: JoinsTo(userId, db, i, k) && Finished(db.activities[k], now) {
      var i, k :| JoinsTo(userId, db, i, k) && Finished(db.activities[k], now);
      JoinedIff(userId, db, db.activities[k]);
    }
  }

  /** `case_helper` read off the tables: an activity of one of the donor's `registered`
      registrations targets cases. */
  lemma CaseHelperIff(userId: int, db: Db)
    ensures HasCaseHelperActivity(userId, db) <==>
            exists i, k :: JoinsTo(userId, db, i, k) && db.activities[k].targetAudience == Some("case")
  {
    if HasCaseHelperActivity(userId, db) {
      var a :| a in Joined(userId, db.registrations, db.activities) && a.targetAudience == Some("case");
      JoinedIff(userId, db, a);
    }
    if exists i, k :: JoinsTo(userId, db, i, k) && db.activities[k].targetAudience == Some("case") {
      var i, k :| JoinsTo(userId, db, i, k) && db.activities[k].targetAudience == Some("case");
      JoinedIff(userId, db, db.activities[k]);
    }
  }

  /** The categories `multi_category` counts are exactly those of the activities of the donor's
      `registered` registrations. */
  lemma CategoriesIff(userId: int, db: Db, c: Option<string>)
    ensures c in Categories(userId, db) <==>
            exists i, k :: JoinsTo(userId, db, i, k) && db.activities[k].category == c
  {
    if c in Categories(userId, db) {
      var a :| a in Joined(userId, db.registrations, db.activities) && a.category == c;
      JoinedIff(userId, db, a);
    }
    if exists i, k :: JoinsTo(userId, db, i, k) && db.activities[k].category == c {
      var i, k :| JoinsTo(userId, db, i, k) && db.activities[k].category == c;
      JoinedIff(userId, db, db.activities[k]);
    }
  }

  // ---------------------------------------------------------------------------------------------
  // Award pass

  /** The donor has a row with this code. */
  predicate Holds(records: seq<UserAchievement>, userId: int, c: string) {
    exists i :: 0 <= i < |records| && records[i].userId == userId && records[i].achievementCode == c
  }

  /** The codes the donor holds: `UserAchievements.Where(UserId).Select(AchievementCode)`. */
  function HeldCodes(records: seq<UserAchievement>, userId: int): (r: seq<string>)
    ensures forall c :: c in r <==> Holds(records, userId, c)
  {
    if records == [] then []
    else
      var rest := HeldCodes(records[1..], userId);
      assert forall c :: Holds(records, userId, c) <==>
        (records[0].userId == userId && records[0].achievementCode == c) || Holds(records[1..], userId, c) by {
        forall c ensures Holds(records, userId, c) ==>
          (records[0].userId == userId && records[0].achievementCode == c) || Holds(records[1..], userId, c) {
          if Holds(records, userId, c) {
            var i :| 0 <= i < |records| && records[i].userId == userId && records[i].achievementCode == c;
            if i > 0 { assert records[1..][i - 1] == records[i]; }
          }
        }
        forall c | Holds(records[1..], userId, c) ensures Holds(records, userId, c) {
          var i :| 0 <= i < |records[1..]| && records[1..][i].userId == userId && records[1..][i].achievementCode == c;
          assert records[i + 1] == records[1..][i];
        }
      }
      if records[0].userId == userId then [records[0].achievementCode] + rest else rest
  }

  /** The one test the pass applies to a code. */
  predicate Eligible(userId: int, held: seq<string>, c: string, db: Db, now: Instant) {
    c !in held && MeetsCondition(userId, c, db, now)
  }

  /** The codes a pass over `defs` awards: those not held whose condition holds, in table order. */
  function Awarded(defs: seq<Definition>, held: seq<string>, userId: int, db: Db, now: Instant): seq<string> {
    if defs == [] then []
    else
      Awarded(defs[..|defs| - 1], held, userId, db, now) +
      (if Eligible(userId, held, defs[|defs| - 1].code, db, now) then [defs[|defs| - 1].code] else [])
  }

  /** A code is awarded iff it is in the table, not held, and its condition holds. */
  lemma {:induction false} AwardedIff(defs: seq<Definition>, held: seq<string>, userId: int, db: Db,
                                      now: Instant, c: string)
    ensures c in Awarded(defs, held, userId, db, now) <==> IsDefinedCode(defs, c) && Eligible(userId, held, c, db, now)
  {
    if defs != [] {
      var n := |defs| - 1;
      AwardedIff(defs[..n], held, userId, db, now, c);
      if IsDefinedCode(defs, c) && c != defs[n].code {
        var i :| 0 <= i < |defs| && defs[i].code == c;
        assert defs[..n][i] == defs[i];
      }
      if IsDefinedCode(defs[..n], c) {
        var i :| 0 <= i < n && defs[..n][i].code == c;
        assert defs[i] == defs[..n][i];
      }
    }
  }

  /** Each pair of codes of `r` appears in that order among the codes of `defs`. */
  predicate InTableOrder(r: seq<string>, defs: seq<Definition>) {
    forall k, l :: 0 <= k < l < |r| ==> Precedes(defs, r[k], r[l])
  }

  /** Code `a` is defined before code `b`. */
  predicate Precedes(defs: seq<Definition>, a: string, b: string) {
    exists p, q :: 0 <= p < q < |defs| && defs[p].code == a && defs[q].code == b
  }

  predicate NoDuplicates(r: seq<string>) {
    forall k, l :: 0 <= k < l < |r| ==> r[k] != r[l]
  }

  /** Awarded codes appear in the order of the table. */
  lemma {:induction false} AwardedInTableOrder(defs: seq<Definition>, held: seq<string>, userId: int, db: Db,
                                               now: Instant)
    ensures InTableOrder(Awarded(defs, held, userId, db, now), defs)
  {
    if defs != [] {
      var n := |defs| - 1;
      var prefix := defs[..n];
      var r0 := Awarded(prefix, held, userId, db, now);
      var r := Awarded(defs, held, userId, db, now);
      AwardedInTableOrder(prefix, held, userId, db, now);
      assert InTableOrder(r0, prefix);
      forall k, l | 0 <= k < l < |r| ensures Precedes(defs, r[k], r[l]) {
        assert r[k] == r0[k];
        if l < |r0| {
          assert r[l] == r0[l];
          assert Precedes(prefix, r0[k], r0[l]);
          var p, q :| 0 <= p < q < |prefix| && prefix[p].code == r0[k] && prefix[q].code == r0[l];
          assert defs[p] == prefix[p] && defs[q] == prefix[q];
        } else {
          assert r[l] == defs[n].code;
          AwardedIff(prefix, held, userId, db, now, r0[k]);
          var p :| 0 <= p < |prefix| && prefix[p].code == r0[k];
          assert defs[p] == prefix[p];
        }
      }
    }
  }

  /** With distinct codes in the table, no code is awarded twice in one pass. */
  lemma {:induction false} AwardedDistinct(defs: seq<Definition>, held: seq<string>, userId: int, db: Db,
                                           now: Instant)
    requires DistinctCodes(defs)
    ensures NoDuplicates(Awarded(defs, held, userId, db, now))
  {
    if defs != [] {
      var n := |defs| - 1;
      var prefix := defs[..n];
      var r0 := Awarded(prefix, held, userId, db, now);
      var r := Awarded(defs, held, userId, db, now);
      assert DistinctCodes(prefix);
      AwardedDistinct(prefix, held, userId, db, now);
      if Eligible(userId, held, defs[n].code, db, now) {
        assert r == r0 + [defs[n].code];
        AwardedIff(prefix, held, userId, db, now, defs[n].code);
        assert defs[n].code !in r0;
        forall k, l | 0 <= k < l < |r| ensures r[k] != r[l] {
          assert r[k] == r0[k];
          if l < |r0| {
            assert r[l] == r0[l];
          }
        }
      } else {
        assert r == r0;
      }
    }
  }

  /** CheckAndAwardAchievements' result for a donor. */
  function NewAwards(userId: int, records: seq<UserAchievement>, db: Db, now: Instant): seq<string> {
    Awarded(Definitions, HeldCodes(records, userId), userId, db, now)
  }

  /** The rows one pass inserts, all stamped with the same clock value. */
  function AwardRecords(userId: int, codes: seq<string>, now: Instant): (r: seq<UserAchievement>)
    ensures |r| == |codes|
    ensures forall i :: 0 <= i < |r| ==> r[i] == UserAchievement(userId, codes[i], now)
  {
    seq(|codes|, i requires 0 <= i < |codes| => UserAchievement(userId, codes[i], now))
  }

  lemma AwardRecordsSnoc(userId: int, codes: seq<string>, c: string, now: Instant)
    ensures AwardRecords(userId, codes + [c], now) == AwardRecords(userId, codes, now) + [UserAchievement(userId, c, now)]
  {
  }

  /** A code is newly awarded iff it is in the table, the donor lacks it, and its rule holds. */
  lemma NewAwardsIff(userId: int, records: seq<UserAchievement>, db: Db, now: Instant, c: string)
    ensures c in NewAwards(userId, records, db, now) <==>
            IsDefinedCode(Definitions, c) && !Holds(records, userId, c) && MeetsCondition(userId, c, db, now)
  {
    AwardedIff(Definitions, HeldCodes(records, userId), userId, db, now, c);
  }

  /** One pass awards each code at most once, in table order. */
  lemma NewAwardsOrdered(userId: int, records: seq<UserAchievement>, db: Db, now: Instant)
    ensures NoDuplicates(NewAwards(userId, records, db, now))
    ensures InTableOrder(NewAwards(userId, records, db, now), Definitions)
  {
    TableWellFormed();
    AwardedDistinct(Definitions, HeldCodes(records, userId), userId, db, now);
    AwardedInTableOrder(Definitions, HeldCodes(records, userId), userId, db, now);
  }

  /** After the rows are inserted, the donor holds every code held before and every code returned. */
  lemma AwardRecordsHeld(userId: int, records: seq<UserAchievement>, codes: seq<string>, now: Instant, c: string)
    requires c in codes || Holds(records, userId, c)
    ensures Holds(records + AwardRecords(userId, codes, now), userId, c)
  {
    var after := records + AwardRecords(userId, codes, now);
    if c in codes {
      var k :| 0 <= k < |codes| && codes[k] == c;
      assert after[|records| + k] == UserAchievement(userId, c, now);
    } else {
      var i :| 0 <= i < |records| && records[i].userId == userId && records[i].achievementCode == c;
      assert after[i] == records[i];
    }
  }

  /** A second pass over unchanged data awards nothing. */
  lemma SecondPassAwardsNothing(userId: int, records: seq<UserAchievement>, db: Db, now: Instant)
    ensures NewAwards(userId, records + AwardRecords(userId, NewAwards(userId, records, db, now), now), db, now) == []
  {
    var first := NewAwards(userId, records, db, now);
    var after := records + AwardRecords(userId, first, now);
    var second := NewAwards(userId, after, db, now);
    if second != [] {
      var c := second[0];
      NewAwardsIff(userId, after, db, now, c);
      NewAwardsIff(userId, records, db, now, c);
      AwardRecordsHeld(userId, records, first, now, c);
    }
  }

  /** A donor with no registration earns nothing. */
  lemma UnregisteredEarnsNothing(userId: int, records: seq<UserAchievement>, db: Db, now: Instant)
    requires !HasFirstRegistration(userId, db)
    ensures NewAwards(userId, records, db, now) == []
  {
    var r := NewAwards(userId, records, db, now);
    if r != [] {
      NewAwardsIff(userId, records, db, now, r[0]);
      ConditionImpliesRegistered(userId, r[0], db, now);
    }
  }

  // ---------------------------------------------------------------------------------------------
  // Status list

  datatype Entry = Entry(
    code: string,
    name: string,
    description: string,
    icon: string,
    isEarned: bool,
    earnedAt: Option<Instant>,
    isNew: bool)

  /** The status of one definition given the donor's records: the first record with its code decides. */
  function EntryFor(d: Definition, records: seq<UserAchievement>, now: Instant): (e: Entry)
    ensures e.code == d.code && e.name == d.name && e.description == d.description && e.icon == d.icon
    ensures e.isEarned <==> exists i :: 0 <= i < |records| && records[i].achievementCode == d.code
    ensures e.earnedAt.Some? <==> e.isEarned
    ensures e.isEarned ==> exists i :: 0 <= i < |records| && records[i].achievementCode == d.code &&
                                       e.earnedAt == Some(records[i].earnedAt) &&
                                       forall j :: 0 <= j < i ==> records[j].achievementCode != d.code
    ensures e.isNew <==> e.isEarned && e.earnedAt.value > now - 24 * TicksPerHour
  {
    match FirstIndex(records, (ua: UserAchievement) => ua.achievementCode == d.code)
    case None => Entry(d.code, d.name, d.description, d.icon, false, None, false)
    case Some(i) =>
      var earned := records[i];
      Entry(d.code, d.name, d.description, d.icon, true, Some(earned.earnedAt),
            earned.earnedAt > now - 24 * TicksPerHour)
  }

  /** `OrderByDescending(IsEarned).ThenBy(Name)` as one comparer. */
  function EntryOrder(nameLeq: (string, string) -> bool): (Entry, Entry) -> bool {
    (x: Entry, y: Entry) => (x.isEarned && !y.isEarned) || (x.isEarned == y.isEarned && nameLeq(x.name, y.name))
  }

  lemma EntryOrderIsTotalPreorder(nameLeq: (string, string) -> bool)
    requires TotalPreorder(nameLeq)
    ensures TotalPreorder(EntryOrder(nameLeq))
  {
    var leq := EntryOrder(nameLeq);
    assert forall x: Entry, y: Entry ::
      leq(x, y) == ((x.isEarned && !y.isEarned) || (x.isEarned == y.isEarned && nameLeq(x.name, y.name)));
  }

  /** The entries in table order, before sorting. */
  function TableEntries(records: seq<UserAchievement>, now: Instant): seq<Entry> {
    seq(|Definitions|, i requires 0 <= i < |Definitions| => EntryFor(Definitions[i], records, now))
  }

  /** GetUserAchievements' result for the donor's records. */
  function AchievementList(records: seq<UserAchievement>, now: Instant, nameLeq: (string, string) -> bool): seq<Entry> {
    SortBy(TableEntries(records, now), EntryOrder(nameLeq))
  }

  /** The list has one entry per definition. */
  lemma AchievementListCoversTable(records: seq<UserAchievement>, now: Instant, nameLeq: (string, string) -> bool)
    ensures var r := AchievementList(records, now, nameLeq);
            && |r| == |Definitions|
            && multiset(r) == multiset(TableEntries(records, now))
            && forall i :: 0 <= i < |Definitions| ==> exists j :: 0 <= j < |r| && r[j].code == Definitions[i].code
  {
    var entries := TableEntries(records, now);
    var r := AchievementList(records, now, nameLeq);
    forall i | 0 <= i < |Definitions| ensures exists j :: 0 <= j < |r| && r[j].code == Definitions[i].code {
      assert entries[i] in multiset(r);
      var j :| 0 <= j < |r| && r[j] == entries[i];
    }
  }

  /** Each entry is earned iff the donor has a record with its code, and is new iff that record is
      less than a day old. */
  lemma AchievementListEarned(records: seq<UserAchievement>, now: Instant, nameLeq: (string, string) -> bool)
    ensures var r := AchievementList(records, now, nameLeq);
            forall j :: 0 <= j < |r| ==>
              && (r[j].isEarned <==> exists i :: 0 <= i < |records| && records[i].achievementCode == r[j].code)
              && (r[j].isNew <==> r[j].isEarned && r[j].earnedAt.Some? && r[j].earnedAt.value > now - 24 * TicksPerHour)
  {
    var entries := TableEntries(records, now);
    var r := AchievementList(records, now, nameLeq);
    forall j | 0 <= j < |r|
      ensures r[j].isEarned <==> exists i :: 0 <= i < |records| && records[i].achievementCode == r[j].code
      ensures r[j].isNew <==> r[j].isEarned && r[j].earnedAt.Some? && r[j].earnedAt.value > now - 24 * TicksPerHour
    {
      assert r[j] in multiset(entries);
      var i :| 0 <= i < |entries| && entries[i] == r[j];
      assert r[j] == EntryFor(Definitions[i], records, now);
    }
  }

  /** Earned entries come first, and entries with the same status are in name order. */
  lemma AchievementListOrder(records: seq<UserAchievement>, now: Instant, nameLeq: (string, string) -> bool)
    requires TotalPreorder(nameLeq)
    ensures var r := AchievementList(records, now, nameLeq);
            && (forall i, j :: 0 <= i < j < |r| && r[j].isEarned ==> r[i].isEarned)
            && (forall i, j :: 0 <= i < j < |r| && r[i].isEarned == r[j].isEarned ==> nameLeq(r[i].name, r[j].name))
  {
    var leq := EntryOrder(nameLeq);
    EntryOrderIsTotalPreorder(nameLeq);
    SortBySorted(TableEntries(records, now), leq);
  }

  // ---------------------------------------------------------------------------------------------
  // Service

  /** One more step of the award pass over the table. */
  lemma AwardedStep(k: nat, held: seq<string>, userId: int, db: Db, now: Instant)
    requires k < |Definitions|
    ensures Awarded(Definitions[..k + 1], held, userId, db, now) ==
            Awarded(Definitions[..k], held, userId, db, now) +
            (if Eligible(userId, held, Definitions[k].code, db, now) then [Definitions[k].code] else [])
  {
    assert Definitions[..k + 1][..k] == Definitions[..k];
  }

  /** AchievementService over the three tables it reads; only UserAchievements is written. */
  class AchievementService {
    var achievements: seq<UserAchievement>
    var registrations: seq<UserActivityRegistration>
    var activities: seq<Activity>
    /** The string comparer `ThenBy(a => a.Name)` uses. */
    const nameLeq: (string, string) -> bool

    constructor (achievements: seq<UserAchievement>, registrations: seq<UserActivityRegistration>,
                 activities: seq<Activity>, nameLeq: (string, string) -> bool)
      ensures this.achievements == achievements && this.registrations == registrations
      ensures this.activities == activities && this.nameLeq == nameLeq
    {
      this.achievements := achievements;
      this.registrations := registrations;
      this.activities := activities;
      this.nameLeq := nameLeq;
    }

    /** AwardAchievement: inserts one row stamped `now`. */
    method AwardAchievement(userId: int, code: string, now: Instant)
      modifies this
      ensures achievements == old(achievements) + [UserAchievement(userId, code, now)]
      ensures registrations == old(registrations) && activities == old(activities)
    {
      achievements := achievements + [UserAchievement(userId, code, now)];
    }

    /** CheckAndAwardAchievements: walks the table once, awarding each code the donor did not hold
        when the call began and whose rule holds; returns the awarded codes. */
    method CheckAndAwardAchievements(userId: int, now: Instant) returns (newCodes: seq<string>)
      modifies this
      ensures newCodes == NewAwards(userId, old(achievements), Db(registrations, activities), now)
      ensures achievements == old(achievements) + AwardRecords(userId, newCodes, now)
      ensures registrations == old(registrations) && activities == old(activities)
    {
      newCodes := [];
      var existing := HeldCodes(achievements, userId);
      var db := Db(registrations, activities);
      ghost var before := achievements;
      for k := 0 to |Definitions|
        invariant newCodes == Awarded(Definitions[..k], existing, userId, db, now)
        invariant achievements == before + AwardRecords(userId, newCodes, now)
        invariant registrations == old(registrations) && activities == old(activities)
      {
        var code := Definitions[k].code;
        AwardedStep(k, existing, userId, db, now);
        ghost var prev := newCodes;
        if code !in existing && MeetsCondition(userId, code, db, now) {
          AwardAchievement(userId, code, now);
          newCodes := newCodes + [code];
          AwardRecordsSnoc(userId, prev, code, now);
        }
      }
      assert Definitions[..|Definitions|] == Definitions;
    }

    /** GetUserAchievements: one entry per definition from the donor's records, sorted earned-first
        and then by name. */
    method GetUserAchievements(userId: int, now: Instant) returns (entries: seq<Entry>)
      ensures entries == AchievementList(Filter(achievements, (ua: UserAchievement) => ua.userId == userId),
                                         now, nameLeq)
    {
      var earned := Filter(achievements, (ua: UserAchievement) => ua.userId == userId);
      var result: seq<Entry> := [];
      for k := 0 to |Definitions|
        invariant |result| == k
        invariant forall i :: 0 <= i < k ==> result[i] == EntryFor(Definitions[i], earned, now)
      {
        result := result + [EntryFor(Definitions[k], earned, now)];
      }
      assert result == TableEntries(earned, now);
      entries := SortBy(result, EntryOrder(nameLeq));
    }
  }
}
