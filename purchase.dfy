/** The donation page: a few case-specific emergency needs, each with a picture, and the regular
    supplies a donor can buy one by one. */
module Purchase {
  import opened Wrappers
  import opened Text
  import opened Seqs
  import opened Keywords
  import opened Entities

  // ---------------------------------------------------------------------------------------------
  // Default picture by supply name

  const DiaperImage := "https://images.unsplash.com/photo-1584462256711-aa4c7c8e1949?w=400&h=250&fit=crop"
  const MaskImage := "https://images.unsplash.com/photo-1584931423298-c576fda54bd2?w=400&h=250&fit=crop"
  const FoodImage := "https://images.unsplash.com/photo-1586201375761-83865001e31c?w=400&h=250&fit=crop"
  const MedicineImage := "https://images.unsplash.com/photo-1559757148-5c350d0d3c56?w=400&h=250&fit=crop"
  const ClothingImage := "https://images.unsplash.com/photo-1489987707025-afc232f7ea0f?w=400&h=250&fit=crop"
  const MilkImage := "https://images.unsplash.com/photo-1563636619-e9143da7973b?w=400&h=250&fit=crop"
  const FallbackImage := "https://images.unsplash.com/photo-1559757175-0eb30cd8c063?w=400&h=250&fit=crop"

  /** GetDefaultEmergencyImage: the keyword groups are tried on the lower-cased name in the order
      written. */
  function GetDefaultEmergencyImage(supplyName: string): string {
    var name := ToLower(supplyName);
    if Contains(name, "尿布") || Contains(name, "紙尿褲") then DiaperImage
    else if Contains(name, "口罩") || Contains(name, "醫療") then MaskImage
    else if Contains(name, "食物") || Contains(name, "米") || Contains(name, "麵") then FoodImage
    else if Contains(name, "藥") || Contains(name, "醫") then MedicineImage
    else if Contains(name, "衣") || Contains(name, "毛巾") then ClothingImage
    else if Contains(name, "牛奶") || Contains(name, "奶粉") then MilkImage
    else FallbackImage
  }

  /** The same classifier as data, in priority order. */
  const DefaultImageRules: seq<Rule> := [
    Rule(["尿布", "紙尿褲"], DiaperImage),
    Rule(["口罩", "醫療"], MaskImage),
    Rule(["食物", "米", "麵"], FoodImage),
    Rule(["藥", "醫"], MedicineImage),
    Rule(["衣", "毛巾"], ClothingImage),
    Rule(["牛奶", "奶粉"], MilkImage)]

  /** The picture is the one of the first keyword group found in the lower-cased name, and the
      fallback when there is none. */
  lemma DefaultImageIsFirstMatch(supplyName: string)
    ensures GetDefaultEmergencyImage(supplyName) == FirstMatch(DefaultImageRules, ToLower(supplyName), FallbackImage)
  {
    var name := ToLower(supplyName);
    var rules := DefaultImageRules;
    MatchesTwo(name, "尿布", "紙尿褲", DiaperImage);
    MatchesTwo(name, "口罩", "醫療", MaskImage);
    MatchesThree(name, "食物", "米", "麵", FoodImage);
    MatchesTwo(name, "藥", "醫", MedicineImage);
    MatchesTwo(name, "衣", "毛巾", ClothingImage);
    MatchesTwo(name, "牛奶", "奶粉", MilkImage);
    var m := [Matches(name, rules[0]), Matches(name, rules[1]), Matches(name, rules[2]),
              Matches(name, rules[3]), Matches(name, rules[4]), Matches(name, rules[5])];
    if !m[0] && !m[1] && !m[2] && !m[3] && !m[4] && !m[5] {
      assert forall i :: 0 <= i < |rules| ==> !Matches(name, rules[i]);
    } else {
      var i := if m[0] then 0 else if m[1] then 1 else if m[2] then 2 else if m[3] then 3 else if m[4] then 4 else 5;
      assert Matches(name, rules[i]) && FirstMatching(rules, name, i);
    }
  }

  /** A name with 醫療 never gets the medicine picture: the mask group, tested earlier, takes it,
      unless a diaper keyword comes first. */
  lemma MedicalNamesGetMaskImage(supplyName: string)
    requires Contains(supplyName, "醫療")
    ensures GetDefaultEmergencyImage(supplyName) != MedicineImage
    ensures !Contains(ToLower(supplyName), "尿布") && !Contains(ToLower(supplyName), "紙尿褲") ==>
              GetDefaultEmergencyImage(supplyName) == MaskImage
  {
    ContainsLower(supplyName, "醫療");
  }

  // ---------------------------------------------------------------------------------------------
  // Index

  const EmergencyLimit := 6
  const RegularLimit := 30
  const RegularType := "regular"
  const UnknownSupply := "未知物資"

  /** The anonymous object Index builds for each emergency need. */
  datatype NeedCard = NeedCard(
    id: int,
    caseId: int,
    supplyName: string,
    neededQuantity: int,
    remainingQuantity: int,
    imageUrl: string,
    status: string)

  /** One need as the page shows it: nothing is counted against it yet, so all of it remains; the
      picture is the supply's own, or else the one its name selects. */
  function NeedCardOf(e: EmergencySupplyNeed, supplies: seq<Supply>): (c: NeedCard)
    ensures c.id == e.emergencyNeedId && c.caseId == e.caseId && c.status == e.status
    ensures c.neededQuantity == e.quantity && c.remainingQuantity == c.neededQuantity
    ensures var s := FindSupply(supplies, e.supplyId);
            && (s.Some? && s.value.imageUrl.Some? ==> c.imageUrl == s.value.imageUrl.value)
            && (s.None? ==> c.imageUrl == GetDefaultEmergencyImage("") && c.supplyName == UnknownSupply)
            && (s.Some? ==> c.supplyName == s.value.supplyName.GetOr(UnknownSupply))
            && (s.Some? && s.value.imageUrl.None? ==>
                  c.imageUrl == GetDefaultEmergencyImage(s.value.supplyName.GetOr("")))
  {
    var s := FindSupply(supplies, e.supplyId);
    var name := if s.Some? then s.value.supplyName else None;
    var image := if s.Some? && s.value.imageUrl.Some? then s.value.imageUrl.value
                 else GetDefaultEmergencyImage(name.GetOr(""));
    NeedCard(e.emergencyNeedId, e.caseId, name.GetOr(UnknownSupply), e.quantity, e.quantity, image, e.status)
  }

  /** What the page receives; an error flag is set when its list could not be loaded. */
  datatype IndexPage = IndexPage(
    emergencyNeeds: seq<NeedCard>,
    regularSupplies: seq<Supply>,
    emergencyError: bool,
    regularError: bool)

  predicate IsRegular(s: Supply) {
    s.supplyType == Some(RegularType)
  }

  /** Index: the first six emergency needs and the first thirty regular supplies. `needsLoad` and
      `suppliesLoad` say whether each query succeeds; a list whose query fails stays empty and only
      its own error is set. */
  function Index(needs: seq<EmergencySupplyNeed>, supplies: seq<Supply>, needsLoad: bool, suppliesLoad: bool)
    : (p: IndexPage)
    ensures |p.emergencyNeeds| <= EmergencyLimit && |p.regularSupplies| <= RegularLimit
    ensures p.emergencyError <==> !needsLoad
    ensures p.regularError <==> !suppliesLoad
    ensures !needsLoad ==> p.emergencyNeeds == []
    ensures !suppliesLoad ==> p.regularSupplies == []
    ensures needsLoad ==>
              && |p.emergencyNeeds| == (if |needs| < EmergencyLimit then |needs| else EmergencyLimit)
              && forall i :: 0 <= i < |p.emergencyNeeds| ==> p.emergencyNeeds[i] == NeedCardOf(needs[i], supplies)
    ensures forall i :: 0 <= i < |p.regularSupplies| ==> p.regularSupplies[i] in supplies && IsRegular(p.regularSupplies[i])
    ensures suppliesLoad ==>
              && |p.regularSupplies| == (if Count(supplies, IsRegular) < RegularLimit then Count(supplies, IsRegular)
                                         else RegularLimit)
              && p.regularSupplies == Filter(supplies, IsRegular)[..|p.regularSupplies|]
  {
    var cards := if needsLoad then Map(Take(needs, EmergencyLimit), (e: EmergencySupplyNeed) => NeedCardOf(e, supplies))
                 else [];
    var regular := if suppliesLoad then Take(Filter(supplies, IsRegular), RegularLimit) else [];
    IndexPage(cards, regular, !needsLoad, !suppliesLoad)
  }

  /** A failure loading one list does not change the other. */
  lemma IndexListsIndependent(needs: seq<EmergencySupplyNeed>, supplies: seq<Supply>, needsLoad: bool,
                              suppliesLoad: bool, needsLoad': bool, suppliesLoad': bool)
    ensures Index(needs, supplies, needsLoad, suppliesLoad).emergencyNeeds ==
            Index(needs, supplies, needsLoad, suppliesLoad').emergencyNeeds
    ensures Index(needs, supplies, needsLoad, suppliesLoad).regularSupplies ==
            Index(needs, supplies, needsLoad', suppliesLoad).regularSupplies
  {
  }
}
