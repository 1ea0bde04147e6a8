/**
 How the search controller turns the user's request into the inputs of
 query generation: the categories implied by the beneficiaries, recipient
 types and funding mechanisms asked for, and the geographic scope read off
 free-form place names.
 */
module SearchMapping {
  import opened Wrappers
  import opened Text
  import opened Categories

  datatype BeneficiaryPopulation =
    | EARLY_CHILDHOOD_0_5 | CHILDREN_AGES_4_12 | ADOLESCENTS_AGES_13_18 | FIRST_GENERATION_STUDENTS
    | EDUCATORS_TEACHERS | ADULTS_LIFELONG_LEARNING | AT_RISK_YOUTH | PEOPLE_WITH_DISABILITIES
    | RURAL_COMMUNITIES | LOW_INCOME_FAMILIES | ETHNIC_MINORITIES | REFUGEES_IMMIGRANTS | GIRLS_WOMEN
    | LGBTQ_PLUS | LANGUAGE_MINORITIES | VETERANS | ELDERLY | GENERAL_POPULATION

  datatype RecipientOrganizationType =
    | K12_PUBLIC_SCHOOL | K12_PRIVATE_SCHOOL | UNIVERSITY_PUBLIC | RESEARCH_INSTITUTE
    | PRIVATE_LANGUAGE_SCHOOL | PRESCHOOL_EARLY_CHILDHOOD | NGO_EDUCATION_FOCUSED | NGO_SOCIAL_SERVICES
    | LIBRARY_OR_CULTURAL_CENTER | INDIVIDUAL_EDUCATOR | INDIVIDUAL_STUDENT | FOR_PROFIT_EDUCATION
    | EXAMINATION_CENTER | MUNICIPALITY

  datatype FundingMechanism =
    | GRANT | MATCHING_GRANT | SCHOLARSHIP | FELLOWSHIP | LOAN | PRIZE_AWARD | SUBSIDY | IN_KIND_DONATION

  datatype GeographicScope =
    | BULGARIA | ROMANIA | GREECE | SERBIA | NORTH_MACEDONIA
    | EASTERN_EUROPE | BALKANS | SOUTHEASTERN_EUROPE | CENTRAL_EUROPE
    | EU_MEMBER_STATES | EU_CANDIDATE_COUNTRIES | EU_ENLARGEMENT_REGION
    | EUROPE | GLOBAL | INTERNATIONAL

  /* The three sets of the search request that the categories are inferred from. */
  datatype SearchRequest = SearchRequest(
    beneficiaryPopulations: set<BeneficiaryPopulation>,
    recipientOrganizationTypes: set<RecipientOrganizationType>,
    fundingMechanisms: set<FundingMechanism>)

  // ---------------------------------------------------------------------------
  // Funding categories
  // ---------------------------------------------------------------------------

  function BeneficiaryCategories(b: BeneficiaryPopulation): (r: set<FundingSearchCategory>)
    ensures r != {}
  {
    match b
    case EARLY_CHILDHOOD_0_5 => {EARLY_CHILDHOOD_EDUCATION}
    case CHILDREN_AGES_4_12 | ADOLESCENTS_AGES_13_18 => {PROGRAM_GRANTS, AFTER_SCHOOL_PROGRAMS}
    case FIRST_GENERATION_STUDENTS => {INDIVIDUAL_SCHOLARSHIPS, STUDENT_FINANCIAL_AID, ACADEMIC_FELLOWSHIPS}
    case EDUCATORS_TEACHERS => {TEACHER_SCHOLARSHIPS, TEACHER_DEVELOPMENT, PROFESSIONAL_TRAINING}
    case ADULTS_LIFELONG_LEARNING => {ADULT_EDUCATION, VOCATIONAL_TRAINING}
    case AT_RISK_YOUTH => {AFTER_SCHOOL_PROGRAMS, SUMMER_PROGRAMS, COMMUNITY_PARTNERSHIPS}
    case PEOPLE_WITH_DISABILITIES => {SPECIAL_NEEDS_EDUCATION}
    case RURAL_COMMUNITIES | LOW_INCOME_FAMILIES => {PROGRAM_GRANTS, COMMUNITY_PARTNERSHIPS}
    case ETHNIC_MINORITIES | REFUGEES_IMMIGRANTS | GIRLS_WOMEN | LGBTQ_PLUS | LANGUAGE_MINORITIES =>
      {INDIVIDUAL_SCHOLARSHIPS, PROGRAM_GRANTS}
    case VETERANS | ELDERLY | GENERAL_POPULATION => {ADULT_EDUCATION, PROGRAM_GRANTS}
  }

  function RecipientCategories(r: RecipientOrganizationType): (cs: set<FundingSearchCategory>)
    ensures cs != {}
  {
    match r
    case K12_PUBLIC_SCHOOL | K12_PRIVATE_SCHOOL => {PROGRAM_GRANTS, INFRASTRUCTURE_FUNDING, TECHNOLOGY_EQUIPMENT}
    case UNIVERSITY_PUBLIC | RESEARCH_INSTITUTE => {EDUCATION_RESEARCH, ACADEMIC_FELLOWSHIPS, INNOVATION_GRANTS}
    case PRIVATE_LANGUAGE_SCHOOL => {LANGUAGE_PROGRAMS, ADULT_EDUCATION}
    case PRESCHOOL_EARLY_CHILDHOOD => {EARLY_CHILDHOOD_EDUCATION}
    case NGO_EDUCATION_FOCUSED | NGO_SOCIAL_SERVICES => {NGO_EDUCATION_PROJECTS, COMMUNITY_PARTNERSHIPS}
    case LIBRARY_OR_CULTURAL_CENTER => {LIBRARY_RESOURCES, ARTS_CULTURE}
    case INDIVIDUAL_EDUCATOR | INDIVIDUAL_STUDENT => {INDIVIDUAL_SCHOLARSHIPS, ACADEMIC_FELLOWSHIPS}
    case FOR_PROFIT_EDUCATION | EXAMINATION_CENTER | MUNICIPALITY => {PROGRAM_GRANTS, INNOVATION_GRANTS}
  }

  function MechanismCategories(m: FundingMechanism): (r: set<FundingSearchCategory>)
    ensures r != {}
  {
    match m
    case GRANT | MATCHING_GRANT => {PROGRAM_GRANTS, INNOVATION_GRANTS}
    case SCHOLARSHIP | FELLOWSHIP => {INDIVIDUAL_SCHOLARSHIPS, ACADEMIC_FELLOWSHIPS}
    case LOAN => {STUDENT_FINANCIAL_AID}
    case PRIZE_AWARD => {INNOVATION_GRANTS}
    case SUBSIDY | IN_KIND_DONATION => {PROGRAM_GRANTS}
  }

  /* The broad categories searched when the request implies none. */
  const FallbackCategories: set<FundingSearchCategory> := {PROGRAM_GRANTS, INNOVATION_GRANTS}

  /* Every category the request's three sets imply, before the fallback. */
  function Implied(req: SearchRequest): set<FundingSearchCategory> {
    (set b, c | b in req.beneficiaryPopulations && c in BeneficiaryCategories(b) :: c)
      + (set t, c | t in req.recipientOrganizationTypes && c in RecipientCategories(t) :: c)
      + (set m, c | m in req.fundingMechanisms && c in MechanismCategories(m) :: c)
  }

  predicate NothingAsked(req: SearchRequest) {
    req.beneficiaryPopulations == {} && req.recipientOrganizationTypes == {} && req.fundingMechanisms == {}
  }

  /* The implied set is empty exactly when the request names nothing, since every value implies something. */
  lemma ImpliedEmptyIffNothingAsked(req: SearchRequest)
    ensures Implied(req) == {} <==> NothingAsked(req)
  {
    if !NothingAsked(req) {
      if b :| b in req.beneficiaryPopulations {
        var c :| c in BeneficiaryCategories(b);
        assert c in Implied(req);
      } else if t :| t in req.recipientOrganizationTypes {
        var c :| c in RecipientCategories(t);
        assert c in Implied(req);
      } else {
        var m :| m in req.fundingMechanisms;
        var c :| c in MechanismCategories(m);
        assert c in Implied(req);
      }
    }
  }

  /*
   mapToFundingCategories: the union of the categories of every requested
   beneficiary, recipient type and mechanism, or the two broad categories
   when the request names none of them. The result is never empty.
   */
  function MapToFundingCategories(req: SearchRequest): (r: set<FundingSearchCategory>)
    ensures r != {}
    ensures NothingAsked(req) ==> r == FallbackCategories
    ensures forall b :: b in req.beneficiaryPopulations ==> BeneficiaryCategories(b) <= r
    ensures forall t :: t in req.recipientOrganizationTypes ==> RecipientCategories(t) <= r
    ensures forall m :: m in req.fundingMechanisms ==> MechanismCategories(m) <= r
    ensures !NothingAsked(req) ==> forall c :: c in r ==>
      || (exists b :: b in req.beneficiaryPopulations && c in BeneficiaryCategories(b))
      || (exists t :: t in req.recipientOrganizationTypes && c in RecipientCategories(t))
      || (exists m :: m in req.fundingMechanisms && c in MechanismCategories(m))
  {
    var implied := Implied(req);
    ImpliedEmptyIffNothingAsked(req);
    if implied == {} then FallbackCategories else implied
  }

  // ---------------------------------------------------------------------------
  // Geographic scope
  // ---------------------------------------------------------------------------

  /* One test of the classifier: any of the phrases contained, or any of the codes equal. */
  datatype Rule = Rule(phrases: seq<string>, codes: seq<string>, scope: GeographicScope)

  function AnyContained(s: string, phrases: seq<string>): (r: bool)
    ensures r <==> exists k :: 0 <= k < |phrases| && Contains(s, phrases[k])
  {
    if phrases == [] then false
    else if Contains(s, phrases[0]) then true
    else
      var rest := AnyContained(s, phrases[1..]);
      assert forall k :: 0 < k < |phrases| ==> phrases[k] == phrases[1..][k - 1];
      rest
  }

  predicate Matches(rule: Rule, s: string) {
    AnyContained(s, rule.phrases) || s in rule.codes
  }

  /* anyMatch over the uppercased strings. */
  predicate Hit(rule: Rule, upper: set<string>) {
    exists s :: s in upper && Matches(rule, s)
  }

  const BulgariaRule := Rule(["BULGARIA"], ["BG"], BULGARIA)
  const RomaniaRule := Rule(["ROMANIA"], ["RO"], ROMANIA)
  const GreeceRule := Rule(["GREECE"], ["GR"], GREECE)
  const SerbiaRule := Rule(["SERBIA"], ["RS"], SERBIA)
  const MacedoniaRule := Rule(["MACEDONIA", "NORTH MACEDONIA"], [], NORTH_MACEDONIA)
  const EasternRule := Rule(["EASTERN EUROPE", "EAST EUROPE"], [], EASTERN_EUROPE)
  const BalkanRule := Rule(["BALKAN", "BALKANS"], [], BALKANS)
  const SoutheasternRule := Rule(["SOUTHEASTERN EUROPE", "SOUTHEAST EUROPE"], [], SOUTHEASTERN_EUROPE)
  const CentralRule := Rule(["CENTRAL EUROPE"], [], CENTRAL_EUROPE)
  const EuMemberRule := Rule(["EU MEMBER", "EU-27"], [], EU_MEMBER_STATES)
  const EuCandidateRule := Rule(["EU CANDIDATE", "CANDIDATE COUNTRIES"], [], EU_CANDIDATE_COUNTRIES)
  const EuEnlargementRule := Rule(["EU ENLARGEMENT"], [], EU_ENLARGEMENT_REGION)
  const EuropeRule := Rule(["EUROPE"], ["EU"], EUROPE)
  const GlobalRule := Rule(["GLOBAL", "WORLDWIDE"], [], GLOBAL)

  const Countries: seq<Rule> := [BulgariaRule, RomaniaRule, GreeceRule, SerbiaRule, MacedoniaRule]

  /* The tests of mapToGeographicScope in the order the code makes them. */
  const Rules: seq<Rule> := Countries + [EasternRule, BalkanRule, SoutheasternRule, CentralRule,
    EuMemberRule, EuCandidateRule, EuEnlargementRule, EuropeRule, GlobalRule]

  /* The index of the first rule some string hits, or -1. */
  function FirstHit(rules: seq<Rule>, upper: set<string>): (k: int)
    ensures -1 <= k < |rules|
    ensures k >= 0 ==> Hit(rules[k], upper) && forall j :: 0 <= j < k ==> !Hit(rules[j], upper)
    ensures k == -1 ==> forall j :: 0 <= j < |rules| ==> !Hit(rules[j], upper)
  {
    if rules == [] then -1
    else if Hit(rules[0], upper) then 0
    else
      var k := FirstHit(rules[1..], upper);
      assert forall j :: 0 < j < |rules| ==> rules[j] == rules[1..][j - 1];
      if k == -1 then -1 else k + 1
  }

  function Uppercased(strings: set<string>): set<string> {
    set s | s in strings :: Upper(s)
  }

  /* The scope of the first rule hit, or INTERNATIONAL; null and empty input are INTERNATIONAL at once. */
  function Classify(rules: seq<Rule>, strings: Option<set<string>>): (r: GeographicScope)
    ensures strings.None? || strings.value == {} ==> r == INTERNATIONAL
    ensures strings.Some? && strings.value != {} && (forall j :: 0 <= j < |rules| ==> rules[j].scope != INTERNATIONAL) ==>
      var upper := Uppercased(strings.value);
      && (r == INTERNATIONAL <==> forall j :: 0 <= j < |rules| ==> !Hit(rules[j], upper))
      && (r != INTERNATIONAL ==> exists k :: 0 <= k < |rules| && rules[k].scope == r && Hit(rules[k], upper)
                                              && forall j :: 0 <= j < k ==> !Hit(rules[j], upper))
  {
    if strings.None? || strings.value == {} then INTERNATIONAL
    else
      var k := FirstHit(rules, Uppercased(strings.value));
      if k == -1 then INTERNATIONAL else rules[k].scope
  }

  /*
   mapToGeographicScope as written: null or empty input is INTERNATIONAL;
   otherwise the scope of the first test that some uppercased string passes,
   or INTERNATIONAL when none does.
   */
  function MapToGeographicScope(strings: Option<set<string>>): (r: GeographicScope)
    ensures strings.None? || strings.value == {} ==> r == INTERNATIONAL
    ensures strings.Some? && strings.value != {} ==>
      var upper := Uppercased(strings.value);
      && (r == INTERNATIONAL <==> forall j :: 0 <= j < |Rules| ==> !Hit(Rules[j], upper))
      && (r != INTERNATIONAL ==> exists k :: 0 <= k < |Rules| && Rules[k].scope == r && Hit(Rules[k], upper)
                                              && forall j :: 0 <= j < k ==> !Hit(Rules[j], upper))
  {
    NoRuleIsInternational();
    Classify(Rules, strings)
  }

  lemma NoRuleIsInternational()
    ensures forall j :: 0 <= j < |Rules| ==> Rules[j].scope != INTERNATIONAL
  {
  }

  /* Matching is on uppercased strings: the input's letter case does not change the scope. */
  lemma ScopeIgnoresCase(strings: set<string>)
    ensures MapToGeographicScope(Some(strings)) == MapToGeographicScope(Some(Uppercased(strings)))
  {
    forall u | u in Uppercased(Uppercased(strings))
      ensures u in Uppercased(strings)
    {
      var v :| v in Uppercased(strings) && u == Upper(v);
      var w :| w in strings && v == Upper(w);
      UpperIdempotent(w);
    }
    forall u | u in Uppercased(strings)
      ensures u in Uppercased(Uppercased(strings))
    {
      var w :| w in strings && u == Upper(w);
      UpperIdempotent(w);
      assert Upper(u) in Uppercased(Uppercased(strings));
    }
    assert Uppercased(Uppercased(strings)) == Uppercased(strings);
  }

  /* How broad a scope is: country, region, EU group, Europe, global, and the INTERNATIONAL default. */
  function Breadth(s: GeographicScope): nat {
    match s
    case BULGARIA | ROMANIA | GREECE | SERBIA | NORTH_MACEDONIA => 0
    case EASTERN_EUROPE | BALKANS | SOUTHEASTERN_EUROPE | CENTRAL_EUROPE => 1
    case EU_MEMBER_STATES | EU_CANDIDATE_COUNTRIES | EU_ENLARGEMENT_REGION => 2
    case EUROPE => 3
    case GLOBAL => 4
    case INTERNATIONAL => 5
  }

  /* The rules are tried from the narrowest to the broadest. */
  predicate NarrowFirst(rules: seq<Rule>) {
    forall i, j :: 0 <= i < j < |rules| ==> Breadth(rules[i].scope) <= Breadth(rules[j].scope)
  }

  /* Whatever strings are given, the result is at least as narrow as the scope of any test they pass. */
  lemma NarrowestScopeWins(rules: seq<Rule>, strings: set<string>, k: int)
    requires NarrowFirst(rules) && strings != {}
    requires 0 <= k < |rules| && Hit(rules[k], Uppercased(strings))
    ensures Breadth(Classify(rules, Some(strings))) <= Breadth(rules[k].scope)
  {
  }

  lemma RulesNarrowFirst()
    ensures NarrowFirst(Rules)
  {
  }

  /* A string naming a country decides the scope, whatever else is given. */
  lemma CountryBeatsRegion(strings: set<string>, s: string, k: int)
    requires s in strings && 0 <= k < |Countries| && Matches(Countries[k], Upper(s))
    ensures Breadth(MapToGeographicScope(Some(strings))) == 0
  {
    RulesNarrowFirst();
    assert Rules[k] == Countries[k];
    assert Upper(s) in Uppercased(strings);
    NarrowestScopeWins(Rules, strings, k);
  }

  // ---------------------------------------------------------------------------
  // The unreachable southeastern rule
  // ---------------------------------------------------------------------------

  /* A phrase with a character the string lacks is not contained in it. */
  lemma MissingCharNotContained(s: string, phrase: string, c: char)
    requires c in phrase && c !in s
    ensures !Contains(s, phrase)
  {
  }

  /* Whatever passes the southeastern test passes the eastern test, and the eastern test comes first. */
  lemma SoutheasternImpliesEastern(upper: set<string>)
    requires Hit(SoutheasternRule, upper)
    ensures Hit(EasternRule, upper)
  {
    var s :| s in upper && Matches(SoutheasternRule, s);
    var long, short := "SOUTHEASTERN EUROPE", "SOUTHEAST EUROPE";
    assert long[5..] == "EASTERN EUROPE" && short[5..] == "EAST EUROPE";
    if Contains(s, long) {
      ContainsTail(s, long, 5);
      assert Contains(s, EasternRule.phrases[0]);
    } else {
      assert Contains(s, SoutheasternRule.phrases[1]);
      ContainsTail(s, short, 5);
      assert Contains(s, EasternRule.phrases[1]);
    }
    assert Matches(EasternRule, s);
  }

  lemma RuleOrder()
    ensures |Rules| == 14 && Rules[5] == EasternRule && Rules[7] == SoutheasternRule
    ensures forall j :: 0 <= j < 5 ==> Rules[j] == Countries[j]
  {
  }

  /* As written, no input is ever classified SOUTHEASTERN_EUROPE. */
  lemma SoutheasternEuropeUnreachable(strings: Option<set<string>>)
    ensures MapToGeographicScope(strings) != SOUTHEASTERN_EUROPE
  {
    if strings.Some? && strings.value != {} {
      var upper := Uppercased(strings.value);
      var k := FirstHit(Rules, upper);
      RuleOrder();
      if k >= 0 && Rules[k].scope == SOUTHEASTERN_EUROPE {
        assert k == 7;
        SoutheasternImpliesEastern(upper);
      }
    }
  }

  /* A rule is failed by a string that lacks a character every phrase has and that equals no code. */
  lemma FailsForMissingChar(rule: Rule, s: string, c: char)
    requires forall k :: 0 <= k < |rule.phrases| ==> c in rule.phrases[k]
    requires c !in s && s !in rule.codes
    ensures !Matches(rule, s)
  {
    forall k | 0 <= k < |rule.phrases|
      ensures !Contains(s, rule.phrases[k])
    {
      MissingCharNotContained(s, rule.phrases[k], c);
    }
  }

  /* "SOUTHEASTERN EUROPE" passes none of the five country tests. */
  lemma NoCountryIn(s: string)
    requires s == "SOUTHEASTERN EUROPE"
    ensures forall j :: 0 <= j < |Countries| ==> !Matches(Countries[j], s)
  {
    EachCountryFails(s);
  }

  /* The five country tests one by one, each failed for a letter the name lacks. */
  lemma EachCountryFails(s: string)
    requires s == "SOUTHEASTERN EUROPE"
    ensures !Matches(BulgariaRule, s) && !Matches(RomaniaRule, s) && !Matches(GreeceRule, s)
    ensures !Matches(SerbiaRule, s) && !Matches(MacedoniaRule, s)
  {
    LacksCountryLetters(s);
    assert 'B' in BulgariaRule.phrases[0];
    FailsForMissingChar(BulgariaRule, s, 'B');
    assert 'M' in RomaniaRule.phrases[0];
    FailsForMissingChar(RomaniaRule, s, 'M');
    assert 'G' in GreeceRule.phrases[0];
    FailsForMissingChar(GreeceRule, s, 'G');
    assert 'B' in SerbiaRule.phrases[0];
    FailsForMissingChar(SerbiaRule, s, 'B');
    assert 'M' in MacedoniaRule.phrases[0] && 'M' in MacedoniaRule.phrases[1];
    FailsForMissingChar(MacedoniaRule, s, 'M');
  }

  /* The name has none of the letters B, M and G, and is longer than any country code. */
  lemma LacksCountryLetters(s: string)
    requires s == "SOUTHEASTERN EUROPE"
    ensures 'B' !in s && 'M' !in s && 'G' !in s && |s| == 19
  {
  }

  lemma UppercasedExample()
    ensures Uppercased({"Southeastern Europe"}) == {"SOUTHEASTERN EUROPE"}
  {
    assert Upper("Southeastern Europe") == "SOUTHEASTERN EUROPE";
  }

  lemma HitOne(rule: Rule, s: string)
    ensures Hit(rule, {s}) <==> Matches(rule, s)
  {
  }

  /* The scope is that of the rule hit first. */
  lemma ClassifiedByFirstHit(rules: seq<Rule>, strings: set<string>, k: int)
    requires strings != {} && 0 <= k < |rules| && Hit(rules[k], Uppercased(strings))
    requires forall j :: 0 <= j < k ==> !Hit(rules[j], Uppercased(strings))
    ensures Classify(rules, Some(strings)) == rules[k].scope
  {
    var f := FirstHit(rules, Uppercased(strings));
    assert f == k;
  }

  /* The concrete case: "Southeastern Europe" is classified EASTERN_EUROPE. */
  lemma SoutheasternEuropeReadAsEastern()
    ensures MapToGeographicScope(Some({"Southeastern Europe"})) == EASTERN_EUROPE
  {
    var s := "SOUTHEASTERN EUROPE";
    UppercasedExample();
    NoCountryIn(s);
    RuleOrder();
    forall j | 0 <= j < 5
      ensures !Hit(Rules[j], {s})
    {
      HitOne(Rules[j], s);
    }
    assert OccursAt(s, "EASTERN EUROPE", 5);
    assert Matches(EasternRule, s);
    HitOne(EasternRule, s);
    ClassifiedByFirstHit(Rules, {"Southeastern Europe"}, 5);
  }

  /* The tests with the southeastern one moved ahead of the eastern one that swallows it. */
  const CorrectedRules: seq<Rule> := Countries + [SoutheasternRule, EasternRule, BalkanRule, CentralRule,
    EuMemberRule, EuCandidateRule, EuEnlargementRule, EuropeRule, GlobalRule]

  /* mapToGeographicScope with the southeastern test made reachable. */
  function CorrectedGeographicScope(strings: Option<set<string>>): (r: GeographicScope)
    ensures strings.None? || strings.value == {} ==> r == INTERNATIONAL
  {
    Classify(CorrectedRules, strings)
  }

  /* With the corrected order, a southeastern name that names no country is classified SOUTHEASTERN_EUROPE. */
  lemma CorrectedKeepsSoutheastern(strings: set<string>)
    requires strings != {}
    requires Hit(SoutheasternRule, Uppercased(strings))
    requires forall j :: 0 <= j < |Countries| ==> !Hit(Countries[j], Uppercased(strings))
    ensures CorrectedGeographicScope(Some(strings)) == SOUTHEASTERN_EUROPE
  {
    var upper := Uppercased(strings);
    assert forall j :: 0 <= j < 5 ==> CorrectedRules[j] == Countries[j];
    assert CorrectedRules[5] == SoutheasternRule;
    var k := FirstHit(CorrectedRules, upper);
    assert k == 5;
  }

  /* The corrected order still tries the narrowest scopes first. */
  lemma CorrectedNarrowFirst()
    ensures NarrowFirst(CorrectedRules)
  {
  }

  /* With the corrected order "Southeastern Europe" is classified SOUTHEASTERN_EUROPE. */
  lemma CorrectedReadsSoutheastern()
    ensures CorrectedGeographicScope(Some({"Southeastern Europe"})) == SOUTHEASTERN_EUROPE
  {
    var s := "SOUTHEASTERN EUROPE";
    UppercasedExample();
    NoCountryIn(s);
    forall j | 0 <= j < |Countries|
      ensures !Hit(Countries[j], {s})
    {
      HitOne(Countries[j], s);
    }
    assert OccursAt(s, "SOUTHEASTERN EUROPE", 0);
    assert Matches(SoutheasternRule, s);
    HitOne(SoutheasternRule, s);
    CorrectedKeepsSoutheastern({"Southeastern Europe"});
  }
}
