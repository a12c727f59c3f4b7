/** generate_skill_templates.py: the demand-level classifier and the builder
    of the per-skill country data that the generated pages embed. */
module GenerateSkillTemplates {

  import opened Wrappers
  import opened Strings
  import opened OrderedDict
  import opened CountriesData

  // ---------------------------------------------------------------------------
  // Looking up a skill's record for a country

  /** `countries_data.get(code, {})` */
  function CountryOrEmpty(countries: Countries, code: string): (c: Country)
    ensures code in countries ==> c == countries[code]
    ensures code !in countries ==> c == NoCountry
  {
    if code in countries then countries[code] else NoCountry
  }

  /** `country.get('skills', {}).get(skill, {})` */
  function SkillOf(country: Country, skill: string): (sd: SkillData)
    ensures country.skills.Some? && skill in country.skills.value ==> sd == country.skills.value[skill]
    ensures country.skills.None? || skill !in country.skills.value ==> IsEmpty(sd)
  {
    match country.skills
    case None => NoSkillData
    case Some(skills) => if skill in skills then skills[skill] else NoSkillData
  }

  /** get_country_data_for_skill: never fails; an unknown country, a country
      without `skills` and a skill the country does not list all give `{}`. */
  function GetCountryDataForSkill(countries: Countries, skill: string, code: string): (sd: SkillData)
    ensures code !in countries ==> IsEmpty(sd)
    ensures code in countries && countries[code].skills.None? ==> IsEmpty(sd)
    ensures code in countries && countries[code].skills.Some? && skill !in countries[code].skills.value
            ==> IsEmpty(sd)
    ensures code in countries && countries[code].skills.Some? && skill in countries[code].skills.value
            ==> sd == countries[code].skills.value[skill]
    ensures !IsEmpty(sd) ==> code in countries && countries[code].skills.Some?
                             && skill in countries[code].skills.value
                             && sd == countries[code].skills.value[skill]
  {
    SkillOf(CountryOrEmpty(countries, code), skill)
  }

  /** Whether the builders keep `code`: its skill record is present and non-empty. */
  predicate HasSkillData(countries: Countries, skill: string, code: string) {
    !IsEmpty(GetCountryDataForSkill(countries, skill, code))
  }

  // ---------------------------------------------------------------------------
  // The demand classifier

  const DemandLabels: set<string> := {"Very High", "High", "Growing", "Emerging"}

  /** format_demand_level: case-sensitive substring rules, first match wins,
      "Growing" when none matches. A label other than the default is always
      one the input literally contains. */
  function FormatDemandLevel(demand: string): (level: string)
    ensures level in DemandLabels
    ensures Contains(demand, "Very High") ==> level == "Very High"
    ensures level != "Growing" ==> Contains(demand, level)
    ensures !Contains(demand, "Very High") && !Contains(demand, "High")
            && !Contains(demand, "Growing") && !Contains(demand, "Emerging")
            ==> level == "Growing"
  {
    if Contains(demand, "Very High") then "Very High"
    else if Contains(demand, "High") then "High"
    else if Contains(demand, "Growing") then "Growing"
    else if Contains(demand, "Emerging") then "Emerging"
    else "Growing"
  }

  /** The classifier as an ordered rule table (pattern, label). */
  const DemandRules: seq<(string, string)> :=
    [("Very High", "Very High"), ("High", "High"), ("Growing", "Growing"), ("Emerging", "Emerging")]

  /** The label of the first rule whose pattern occurs in s, else the default. */
  function FirstMatch(rules: seq<(string, string)>, s: string, default: string): string {
    if rules == [] then default
    else if Contains(s, rules[0].0) then rules[0].1
    else FirstMatch(rules[1..], s, default)
  }

  /** The if-chain is exactly the rule table read top to bottom. */
  lemma FormatDemandLevelIsRuleTable(demand: string)
    ensures FormatDemandLevel(demand) == FirstMatch(DemandRules, demand, "Growing")
  {
    var rules := DemandRules;
    assert FirstMatch(rules[4..], demand, "Growing") == "Growing";
    assert FirstMatch(rules[3..], demand, "Growing")
        == if Contains(demand, "Emerging") then "Emerging" else "Growing";
    assert FirstMatch(rules[2..], demand, "Growing")
        == if Contains(demand, "Growing") then "Growing" else FirstMatch(rules[3..], demand, "Growing");
    assert FirstMatch(rules[1..], demand, "Growing")
        == if Contains(demand, "High") then "High" else FirstMatch(rules[2..], demand, "Growing");
  }

  /** Every text containing "Very High" also contains "High": the order of the
      first two rules is what makes "Very High" reachable at all. */
  lemma VeryHighContainsHigh(demand: string)
    requires Contains(demand, "Very High")
    ensures Contains(demand, "High")
  {
    ContainsAt(demand, "Very High");
    var i :| 0 <= i <= |demand| && IsPrefix("Very High", demand[i..]);
    assert IsPrefix("High", demand[i + 5..]) by {
      assert demand[i + 5..][..4] == demand[i..][..9][5..];
    }
    ContainsAt(demand, "High");
  }

  /** Each label classifies as itself. */
  lemma LabelsClassifyAsThemselves(l: string)
    requires l in DemandLabels
    ensures FormatDemandLevel(l) == l
  {
    assert IsPrefix(l, l);
    if l == "High" {
      assert 'V' !in l;
      NotContainsFirstChar(l, "Very High");
    } else if l == "Growing" {
      assert 'V' !in l && 'H' !in l;
      NotContainsFirstChar(l, "Very High");
      NotContainsFirstChar(l, "High");
    } else if l == "Emerging" {
      assert 'V' !in l && 'H' !in l && 'G' !in l;
      NotContainsFirstChar(l, "Very High");
      NotContainsFirstChar(l, "High");
      NotContainsFirstChar(l, "Growing");
    }
  }

  /** The classifier is idempotent. */
  lemma FormatDemandLevelIdempotent(demand: string)
    ensures FormatDemandLevel(FormatDemandLevel(demand)) == FormatDemandLevel(demand)
  {
    LabelsClassifyAsThemselves(FormatDemandLevel(demand));
  }

  /** Matching is case-sensitive: lower-case "very high" falls through to the
      default, and so does the empty description. */
  lemma DemandMatchingIsCaseSensitive()
    ensures FormatDemandLevel("very high") == "Growing"
    ensures FormatDemandLevel("") == "Growing"
  {
    assert 'V' !in "very high" && 'H' !in "very high" && 'G' !in "very high" && 'E' !in "very high";
    NotContainsFirstChar("very high", "Very High");
    NotContainsFirstChar("very high", "High");
    NotContainsFirstChar("very high", "Growing");
    NotContainsFirstChar("very high", "Emerging");
  }

  // ---------------------------------------------------------------------------
  // The country-data builder

  /** One value of the dict generate_country_data_json returns. */
  datatype JsonEntry = JsonEntry(
    name: string,
    flag: string,
    demand: string,
    overview: string,
    education: string,
    certifications: seq<string>,
    advantages: seq<string>,
    limitations: seq<string>,
    references: seq<string>,
    studyPaths: seq<string>)

  /** The entry built for a country and its skill record: absent strings become
      "", absent lists become [], present values are copied unchanged, and the
      demand is the classified `skill_demand_level` ("Growing" when absent). */
  function MakeJsonEntry(country: Country, sd: SkillData): (e: JsonEntry)
    ensures e.demand in DemandLabels
    ensures sd.skillDemandLevel.None? ==> e.demand == "Growing"
    ensures sd.skillDemandLevel.Some? ==> e.demand == FormatDemandLevel(sd.skillDemandLevel.value)
    ensures (country.name.Some? ==> e.name == country.name.value) && (country.name.None? ==> e.name == "")
    ensures (country.flag.Some? ==> e.flag == country.flag.value) && (country.flag.None? ==> e.flag == "")
    ensures (sd.overview.Some? ==> e.overview == sd.overview.value) && (sd.overview.None? ==> e.overview == "")
    ensures (sd.requiredEducation.Some? ==> e.education == sd.requiredEducation.value)
            && (sd.requiredEducation.None? ==> e.education == "")
    ensures (sd.certifications.Some? ==> e.certifications == sd.certifications.value)
            && (sd.certifications.None? ==> e.certifications == [])
    ensures (sd.advantages.Some? ==> e.advantages == sd.advantages.value)
            && (sd.advantages.None? ==> e.advantages == [])
    ensures (sd.limitations.Some? ==> e.limitations == sd.limitations.value)
            && (sd.limitations.None? ==> e.limitations == [])
    ensures (sd.references.Some? ==> e.references == sd.references.value)
            && (sd.references.None? ==> e.references == [])
    ensures (sd.studyPaths.Some? ==> e.studyPaths == sd.studyPaths.value)
            && (sd.studyPaths.None? ==> e.studyPaths == [])
  {
    LabelsClassifyAsThemselves("Growing");
    JsonEntry(
      name := country.name.GetOr(""),
      flag := country.flag.GetOr(""),
      demand := FormatDemandLevel(sd.skillDemandLevel.GetOr("Growing")),
      overview := sd.overview.GetOr(""),
      education := sd.requiredEducation.GetOr(""),
      certifications := sd.certifications.GetOr([]),
      advantages := sd.advantages.GetOr([]),
      limitations := sd.limitations.GetOr([]),
      references := sd.references.GetOr([]),
      studyPaths := sd.studyPaths.GetOr([]))
  }

  /** The entry the builder stores under `code`. */
  function JsonEntryFor(countries: Countries, skill: string, code: string): JsonEntry {
    MakeJsonEntry(CountryOrEmpty(countries, code), GetCountryDataForSkill(countries, skill, code))
  }

  /** The keys a builder's dict ends up with, in dict order, after walking
      `codes` left to right. */
  function KeptCodes(countries: Countries, skill: string, codes: seq<string>): seq<string> {
    if codes == [] then []
    else
      var kept := KeptCodes(countries, skill, codes[..|codes| - 1]);
      var code := codes[|codes| - 1];
      if HasSkillData(countries, skill, code) && code !in kept then kept + [code] else kept
  }

  /** KeptCodes holds each code of `codes` that has skill data, once, ordered
      by first appearance in `codes`, and nothing else. */
  lemma {:induction false} KeptCodesAreFirstAppearances(countries: Countries, skill: string, codes: seq<string>)
    ensures var kept := KeptCodes(countries, skill, codes);
            && (forall i, j :: 0 <= i < j < |kept| ==> kept[i] != kept[j])
            && (forall c :: c in kept <==> c in codes && HasSkillData(countries, skill, c))
            && (forall i, j, q :: 0 <= i < j < |kept| && 0 <= q < |codes| && codes[q] == kept[j]
                  ==> kept[i] in codes[..q])
  {
    if codes != [] {
      var init := codes[..|codes| - 1];
      var code := codes[|codes| - 1];
      var prev := KeptCodes(countries, skill, init);
      var kept := KeptCodes(countries, skill, codes);
      KeptCodesAreFirstAppearances(countries, skill, init);
      assert codes == init + [code];
      forall c ensures c in codes <==> c in init || c == code {
      }
      forall i, j, q | 0 <= i < j < |kept| && 0 <= q < |codes| && codes[q] == kept[j]
        ensures kept[i] in codes[..q]
      {
        assert kept[i] in prev;
        if q < |codes| - 1 {
          assert codes[q] in init && codes[..q] == init[..q];
          assert kept[j] in prev by {
            assert kept[j] in kept;
          }
        } else {
          assert codes[..q] == init;
        }
      }
    }
  }

  /** One more code extends the kept codes exactly when it has skill data and
      was not kept before. */
  lemma KeptCodesStep(countries: Countries, skill: string, codes: seq<string>, n: nat)
    requires n < |codes|
    ensures var kept := KeptCodes(countries, skill, codes[..n]);
            KeptCodes(countries, skill, codes[..n + 1])
            == if HasSkillData(countries, skill, codes[n]) && codes[n] !in kept then kept + [codes[n]] else kept
  {
    assert codes[..n + 1][..n] == codes[..n];
  }

  /** generate_country_data_json: walks `codes` in order, skips codes whose
      skill record is missing or empty and stores one entry per remaining
      code, keyed by the code, in order of first appearance. */
  method GenerateCountryDataJson(countries: Countries, skill: string, codes: seq<string>)
    returns (countryData: seq<(string, JsonEntry)>)
    ensures DistinctKeys(countryData)
    ensures Keys(countryData) == KeptCodes(countries, skill, codes)
    ensures forall i :: 0 <= i < |countryData| ==>
              countryData[i].1 == JsonEntryFor(countries, skill, countryData[i].0)
  {
    countryData := [];
    for n := 0 to |codes|
      invariant DistinctKeys(countryData)
      invariant Keys(countryData) == KeptCodes(countries, skill, codes[..n])
      invariant forall i :: 0 <= i < |countryData| ==>
                  countryData[i].1 == JsonEntryFor(countries, skill, countryData[i].0)
    {
      var code := codes[n];
      assert codes[..n + 1][..n] == codes[..n];
      var country := CountryOrEmpty(countries, code);
      var skillData := SkillOf(country, skill);
      if IsEmpty(skillData) {
        continue;
      }
      var demand := FormatDemandLevel(skillData.skillDemandLevel.GetOr("Growing"));
      countryData := Put(countryData, code, JsonEntry(
        name := country.name.GetOr(""),
        flag := country.flag.GetOr(""),
        demand := demand,
        overview := skillData.overview.GetOr(""),
        education := skillData.requiredEducation.GetOr(""),
        certifications := skillData.certifications.GetOr([]),
        advantages := skillData.advantages.GetOr([]),
        limitations := skillData.limitations.GetOr([]),
        references := skillData.references.GetOr([]),
        studyPaths := skillData.studyPaths.GetOr([])));
    }
    assert codes[..|codes|] == codes;
  }
}
