/** update_skill_templates.py: the demand label, the builder of the country
    data with every list pre-rendered as JavaScript array items, and the
    emitter of the JavaScript object text. */
module UpdateSkillTemplates {

  import opened Wrappers
  import opened Strings
  import opened OrderedDict
  import opened CountriesData
  import opened GenerateSkillTemplates

  // ---------------------------------------------------------------------------
  // The demand label

  /** get_demand_label: the same ordered, case-sensitive rules as
      format_demand_level, written out a second time in this script. */
  function GetDemandLabel(demand: string): (level: string)
    ensures level in DemandLabels
    ensures Contains(demand, "Very High") ==> level == "Very High"
    ensures level != "Growing" ==> Contains(demand, level)
  {
    if Contains(demand, "Very High") then "Very High"
    else if Contains(demand, "High") then "High"
    else if Contains(demand, "Growing") then "Growing"
    else if Contains(demand, "Emerging") then "Emerging"
    else "Growing"
  }

  /** The two scripts classify every description alike. */
  lemma GetDemandLabelAgrees(demand: string)
    ensures GetDemandLabel(demand) == FormatDemandLevel(demand)
    ensures GetDemandLabel(demand) == FirstMatch(DemandRules, demand, "Growing")
  {
    FormatDemandLevelIsRuleTable(demand);
  }

  // ---------------------------------------------------------------------------
  // Rendering a list as JavaScript array items

  /** `f'"{x}"'`: the element wrapped in double quotes, with no escaping. */
  function Quote(x: string): (q: string)
    ensures |q| == |x| + 2 && q[0] == '"' && q[|q| - 1] == '"' && q[1..|q| - 1] == x
  {
    "\"" + x + "\""
  }

  function QuoteAll(xs: seq<string>): (qs: seq<string>)
    ensures |qs| == |xs|
    ensures forall i :: 0 <= i < |xs| ==> qs[i] == Quote(xs[i])
  {
    seq(|xs|, i requires 0 <= i < |xs| => Quote(xs[i]))
  }

  /** `', '.join([f'"{x}"' for x in xs])`. An empty list gives "" and a
      single element is just quoted. */
  function JoinQuoted(xs: seq<string>): (r: string)
    ensures r == "" <==> xs == []
    ensures |xs| == 1 ==> r == Quote(xs[0])
  {
    Join(", ", QuoteAll(xs))
  }

  /** Position of the first double quote in s, or |s| if there is none. */
  function QuoteIndex(s: string): (i: nat)
    ensures i <= |s|
    ensures i < |s| ==> s[i] == '"'
    ensures forall j :: 0 <= j < i ==> s[j] != '"'
  {
    if s == [] || s[0] == '"' then 0 else 1 + QuoteIndex(s[1..])
  }

  /** Reads back one or more `"item"` separated by ", ". */
  function SplitItems(s: string): Option<seq<string>>
    decreases |s|
  {
    if |s| < 2 || s[0] != '"' then None
    else
      var body := s[1..];
      var j := QuoteIndex(body);
      if j == |body| then None
      else
        var item := body[..j];
        var rest := body[j + 1..];
        if rest == "" then Some([item])
        else if IsPrefix(", ", rest) then
          match SplitItems(rest[2..])
          case None => None
          case Some(items) => Some([item] + items)
        else None
  }

  /** Reads back the text JoinQuoted produces. */
  function SplitQuoted(s: string): Option<seq<string>> {
    if s == "" then Some([]) else SplitItems(s)
  }

  predicate NoQuotes(xs: seq<string>) {
    forall i :: 0 <= i < |xs| ==> '"' !in xs[i]
  }

  /** One step of SplitItems over a quoted element without inner quotes. */
  lemma SplitItemsStep(x: string, tail: string)
    requires '"' !in x
    ensures SplitItems("\"" + x + "\"" + tail)
            == if tail == "" then Some([x])
               else if IsPrefix(", ", tail) then
                 match SplitItems(tail[2..])
                 case None => None
                 case Some(items) => Some([x] + items)
               else None
  {
    var s := "\"" + x + "\"" + tail;
    assert |s| >= 2 && s[0] == '"';
    var body := s[1..];
    assert body == x + "\"" + tail;
    assert body[|x|] == '"';
    forall j | 0 <= j < |x| ensures body[j] != '"' {
      assert body[j] == x[j];
      assert x[j] in x;
    }
    assert QuoteIndex(body) == |x|;
    assert body[..|x|] == x;
    assert body[|x| + 1..] == tail;
  }

  lemma {:induction false} SplitItemsJoinQuoted(xs: seq<string>)
    requires xs != [] && NoQuotes(xs)
    ensures SplitItems(Join(", ", QuoteAll(xs))) == Some(xs)
    decreases |xs|
  {
    var qs := QuoteAll(xs);
    var s := Join(", ", qs);
    var x := xs[0];
    assert '"' !in x;
    if |xs| == 1 {
      assert s == "\"" + x + "\"" + "" by {
        assert qs == [Quote(x)];
      }
      SplitItemsStep(x, "");
      assert xs == [x];
    } else {
      var rest := Join(", ", QuoteAll(xs[1..]));
      var tail := ", " + rest;
      assert s == "\"" + x + "\"" + tail by {
        assert qs[1..] == QuoteAll(xs[1..]);
        assert s == qs[0] + ", " + Join(", ", qs[1..]);
      }
      SplitItemsJoinQuoted(xs[1..]);
      assert IsPrefix(", ", tail) && tail[2..] == rest;
      SplitItemsStep(x, tail);
      assert [x] + xs[1..] == xs;
    }
  }

  /** Round trip: when no element contains a double quote, the rendered text
      determines the list. */
  lemma SplitJoinQuoted(xs: seq<string>)
    requires NoQuotes(xs)
    ensures SplitQuoted(JoinQuoted(xs)) == Some(xs)
  {
    if xs != [] {
      SplitItemsJoinQuoted(xs);
    }
  }

  /** Elements are emitted verbatim: a quote inside an element is not escaped,
      so two different lists can render to the same text. */
  lemma JoinQuotedDoesNotEscape()
    ensures JoinQuoted(["a\", \"b"]) == JoinQuoted(["a", "b"])
  {
    var qs := QuoteAll(["a", "b"]);
    assert qs[0] == Quote("a") == ['"', 'a', '"'];
    assert qs[1..] == [Quote("b")] && Quote("b") == ['"', 'b', '"'];
    assert JoinQuoted(["a", "b"]) == qs[0] + ", " + qs[1];
    assert JoinQuoted(["a\", \"b"]) == Quote("a\", \"b");
    assert Quote("a\", \"b") == ['"', 'a', '"', ',', ' ', '"', 'b', '"'];
  }

  // ---------------------------------------------------------------------------
  // The country-data builder

  /** One value of the dict build_country_data_js returns: the lists are
      already rendered as array items. */
  datatype JsEntry = JsEntry(
    name: string,
    flag: string,
    demand: string,
    overview: string,
    education: string,
    certifications: string,
    advantages: string,
    limitations: string,
    references: string,
    studyPaths: string)

  /** Renders every list field of a generate_country_data_json entry. */
  function QuoteLists(e: JsonEntry): JsEntry {
    JsEntry(e.name, e.flag, e.demand, e.overview, e.education,
            JoinQuoted(e.certifications), JoinQuoted(e.advantages), JoinQuoted(e.limitations),
            JoinQuoted(e.references), JoinQuoted(e.studyPaths))
  }

  /** The entry built for a country and its skill record: strings default to
      "", each list is rendered with JoinQuoted (an absent list gives ""), and
      the demand is the label of `skill_demand_level` ("Growing" when absent). */
  function MakeJsEntry(country: Country, sd: SkillData): (e: JsEntry)
    ensures e.demand in DemandLabels
    ensures sd.skillDemandLevel.None? ==> e.demand == "Growing"
    ensures sd.skillDemandLevel.Some? ==> e.demand == GetDemandLabel(sd.skillDemandLevel.value)
    ensures (country.name.Some? ==> e.name == country.name.value) && (country.name.None? ==> e.name == "")
    ensures (country.flag.Some? ==> e.flag == country.flag.value) && (country.flag.None? ==> e.flag == "")
    ensures (sd.overview.Some? ==> e.overview == sd.overview.value) && (sd.overview.None? ==> e.overview == "")
    ensures (sd.requiredEducation.Some? ==> e.education == sd.requiredEducation.value)
            && (sd.requiredEducation.None? ==> e.education == "")
    ensures (sd.certifications.Some? ==> e.certifications == JoinQuoted(sd.certifications.value))
            && (sd.certifications.None? ==> e.certifications == "")
    ensures (sd.advantages.Some? ==> e.advantages == JoinQuoted(sd.advantages.value))
            && (sd.advantages.None? ==> e.advantages == "")
    ensures (sd.limitations.Some? ==> e.limitations == JoinQuoted(sd.limitations.value))
            && (sd.limitations.None? ==> e.limitations == "")
    ensures (sd.references.Some? ==> e.references == JoinQuoted(sd.references.value))
            && (sd.references.None? ==> e.references == "")
    ensures (sd.studyPaths.Some? ==> e.studyPaths == JoinQuoted(sd.studyPaths.value))
            && (sd.studyPaths.None? ==> e.studyPaths == "")
  {
    GetDemandLabelAgrees("Growing");
    LabelsClassifyAsThemselves("Growing");
    JsEntry(
      name := country.name.GetOr(""),
      flag := country.flag.GetOr(""),
      demand := GetDemandLabel(sd.skillDemandLevel.GetOr("Growing")),
      overview := sd.overview.GetOr(""),
      education := sd.requiredEducation.GetOr(""),
      certifications := JoinQuoted(sd.certifications.GetOr([])),
      advantages := JoinQuoted(sd.advantages.GetOr([])),
      limitations := JoinQuoted(sd.limitations.GetOr([])),
      references := JoinQuoted(sd.references.GetOr([])),
      studyPaths := JoinQuoted(sd.studyPaths.GetOr([])))
  }

  /** The entry the builder stores under `code`. */
  function JsEntryFor(countries: Countries, skill: string, code: string): JsEntry {
    MakeJsEntry(CountryOrEmpty(countries, code), GetCountryDataForSkill(countries, skill, code))
  }

  /** JsEntryFor with its lookups and defaults spelled out field by field. */
  lemma JsEntryForFields(countries: Countries, skill: string, code: string)
    ensures var country := CountryOrEmpty(countries, code);
            var sd := SkillOf(country, skill);
            JsEntryFor(countries, skill, code) == JsEntry(
              name := country.name.GetOr(""),
              flag := country.flag.GetOr(""),
              demand := GetDemandLabel(sd.skillDemandLevel.GetOr("Growing")),
              overview := sd.overview.GetOr(""),
              education := sd.requiredEducation.GetOr(""),
              certifications := JoinQuoted(sd.certifications.GetOr([])),
              advantages := JoinQuoted(sd.advantages.GetOr([])),
              limitations := JoinQuoted(sd.limitations.GetOr([])),
              references := JoinQuoted(sd.references.GetOr([])),
              studyPaths := JoinQuoted(sd.studyPaths.GetOr([])))
  {
  }

  /** The two builders agree: each entry of build_country_data_js is the entry
      of generate_country_data_json for the same code with its lists rendered. */
  lemma JsEntryRendersJsonEntry(countries: Countries, skill: string, code: string)
    ensures JsEntryFor(countries, skill, code) == QuoteLists(JsonEntryFor(countries, skill, code))
  {
    var sd := GetCountryDataForSkill(countries, skill, code);
    GetDemandLabelAgrees(sd.skillDemandLevel.GetOr("Growing"));
  }

  /** build_country_data_js: walks `codes` in order, skips codes whose skill
      record is missing or empty, and stores one rendered entry per remaining
      code, in order of first appearance. */
  method BuildCountryDataJs(countries: Countries, skill: string, codes: seq<string>)
    returns (countryData: seq<(string, JsEntry)>)
    ensures DistinctKeys(countryData)
    ensures Keys(countryData) == KeptCodes(countries, skill, codes)
    ensures forall i :: 0 <= i < |countryData| ==>
              countryData[i].1 == JsEntryFor(countries, skill, countryData[i].0)
  {
    countryData := [];
    for n := 0 to |codes|
      invariant DistinctKeys(countryData)
      invariant Keys(countryData) == KeptCodes(countries, skill, codes[..n])
      invariant forall i :: 0 <= i < |countryData| ==>
                  countryData[i].1 == JsEntryFor(countries, skill, countryData[i].0)
    {
      var code := codes[n];
      var country := CountryOrEmpty(countries, code);
      var skillData := SkillOf(country, skill);
      if IsEmpty(skillData) {
        KeptCodesStep(countries, skill, codes, n);
        continue;
      }
      var demand := GetDemandLabel(skillData.skillDemandLevel.GetOr("Growing"));
      var certs := JoinQuoted(skillData.certifications.GetOr([]));
      var advs := JoinQuoted(skillData.advantages.GetOr([]));
      var lims := JoinQuoted(skillData.limitations.GetOr([]));
      var refs := JoinQuoted(skillData.references.GetOr([]));
      var paths := JoinQuoted(skillData.studyPaths.GetOr([]));
      var entry := JsEntry(
        name := country.name.GetOr(""),
        flag := country.flag.GetOr(""),
        demand := demand,
        overview := skillData.overview.GetOr(""),
        education := skillData.requiredEducation.GetOr(""),
        certifications := certs,
        advantages := advs,
        limitations := lims,
        references := refs,
        studyPaths := paths);
      assert entry == JsEntryFor(countries, skill, code) by {
        JsEntryForFields(countries, skill, code);
      }
      KeptCodesStep(countries, skill, codes, n);
      PutKeepsValuesOf(countryData, code, k => JsEntryFor(countries, skill, k));
      countryData := Put(countryData, code, entry);
    }
    assert codes[..|codes|] == codes;
  }

  // ---------------------------------------------------------------------------
  // The JavaScript object emitter

  /** One `"key": <open>value<close>` member of an emitted object. */
  function Member(key: string, open: string, value: string, close: string): string {
    "\"" + key + "\": " + open + value + close
  }

  /** The ten members of an entry's object, in emitted order: name, flag and
      demand in double quotes, overview and education in backticks, the five
      rendered lists in brackets. */
  function ObjectMembers(e: JsEntry): (ms: seq<string>)
    ensures |ms| == 10
  {
    [ Member("name", "\"", e.name, "\""),
      Member("flag", "\"", e.flag, "\""),
      Member("demand", "\"", e.demand, "\""),
      Member("overview", "`", e.overview, "`"),
      Member("education", "`", e.education, "`"),
      Member("certifications", "[", e.certifications, "]"),
      Member("advantages", "[", e.advantages, "]"),
      Member("limitations", "[", e.limitations, "]"),
      Member("references", "[", e.references, "]"),
      Member("study_paths", "[", e.studyPaths, "]") ]
  }

  const MemberIndent := "            "

  function Indented(ms: seq<string>): (ls: seq<string>)
    ensures |ls| == |ms|
    ensures forall i :: 0 <= i < |ms| ==> ls[i] == MemberIndent + ms[i]
  {
    seq(|ms|, i requires 0 <= i < |ms| => MemberIndent + ms[i])
  }

  /** The header line of an entry's block: the quoted code, then `: {`. */
  function BlockHeader(code: string): string {
    "        \"" + code + "\": {"
  }

  /** The text one loop iteration of generate_country_objects_js appends: the
      header, the ten members one per line separated by ",\n", and the
      closing brace on its own line. */
  function ObjectBlock(code: string, e: JsEntry): string {
    BlockHeader(code) + "\n" + Join(",\n", Indented(ObjectMembers(e))) + "\n        }"
  }

  /** A block starts with its header and holds every member of the entry. */
  lemma ObjectBlockShape(code: string, e: JsEntry)
    ensures IsPrefix(BlockHeader(code), ObjectBlock(code, e))
    ensures forall k :: 0 <= k < 10 ==> Contains(ObjectBlock(code, e), ObjectMembers(e)[k])
  {
    var b := ObjectBlock(code, e);
    assert b[..|BlockHeader(code)|] == BlockHeader(code);
    var ls := Indented(ObjectMembers(e));
    forall k | 0 <= k < 10 ensures Contains(b, ObjectMembers(e)[k]) {
      JoinContainsPart(",\n", ls, k);
      ContainsInfix(MemberIndent, ObjectMembers(e)[k], "");
      assert MemberIndent + ObjectMembers(e)[k] + "" == ls[k];
      ContainsTrans(Join(",\n", ls), ls[k], ObjectMembers(e)[k]);
      ContainsWithin(BlockHeader(code) + "\n", Join(",\n", ls), "\n        }", ObjectMembers(e)[k]);
    }
  }

  /** The blocks of all entries, in dict order. */
  function Blocks(countryData: seq<(string, JsEntry)>): (bs: seq<string>)
    ensures |bs| == |countryData|
    ensures forall i :: 0 <= i < |countryData| ==> bs[i] == ObjectBlock(countryData[i].0, countryData[i].1)
  {
    seq(|countryData|, i requires 0 <= i < |countryData| => ObjectBlock(countryData[i].0, countryData[i].1))
  }

  /** generate_country_objects_js: one block per dict entry, in dict order,
      joined by ",\n"; an empty dict gives "". */
  method GenerateCountryObjectsJs(countryData: seq<(string, JsEntry)>) returns (js: string)
    ensures js == Join(",\n", Blocks(countryData))
    ensures js == "" <==> countryData == []
    ensures countryData != [] ==> IsPrefix(ObjectBlock(countryData[0].0, countryData[0].1), js)
    ensures forall i :: 0 <= i < |countryData| ==> Contains(js, ObjectBlock(countryData[i].0, countryData[i].1))
  {
    var jsLines: seq<string> := [];
    for n := 0 to |countryData|
      invariant |jsLines| == n
      invariant forall i :: 0 <= i < n ==> jsLines[i] == ObjectBlock(countryData[i].0, countryData[i].1)
    {
      var (code, data) := countryData[n];
      jsLines := jsLines + [ObjectBlock(code, data)];
    }
    assert jsLines == Blocks(countryData);
    js := Join(",\n", jsLines);
    JoinEmpty(",\n", jsLines);
    if jsLines != [] {
      JoinEnds(",\n", jsLines);
    }
    forall i | 0 <= i < |countryData| ensures Contains(js, ObjectBlock(countryData[i].0, countryData[i].1)) {
      JoinContainsPart(",\n", jsLines, i);
    }
  }
}
