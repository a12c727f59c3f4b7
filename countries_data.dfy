/** The shape of `data/countries.json` as the generator scripts read it:
    country code -> country record, whose `skills` object maps a skill key to
    that skill's record for the country. Every key may be absent. */
module CountriesData {

  import opened Wrappers

  /** A skill's record for one country. The ten keys the generators read are
      optional fields; `otherKeys` names any further keys the record holds,
      which the generators never read but which make the record non-empty.
      `otherKeys` never holds one of those ten key names: a JSON object has
      each key once, and a key the generators read is stored in its field. */
  datatype SkillData = SkillData(
    skillDemandLevel: Option<string>,
    overview: Option<string>,
    requiredEducation: Option<string>,
    certifications: Option<seq<string>>,
    advantages: Option<seq<string>>,
    limitations: Option<seq<string>>,
    references: Option<seq<string>>,
    studyPaths: Option<seq<string>>,
    otherKeys: set<string>)

  /** The empty JSON object `{}`. */
  const NoSkillData := SkillData(None, None, None, None, None, None, None, None, {})

  /** Python truthiness of a dict: a record is falsy exactly when it has no key. */
  predicate IsEmpty(sd: SkillData) {
    sd == NoSkillData
  }

  datatype Country = Country(
    name: Option<string>,
    flag: Option<string>,
    skills: Option<map<string, SkillData>>)

  /** The empty JSON object `{}` in place of a country. */
  const NoCountry := Country(None, None, None)

  /** The module-level `countries_data` of both scripts, passed explicitly. */
  type Countries = map<string, Country>
}
