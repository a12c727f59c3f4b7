# Skill-template data pipeline

This project models the data pipeline behind the generated skill pages of the
educational website. Two generator scripts read `data/countries.json` (country
code → country record, whose `skills` object maps a skill key to that skill's
record for the country) and produce the data each skill page embeds:

- `generate_skill_templates.py` classifies a free-text demand description
  into one of four badge labels (`format_demand_level`), looks up a skill's
  record for a country (`get_country_data_for_skill`), and builds an ordered
  dict of per-country entries with defaulted fields
  (`generate_country_data_json`).
- `update_skill_templates.py` carries its own copy of the classifier
  (`get_demand_label`), builds the same ordered dict but with every list
  already rendered as JavaScript array items `"a", "b"`
  (`build_country_data_js`), and emits the JavaScript object text, one block
  per entry joined by `,\n` (`generate_country_objects_js`).

The module-level `countries_data` of both scripts is the parameter
`countries: Countries`. Every JSON key is an `Option` field. A skill record
also records the names of any further keys it holds (`otherKeys`), so Python's
"the record is `{}`" test is exactly `IsEmpty`. A Python dict is a sequence of
(key, value) pairs with distinct keys (`OrderedDict`). `Put` models `d[k] = v`:
a new key goes to the end, and an existing key keeps its place. The two
builders and the emitter are loops in the source, so here they are methods
with `for` loops. Each is proved against specification functions: `KeptCodes`
gives the dict's keys, and `JsonEntryFor` / `JsEntryFor` give each entry.

Modules: `Wrappers` (Option), `Strings` (Python's `in` and `str.join`),
`OrderedDict`, `CountriesData` (the JSON shape), `GenerateSkillTemplates`,
`UpdateSkillTemplates`.

## Model

| member | source | states |
|---|---|---|
| GenerateSkillTemplates.GetCountryDataForSkill | generate_skill_templates.py:121-125 | Never fails. An unknown country code, a country without `skills`, or a skill the country does not list all give the empty record. When the country, its `skills` and the skill are all present, the stored record is returned as it is. A non-empty result is always that stored record. |
| GenerateSkillTemplates.CountryOrEmpty | generate_skill_templates.py:144 | `countries_data.get(code, {})` returns the stored country, or the empty country for an unknown code. |
| GenerateSkillTemplates.SkillOf | generate_skill_templates.py:145 | `country.get('skills', {}).get(skill, {})` returns the stored record, or the empty record when `skills` or the skill is missing. |
| GenerateSkillTemplates.FormatDemandLevel | generate_skill_templates.py:127-137 | The result is always one of "Very High", "High", "Growing", "Emerging". Any text containing "Very High" gives "Very High". A label other than the default is always a substring of the input. With none of the four substrings present, the result is "Growing". |
| GenerateSkillTemplates.FormatDemandLevelIsRuleTable | generate_skill_templates.py:129-137 | The if-chain equals the ordered rule table Very High > High > Growing > Emerging, read first match wins, with default "Growing". |
| GenerateSkillTemplates.VeryHighContainsHigh | generate_skill_templates.py:129-132 | Every text containing "Very High" also contains "High". Only the rule order lets "Very High" win. |
| GenerateSkillTemplates.LabelsClassifyAsThemselves | generate_skill_templates.py:127-137 | Each of the four labels classifies as itself. |
| GenerateSkillTemplates.FormatDemandLevelIdempotent | generate_skill_templates.py:127-137 | Classifying a label a second time returns the same label. |
| GenerateSkillTemplates.DemandMatchingIsCaseSensitive | generate_skill_templates.py:129-137 | Matching is case-sensitive: "very high" gives the default "Growing", and so does "". |
| GenerateSkillTemplates.MakeJsonEntry | generate_skill_templates.py:150-163 | `demand` is the classified `skill_demand_level`, or "Growing" when that key is absent, and always one of the four labels. Absent name, flag, overview and education become "". Absent lists become []. Present values are copied unchanged. |
| GenerateSkillTemplates.KeptCodesAreFirstAppearances | generate_skill_templates.py:143-148 | The kept codes are distinct. A code is kept iff it is in `country_codes` and its skill record is present and non-empty. Kept codes are ordered by first appearance in `country_codes`. |
| GenerateSkillTemplates.GenerateCountryDataJson | generate_skill_templates.py:139-165 | The dict has distinct keys, and its keys are exactly the kept codes in first-appearance order. The entry under each code is the defaulted entry for that code. |
| OrderedDict.Put | generate_skill_templates.py:152 | Dict item assignment keeps the keys distinct. A new key is appended with its value. An existing key keeps its position and only its value changes. |
| OrderedDict.PutGet | generate_skill_templates.py:152 | After `d[k] = v`, looking up k gives v and every other key's lookup is unchanged. |
| UpdateSkillTemplates.GetDemandLabel | update_skill_templates.py:102-112 | The result is always one of the four labels. "Very High" wins whenever present. A non-default label is a substring of the input. |
| UpdateSkillTemplates.GetDemandLabelAgrees | update_skill_templates.py:102-112 | On every input it returns what `format_demand_level` returns, so it has the same range, priority and "Growing" default. |
| UpdateSkillTemplates.Quote | update_skill_templates.py:130 | `f'"{x}"'` is x between two double quotes, unescaped. |
| UpdateSkillTemplates.JoinQuoted | update_skill_templates.py:129-130 | The rendered list is "" exactly when the list is empty. A one-element list renders as that element in quotes. |
| UpdateSkillTemplates.SplitJoinQuoted | update_skill_templates.py:129-146 | Round trip: when no element contains a double quote, reading the rendered text back gives the original list. So the text is the quoted elements separated by ", ", nothing else. |
| UpdateSkillTemplates.JoinQuotedDoesNotEscape | update_skill_templates.py:130 | Elements are emitted verbatim. The one element `a", "b` renders exactly like the two elements `a` and `b`. |
| UpdateSkillTemplates.MakeJsEntry | update_skill_templates.py:126-159 | `demand` is `get_demand_label` of `skill_demand_level`, or "Growing" when absent. Strings default to "". Each list field is the rendered list, and "" when the list is absent. |
| UpdateSkillTemplates.JsEntryRendersJsonEntry | update_skill_templates.py:114-161 | Each entry of `build_country_data_js` is the `generate_country_data_json` entry for the same code with every list rendered. |
| UpdateSkillTemplates.BuildCountryDataJs | update_skill_templates.py:114-161 | The dict has distinct keys, exactly the codes with a present, non-empty skill record, in `country_codes` order. Each value is the rendered entry for its code. |
| UpdateSkillTemplates.ObjectBlockShape | update_skill_templates.py:167-178 | A block starts with the quoted code followed by `: {`. It holds every member: name, flag and demand in double quotes, overview and education in backticks, and the five rendered lists in brackets. |
| UpdateSkillTemplates.Blocks | update_skill_templates.py:166-178 | One block per dict entry, in dict order. |
| UpdateSkillTemplates.GenerateCountryObjectsJs | update_skill_templates.py:163-179 | The output is the entries' blocks in dict order, joined by ",\n". It is "" exactly when the dict is empty, begins with the first entry's block, and contains every entry's block. |
| Strings.ContainsAt | generate_skill_templates.py:129 | Python's `sub in s` holds exactly when sub occurs at some position of s. |
| Strings.Join | update_skill_templates.py:179 | `sep.join([])` is "" and joining a single part gives that part. |
| Strings.JoinContainsPart | update_skill_templates.py:179 | Every joined part occurs in the joined text. |

## Left out

- Loading `data/countries.json` at module level, and every `print` banner, are I/O. This includes the "No data" warning in `build_country_data_js` (update_skill_templates.py:123). `countries_data` is a parameter instead.
- The `skills_config` and `SKILLS` tables are static page content that the modelled functions do not read.
- bulk_update.py is left out. Apart from file I/O, it only inserts a comment after the `<title>` tag with one string replace.
- app.py (Flask routes, template rendering, error handlers, topic file loading), static/js/script.js (DOM and timer wiring) and templates/dashboard.js (React markup) are user-interface and I/O code.
- JSON values of unexpected types are not modelled. The model assumes strings, lists of strings and objects where the scripts expect them. In Python:
  - a number, boolean or `null` as `skill_demand_level` makes `in` raise `TypeError`;
  - a list as `skill_demand_level` makes `in` test element membership, and an object makes it test the keys, so the label changes without an error;
  - a `null` skill record is falsy and is skipped like `{}`, while a `null` country or `skills` object makes `.get` raise `AttributeError`;
  - a `null` string field is written out as `None` by `generate_country_objects_js`.
- The `Strings` module models `in` and `str.join` on sequences of characters. Unicode code points and Dafny characters are assumed to coincide.
