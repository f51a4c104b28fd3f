# NutriCare core in Dafny

NutriCare is a school feeding and nutrition tracker. This project models
its deterministic core and proves properties of it:

- **Grade/section normalisation on the feeding page**
  (`src/pages/FeedingNutrition.jsx`):
  - the `FEEDING_MAPPING` section rosters;
  - `normalizeSectionName` and `parseGradePrefix`;
  - the four regular-expression strategies of `inferGradeFromRaw`;
  - `normalizeGradeSection`;
  - the loose name matcher (`tokenizeName`, `canonicalNameVariants`,
    `namesLooseMatch`);
  - the grade-tab filter, attendance and status summary, and table filters.
- **The nutrition status job** (`src/utils/nutritionUpdater.js`):
  - BMI classification;
  - the latest record per student;
  - the selection of records that need a status;
  - the batched write loop;
  - the job's result.
- **The grade-key canonicalisers**:
  - `SCHOOL_DATA`, `GRADES` and `normalizeGrade`
    (`src/constants/schoolData.js`);
  - `normalizeStudent` (`src/utils/normalize.js`).
- **The report page's filter and summary cards** (`src/pages/Reports.jsx`).

The modules follow the source files:

- `JsString`: JavaScript string and array built-ins.
- `SectionName`: `normalizeSectionName` and `parseGradePrefix`.
- `FeedingMapping`: the rosters and the section-only lookup.
- `GradeInference`: `inferGradeFromRaw` and `normalizeGradeSection`.
- `GradeExamples`: worked inputs.
- `NameMatch`, `GradeTabSummary`, `NutritionUpdater`, `SchoolData`,
  `Normalize` and `Reports`.

### How the model is written

- **Pure code becomes functions.** Pure expression chains are functions.
- **Scanners replace regular expressions.** Each regular expression is
  modelled by the scanner it amounts to. The patterns are anchored and end
  in `(.*)$` without the `m` flag, so each one matches exactly when its
  greedy path leaves a tail free of line terminators.
- **Loops become methods.** Where the source loops or mutates locals, the
  model is a method proved equal to a specification function. Those
  methods are `InferGradeFromRaw`, `NormalizeGradeSection`,
  `NamesLooseMatch`, `FindFirstKey`, the summary counters,
  `LatestPerStudent`, `DetermineUpdates` and the batch loop.
- **The BMI table is a class.** The table written by the job is a class
  whose state is the log of updates written to it.
- **Strings are `seq<char>`.**
  - `trim` and `\s` use JavaScript's white-space and line-terminator set.
  - `\w` is ASCII `[A-Za-z0-9_]`.
  - Case mapping is ASCII.
- **BMI values** are JavaScript numbers: NaN, the infinities, or a finite
  `real`.

### Where the code and its description differ (the model follows the code)

- **Grades are bare strings.** `normalizeGradeSection` yields grades such
  as `"3"`, not `"Grade 3"`. Its digit branches can also yield `"0"`,
  `"12"` or `"99"`.
- **`normalizeGradeSection` is not idempotent.** Applied to
  `"KAALAMAN & KARUNUNGAN"` it gives `"K1 - KAALAMAN & KARUNUNGAN"`.
  Applied again, that gives `"K2 - KAALAMAN & KARUNUNGAN"`, because the
  section after `K1 -` is in the K2 roster.
- **`MASAYAHIN` is not a standalone K1 section.** It occurs only inside
  longer K1 roster names. `"K-MASAYAHIN"` still becomes
  `"K1 - MASAYAHIN"`, through the bare-`K` default.
- **`gradeMap` points at keys that do not exist.** The `gradeMap` of
  `normalize.js` maps to `"GRADE n"`, which is not a `SCHOOL_DATA` key
  (those are `"Grade n"`). So `normalizeStudent` canonicalises sections of
  K1 and K2 students only.
- **The K fallback of `normalizeGradeSection` is unreachable.** For
  single-line input, every K-initial string is already resolved by the
  kindergarten pattern.

## Model

| member | source | states |
|---|---|---|
| FeedingMapping.Roster | src/pages/FeedingNutrition.jsx:10-209 | `FEEDING_MAPPING[g] \|\| []`: the eight rosters, and the empty list for any other key |
| FeedingMapping.RosterNormal | src/pages/FeedingNutrition.jsx:10-209 | every roster entry is non-empty and already in `normalizeSectionName`'s normal form |
| FeedingMapping.RosterHasIsMembership | src/pages/FeedingNutrition.jsx:251-252 | "some entry normalises to `sec`" holds exactly when `sec` is an entry of the roster |
| FeedingMapping.FindFirstKey | src/pages/FeedingNutrition.jsx:279-283 | the key loop with early exit returns the first key whose roster owns the section, or none |
| FeedingMapping.FirstWithIsFirst | src/pages/FeedingNutrition.jsx:279-283 | the search returns none exactly when no key qualifies; otherwise it returns a qualifying key with no qualifying key before it |
| FeedingMapping.SectionOwnerIsKey | src/pages/FeedingNutrition.jsx:279-283 | a section owner is always one of the eight keys |
| FeedingMapping.SectionOwnerFirst | src/pages/FeedingNutrition.jsx:279-283 | the owner is the first key in `"1".."6", K1, K2` order whose roster contains the section; there is none exactly when no roster does |
| SectionName.StripRuns | src/pages/FeedingNutrition.jsx:218 | stripping quote runs from both ends yields a slice of the input starting after the leading run; text without the quote is unchanged |
| SectionName.NormalizeSectionNameShape | src/pages/FeedingNutrition.jsx:214-224 | every output is uppercase, trimmed, single-spaced and made only of `[A-Z0-9_ &.-]` |
| SectionName.NormalizeSectionNameFixes | src/pages/FeedingNutrition.jsx:214-224 | text already in normal form is returned unchanged |
| SectionName.NormalizeSectionNameIdempotent | src/pages/FeedingNutrition.jsx:214-224 | normalising twice equals normalising once |
| SectionName.NormalizeSectionNameEmpty | src/pages/FeedingNutrition.jsx:215-223 | the output is empty exactly when the input is empty or is left only white space once quotes, dashes and other characters are handled |
| SectionName.RomanToNumRange | src/pages/FeedingNutrition.jsx:227 | `ROMAN_TO_NUM` values lie in 1..7 |
| SectionName.ParseGradePrefixRange | src/pages/FeedingNutrition.jsx:228-236 | any result is `String(n)` for some n in 1..12 |
| SectionName.ParseGradePrefixOfLabelledNumeral | src/pages/FeedingNutrition.jsx:228-232 | only the digits of the token are read: a digit-free word followed by `String(n)`, n in 1..12 (`Gr 3`, `Level12`), parses to `String(n)` |
| SectionName.ParseGradePrefixOfNumeral | src/pages/FeedingNutrition.jsx:228-232 | `String(n)` for n in 1..12 parses back to itself |
| SectionName.ParseGradePrefixOfRoman | src/pages/FeedingNutrition.jsx:233-234 | a Roman numeral of the table parses to its value |
| SectionName.ParseGradePrefixIgnoresCase | src/pages/FeedingNutrition.jsx:230 | lower-casing the prefix does not change the result |
| JsString.DecimalRoundTrip | src/pages/FeedingNutrition.jsx:263-264 | `parseInt(String(n))` is n |
| GradeInference.KMatch | src/pages/FeedingNutrition.jsx:245 | a kindergarten match captures a `K`, `K1` or `K2` token (any case) and a single-line tail |
| GradeInference.NumMatch | src/pages/FeedingNutrition.jsx:261 | a numeric match captures one or two digits |
| GradeInference.RomanMatch | src/pages/FeedingNutrition.jsx:267 | a Roman match captures a non-empty run of Roman letters |
| GradeInference.GradeWordFrom | src/pages/FeedingNutrition.jsx:273 | the embedded `GRADE n` search finds digits exactly when some position holds `GRADE`, optional spaces and a digit |
| GradeInference.GradeWordFromLeftmost | src/pages/FeedingNutrition.jsx:273 | the match is at the leftmost such position and captures that whole digit run |
| GradeInference.KindergartenGrade | src/pages/FeedingNutrition.jsx:247-258 | the kindergarten branch always yields K1 or K2 |
| GradeInference.KindergartenPrecedence | src/pages/FeedingNutrition.jsx:249-258 | K1-roster membership beats K2-roster membership, which beats the K1/K2 token; a bare K means K1 |
| GradeInference.InferGradeFromRaw | src/pages/FeedingNutrition.jsx:239-287 | the early-return strategy chain and the key loop compute the specified inferred grade |
| GradeInference.KInitialIsKindergarten | src/pages/FeedingNutrition.jsx:245-259 | any single-line trimmed input starting with k or K matches the kindergarten pattern and infers K1 or K2 |
| GradeInference.NumericPrefixWins | src/pages/FeedingNutrition.jsx:261-265 | a leading 1-2 digit token followed by a space or hyphen gives `String(parseInt(token))`, with no range check |
| GradeInference.NumMatchAt | src/pages/FeedingNutrition.jsx:261 | the numeric pattern captures exactly the leading digit token before the separator |
| GradeInference.RomanPrefixWins | src/pages/FeedingNutrition.jsx:267-271 | a leading Roman token that `parseGradePrefix` accepts gives that grade |
| GradeInference.RomanMatchAt | src/pages/FeedingNutrition.jsx:267 | the Roman pattern captures exactly the leading Roman token before the separator |
| GradeInference.NotKindergarten | src/pages/FeedingNutrition.jsx:245 | text starting with anything but k/K or white space does not match the kindergarten pattern |
| GradeInference.NoNumeralPrefix | src/pages/FeedingNutrition.jsx:261-267 | text starting with neither white space nor a digit matches neither prefix pattern when its Roman-letter run is empty, is the whole text, or runs into a character other than white space or a hyphen (`LILAC`, `Music`) |
| GradeInference.GradeWordWins | src/pages/FeedingNutrition.jsx:273-274 | on text not starting with K, k or a digit, whose Roman-letter run is blocked as above (so every way the prefix strategies fail, as for `Music GRADE 3`), an embedded `GRADE n` gives the decimal value of the digit run |
| GradeInference.SectionOnlyFallback | src/pages/FeedingNutrition.jsx:276-286 | on such text with no `GRADE n`, including roster names like `MASAYAHIN & MAPAGBIGAY`, the grade is the first key whose roster holds the normalised text, and null if none does or the text normalises to empty |
| GradeInference.InferredGradeIsLabel | src/pages/FeedingNutrition.jsx:239-287 | an inferred grade is K1, K2 or a decimal numeral |
| GradeInference.NormalizeGradeSection | src/pages/FeedingNutrition.jsx:289-338 | the method with its reassigned `prefix`, `sectionPart` and `inferredGrade` and its break loop returns the display of the specified grade/section pair |
| GradeInference.ResolveGradeSectionShape | src/pages/FeedingNutrition.jsx:289-337 | the output grade is K1, K2, a numeral or UNKNOWN; the section is non-empty and in normal form, so the output is always `"<grade> - <section>"` |
| GradeInference.ResolveBlank | src/pages/FeedingNutrition.jsx:290-337 | empty or all-white-space input gives `"UNKNOWN - UNKNOWN"` |
| GradeInference.NumericPrefixDecides | src/pages/FeedingNutrition.jsx:261-326 | a leading 1-2 digit token followed by a space or hyphen is the output grade, whatever prefix or section follows, since inference runs before the prefix and the roster lookup |
| GradeInference.DashBranch | src/pages/FeedingNutrition.jsx:295-300 | two non-blank dash-separated parts become the trimmed prefix and the trimmed remainder |
| GradeInference.DashSplit | src/pages/FeedingNutrition.jsx:295-300 | `p-rest` with no other dash character splits into the trimmed `p` as prefix and the trimmed `rest` as section part |
| GradeInference.UninferredDashedSplit | src/pages/FeedingNutrition.jsx:289-332 | for such an input that no inference strategy reads and that does not start with K, k or a digit and whose Roman-letter run is blocked (so `Level 3` qualifies): the grade is the parsed prefix, else the first roster owner of the normalised `rest`, else UNKNOWN (the K fallback does not apply) |
| GradeInference.PrefixBeatsSection | src/pages/FeedingNutrition.jsx:310-316 | for such an input a prefix that `parseGradePrefix` accepts is the grade, whatever roster lists the text after the dash |
| GradeInference.SectionBeatsFallback | src/pages/FeedingNutrition.jsx:310-326 | for such an input whose prefix `parseGradePrefix` rejects, the first key whose roster holds the normalised text after the dash is the grade |
| GradeInference.KFallbackUnreachable | src/pages/FeedingNutrition.jsx:328-333 | for single-line input the `K` fallback never fires: inference has already given K1 or K2 |
| GradeExamples.NoPrefixWithoutNumeral | src/pages/FeedingNutrition.jsx:301-307 | without a hyphen, text that does not start with a numeral has no prefix and keeps itself as the section part |
| GradeExamples.KMatchHyphen | src/pages/FeedingNutrition.jsx:245 | after `K-` the captured section is the text after the hyphen |
| GradeExamples.StJohn | src/pages/FeedingNutrition.jsx:289-337 | `"3 - ST. JOHN"` resolves to grade `3`, section `ST. JOHN` |
| GradeExamples.KMasayahin | src/pages/FeedingNutrition.jsx:289-337 | `"K-MASAYAHIN"` resolves to grade K1, section MASAYAHIN |
| GradeExamples.KaalamanOnce | src/pages/FeedingNutrition.jsx:289-337 | `"KAALAMAN & KARUNUNGAN"` resolves to K1 (bare-K default) |
| GradeExamples.KaalamanTwice | src/pages/FeedingNutrition.jsx:289-337 | `"K1 - KAALAMAN & KARUNUNGAN"` resolves to K2 (K2 roster) |
| GradeExamples.NormalizeGradeSectionNotIdempotent | src/pages/FeedingNutrition.jsx:289-337 | normalising the normalised `"KAALAMAN & KARUNUNGAN"` changes it |
| NameMatch.CommasToSpaces | src/pages/FeedingNutrition.jsx:345 | commas become spaces and nothing else changes |
| NameMatch.TokenizeName | src/pages/FeedingNutrition.jsx:342-350 | every token is non-empty and holds no space |
| NameMatch.TokensAreClean | src/pages/FeedingNutrition.jsx:342-350 | every token character is a digit, a lower-case ASCII letter, `_`, an apostrophe or a hyphen |
| NameMatch.JoinTokens | src/pages/FeedingNutrition.jsx:342-355 | the tokens joined by single spaces give back the cleaned, lower-cased name |
| NameMatch.Dedupe | src/pages/FeedingNutrition.jsx:362 | `[...new Set(xs)]` keeps exactly the elements of `xs`, each once |
| NameMatch.CanonicalNameVariants | src/pages/FeedingNutrition.jsx:352-363 | the variant list is never empty |
| NameMatch.FullNameIsVariant | src/pages/FeedingNutrition.jsx:355-362 | the full tokenised name is a non-empty variant |
| NameMatch.VariantsEmptyIffNoTokens | src/pages/FeedingNutrition.jsx:352-363 | all variants are empty exactly when the name has no tokens |
| NameMatch.CommonTokens | src/pages/FeedingNutrition.jsx:376 | the common tokens are exactly those in both lists |
| NameMatch.NamesLooseMatch | src/pages/FeedingNutrition.jsx:365-381 | the method computes the specified loose match |
| NameMatch.SearchVariantPairs | src/pages/FeedingNutrition.jsx:369-380 | the nested loops with early return find a hit exactly when some pair of variants hits |
| NameMatch.NoTokensNoMatch | src/pages/FeedingNutrition.jsx:365-381 | a name without tokens matches nothing, in either position |
| NameMatch.PairMatchesSymmetric | src/pages/FeedingNutrition.jsx:371-377 | the test on one pair of variants is symmetric |
| NameMatch.LooselyMatchSymmetric | src/pages/FeedingNutrition.jsx:365-381 | `namesLooseMatch(a, b)` equals `namesLooseMatch(b, a)` |
| NameMatch.SharedTokenMatches | src/pages/FeedingNutrition.jsx:365-381 | two names sharing a token match |
| NameMatch.ContainedVariantMatches | src/pages/FeedingNutrition.jsx:373 | two names match when one non-empty variant contains another |
| GradeTabSummary.TabRows | src/pages/FeedingNutrition.jsx:662-674 | the tab keeps exactly the pool rows that pass the tab test |
| GradeTabSummary.KindergartenTabs | src/pages/FeedingNutrition.jsx:665-670 | the K1 tab keeps grade parts K1 and K; the K2 tab keeps only K2 |
| GradeTabSummary.NumberedTab | src/pages/FeedingNutrition.jsx:671-673 | a numbered tab keeps grade parts `key` and `GRADE key`, and nothing else |
| GradeTabSummary.PresentCountIsFilter | src/pages/FeedingNutrition.jsx:679-686 | the present count is the number of rows marked Present under their own id or their imported row's id |
| GradeTabSummary.StatusCountsCount | src/pages/FeedingNutrition.jsx:689-693 | the status map's keys are the statuses that occur (missing reads as Unknown), each mapped to its number of rows |
| GradeTabSummary.Summarize | src/pages/FeedingNutrition.jsx:676-693 | the two counting passes produce the total, the present count, the absent count and the status map |
| GradeTabSummary.SummaryConsistent | src/pages/FeedingNutrition.jsx:676-693 | present plus `Math.max(0, total - present)` is the total, and the status counts are exact and sum to the total |
| GradeTabSummary.TableRows | src/pages/FeedingNutrition.jsx:696-711 | the table keeps exactly the rows passing the section, status and search filters |
| GradeTabSummary.NoFiltersKeepAll | src/pages/FeedingNutrition.jsx:696-711 | with All, All and a blank search, every row is kept in order |
| NutritionUpdater.ClassifyBands | src/utils/nutritionUpdater.js:54-58 | < 12 is Severely Wasted, [12, 14) Wasted, [14, 18.5) Normal, [18.5, 23) Overweight, >= 23 Obese; boundaries go up |
| NutritionUpdater.ClassifyUnknownIffNaN | src/utils/nutritionUpdater.js:50-61 | the status stays Unknown exactly when `parseFloat` gave NaN |
| NutritionUpdater.ClassifyMonotone | src/utils/nutritionUpdater.js:54-58 | a larger BMI never gets a lower category |
| NutritionUpdater.LatestIsFirst | src/utils/nutritionUpdater.js:31-37 | each student with a record maps to its first record in the newest-first input |
| NutritionUpdater.StudentsAreKeys | src/utils/nutritionUpdater.js:31-37 | the iteration order lists each mapped student exactly once |
| NutritionUpdater.LatestPerStudent | src/utils/nutritionUpdater.js:31-37 | the `forEach` fill computes that map and order |
| NutritionUpdater.UpdateForDue | src/utils/nutritionUpdater.js:46-66 | an update is made only for a missing, Unknown or `-` status with a non-null, non-NaN BMI, and it carries the record id and the classified status |
| NutritionUpdater.UpdatedStudents | src/utils/nutritionUpdater.js:40-68 | each update belongs to one listed student, whose latest record produced it |
| NutritionUpdater.UpdatesAreDue | src/utils/nutritionUpdater.js:43-67 | every update is due, and every due student gets one |
| NutritionUpdater.OneUpdatePerStudent | src/utils/nutritionUpdater.js:43-67 | no student gets two updates |
| NutritionUpdater.DetermineUpdates | src/utils/nutritionUpdater.js:40-68 | the push loop computes the specified update list |
| NutritionUpdater.BatchesPartition | src/utils/nutritionUpdater.js:81-82 | the slices hold 1 to 20 updates each, there are ceil(n/20) of them, and together they hold every update once, in order |
| NutritionUpdater.BmiStore.Write | src/utils/nutritionUpdater.js:84-87 | one update is appended to the table's write log |
| NutritionUpdater.WriteInBatches | src/utils/nutritionUpdater.js:78-93 | the loop writes exactly the slices of `Batches` (runs of 20, the last one shorter), in order, so every update once, and counts them all |
| NutritionUpdater.RecalculateNutritionStatus | src/utils/nutritionUpdater.js:13-105 | a failed fetch returns failure and writes nothing; no due update returns count 0 and writes nothing; otherwise every due update is written and the count is their number |
| NutritionUpdater.DueUpdatesSound | src/utils/nutritionUpdater.js:19-68 | over the fetched records, the updates belong to distinct students whose latest record is due |
| SchoolData.GradesAreKeys | src/constants/schoolData.js:30 | `GRADES` lists exactly the `SCHOOL_DATA` keys |
| SchoolData.SectionsOf | src/constants/schoolData.js:2-27 | a section list exists exactly for the eight keys |
| SchoolData.KeyOf | src/constants/schoolData.js:34-42 | the if-chain finds a key exactly when the uppercased grade is one of that key's aliases |
| SchoolData.AliasesDisjoint | src/constants/schoolData.js:35-42 | no alias belongs to two keys |
| SchoolData.NormalizeGrade | src/constants/schoolData.js:33-44 | a recognised grade gives a `SCHOOL_DATA` key; anything else is returned as is (not trimmed), and empty input gives Unknown |
| SchoolData.KeysAreAliases | src/constants/schoolData.js:35-42 | every key is one of its own aliases |
| SchoolData.NormalizeGradeToKey | src/constants/schoolData.js:33-44 | a key results exactly when the uppercased input is one of its aliases (K, K1, KINDER 1; K2, KINDER 2; n, GRADE n, Gn) |
| SchoolData.PaddedGradeUnchanged | src/constants/schoolData.js:34-43 | `" 3"` is not recognised and comes back unchanged |
| SchoolData.NormalizeGradeIdempotent | src/constants/schoolData.js:33-44 | normalising twice equals normalising once |
| Normalize.GradeMapLookup | src/utils/normalize.js:13-29 | a `gradeMap` value is K1, K2 or not a `SCHOOL_DATA` key |
| Normalize.NormalizedGrade | src/utils/normalize.js:31-39 | a `gradeMap` hit wins; failing that an exact `SCHOOL_DATA` key stays; failing that an upper-cased key is taken; otherwise the trimmed grade stays |
| Normalize.LowerCaseKeyUpperCased | src/utils/normalize.js:36-37 | `k1` and `k2`, in no `gradeMap` entry and no key as written, become K1 and K2 |
| Normalize.FindIgnoringCase | src/utils/normalize.js:47-49 | the match is the first entry equal to the section ignoring case, or none |
| Normalize.NormalizedSection | src/utils/normalize.js:42-53 | with a section list for the grade, the first case-insensitive match replaces the section; otherwise the section stays |
| Normalize.NormalizeStudentFields | src/utils/normalize.js:3-62 | null gives null; otherwise all other fields are kept, the three fields are set, and the display is `"<grade> - <section>"` |
| Normalize.OnlyKindergartenKeys | src/utils/normalize.js:13-39 | the only `SCHOOL_DATA` keys a normalised grade can be are K1 and K2 |
| Normalize.NumberedSectionKept | src/utils/normalize.js:42-53 | for any grade other than K1 and K2 the trimmed section is kept as is |
| Normalize.MappedGrade | src/utils/normalize.js:33-34 | a `gradeMap` hit sets the grade to the mapped value, and a numbered one keeps the section |
| Normalize.NormalizedGradeIdempotent | src/utils/normalize.js:10-39 | normalising a grade twice equals normalising it once |
| Normalize.NormalizedSectionIdempotent | src/utils/normalize.js:42-53 | canonicalising a trimmed section twice equals doing it once |
| Normalize.NormalizeStudentIdempotent | src/utils/normalize.js:3-62 | `normalizeStudent(normalizeStudent(s))` equals `normalizeStudent(s)` |
| Normalize.KindergartenExample | src/utils/normalize.js:3-62 | grade `K` and section `masayahin` become K1 and MASAYAHIN |
| Normalize.NumberedExample | src/utils/normalize.js:3-62 | grade `3` and section `st. john` become `GRADE 3` and an unchanged `st. john` |
| Reports.Filtered | src/pages/Reports.jsx:99-111 | a row is kept exactly when its grade-section starts with the grade and its status equals the chosen one ignoring case ("All ..." skips the test) |
| Reports.FilteredIsOneFilter | src/pages/Reports.jsx:100-110 | the two successive filters are one filter, and the result is an order-preserving subsequence of the list |
| Reports.AllChoicesKeepEverything | src/pages/Reports.jsx:102-106 | "All Grades" with "All Status" keeps the list as is |
| Reports.CategoryCount | src/pages/Reports.jsx:117-121 | a card counts the rows whose status equals its category exactly |
| Reports.Summarize | src/pages/Reports.jsx:114-123 | total is the filtered length and the five cards sum to at most total |
| Reports.CategoriesBound | src/pages/Reports.jsx:117-121 | the five exact-match counts sum to at most the number of rows |
| Reports.StatusFilterWiderThanCards | src/pages/Reports.jsx:106-117 | a row with status `NORMAL` passes the Normal filter but the Normal card counts 0 of it |

## Left out

- React rendering, hooks and page state are not modelled. The grade-tab
  computation is taken over rows given as input.
- Loading data is not modelled. This covers the Supabase client and its
  queries, the student loaders, the `sessionStorage` cache and `Date.now`.
- The job's database calls are abstracted. The fetch is an input that is
  either a list of records (already sorted newest first) or a failure.
  Each write is an append to `BmiStore`. The writes cannot fail in the
  model.
- The fetch's `.range(0, 9999)` cap is not modelled. The input list is
  whatever the fetch returned.
- The writes inside a batch are modelled one after another. `Promise.all`
  concurrency is left out because the writes are independent.
- `parseFloat` is not modelled. The BMI arrives as an already parsed
  number: NaN, an infinity or a finite real.
- The attendance percentage (`toFixed`) is left out, since it is
  floating-point formatting.
- Case mapping is ASCII only. Non-ASCII `toUpperCase`/`toLowerCase`
  mappings are not modelled.
- `for...in` over `latestBmiMap` is modelled in first-seen order.
  JavaScript lists integer-like student ids first, in ascending order. So
  the model may write the updates in a different order from JavaScript,
  but it writes the same updates.
- Missing or null text fields read as the empty string where the source
  reads them through `|| ""` (the feeding page and `normalizeStudent`).
  Report rows always carry `gradeSection`, `status` and `name`, as
  `mockStudents` does; a missing one would throw at `Reports.jsx` lines
  103 and 107, which the model does not capture. Non-string field values
  (numbers, objects) are not modelled.
- Inherited object properties are not modelled. A grade such as
  `"toString"` or `"constructor"` would hit `gradeMap` or `SCHOOL_DATA`
  through the prototype.
- `normalizeStudent` models the student as a map from field names to
  strings, and the spread of `...student` as map update.
- GradeInference.InferGradeFromRaw: reads a digit run as its exact
  integer. `String(parseInt(..))` in the source rounds runs above 2^53 and
  prints exponent form from 10^21 on; the model agrees below 2^53, and the
  numeric-prefix strategy reads only 1-2 digits.
- GradeInference.InferAfterKindergarten: the same exact reading of the
  embedded `GRADE n` digit run.
- GradeInference.GradeWordWins: states the exact decimal value of the
  digit run, not the rounding of `parseInt` beyond 2^53.
- GradeInference.InferredGradeIsLabel: a decimal numeral is proved for
  the exact reading; beyond 10^21 the source prints an exponent form.
- GradeInference.ResolveGradeSectionShape: the same, for the grade of the
  display.
- GradeInference.NormalizeGradeSection: inherits the exact reading of
  long `GRADE n` digit runs.
- Normalize.FindIgnoringCase: omits the `if (match)` truthiness test. No
  roster entry is empty, so a found match is always truthy.
- The report page's `mockStudents` constant is not modelled. The filter and
  summary are proved for any list of rows.
- The `SCHOOL_DATA` rosters are modelled as constants. Their membership
  facts are proved only where an example needs them.
- `src/pages/StudentTeacher.jsx`, the UI components and the
  browser-automation scripts are not part of this model.
