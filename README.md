# Admission score engine — Dafny model

The system computes a university-admission converted score for a student's
college-entrance exam results against the scoring setup of each department
the student chose. The model covers two parts:

- **The analysis route (`POST /`).** It normalises the stored exam payload
  (keyed by Subject id) onto the roles korean, math, english,
  korean_history, inquiry1 and inquiry2. It then resolves one score per
  subject slot for every chosen department. Next it combines those scores by
  the department's plain ratios, or by priority groups that fill the ratio
  left after the mandatory subjects with the best candidates. It adds the
  Korean history bonus and rounds to two decimals. Finally it builds one
  result entry per department that produced a score, sorts the entries by
  converted score, and wraps them in the response envelope.
- **The department-choice table (`routes/school.js`).** A user may choose
  a department once and hold at most three choices. Choices can be deleted
  by id and listed per user.

Database lookups are inputs to the model:

- the ExamScore row;
- the Subject table as an id-to-name map;
- the user's chosen departments, each with its DepartmentScoreConfig and
  GradeConversion rows;
- the CollegeMaxScore rows.

JavaScript truthiness is modelled explicitly: `x || d`, `x || null`, and
`&&` guards all treat 0 like a missing value. Scores and ratios are `real`.
`Math.round` rounds to the nearest integer, a half going up.

Modules, in dependency order:

| file | module | contents |
|---|---|---|
| wrappers.dfy | Wrappers | `Option` |
| js_numbers.dfy | JsNumbers | truthiness helpers, `Math.round`, two-decimal rounding, `toFixed(2)`, `slice(0, n)` |
| seqs.dfy | Seqs | keeping the defined images of a sequence, in order |
| stable_sort.dfy | StableSort | the stable descending sort `Array.prototype.sort` performs with a `b - a` comparator |
| normalizer.dfy | Normalizer | convertScoreData, convertScoresToStandardFormat |
| policy.dfy | Policy | Department, DepartmentScoreConfig, GradeConversion and CollegeMaxScore records |
| resolvers.dfy | Resolvers | getSubjectScore, getInquiryScore, the grade map, getHistoryScore, getDefaultEnglishScore, the max-score map, getMaxScore |
| evaluator.dfy | Evaluator | calculateDepartmentScore, calculateBasicRatio, calculateWithPriorityGroup, getSubjectRatioScore, calculateSpecialFormula |
| evaluator_facts.dfy | EvaluatorFacts | properties of the evaluator |
| analysis.dfy | Analysis | the analysis route: checks, result entries, ranking, envelope |
| choices.dfy | Choices | the UserChoice table and its three routes |

Each loop of the source that updates variables is a method, except two:
the `maxScores.forEach` that builds `maxScoreMap`, which is the recursive
function `Resolvers.RowsToMap`, and the `subjects.forEach` that builds
`subjectMap` from the Subject table (routes/Analyzeroutes.js:187-189),
which the model takes as the input `subjectMap`. Each method is proved equal to a
specification function, and the properties are lemmas about those
functions. The choice table is a class whose `rows` field the add and
delete routes reassign.

## Model

| member | source | states |
|---|---|---|
| JsNumbers.MathRound | routes/Analyzeroutes.js:501 | `Math.round`: the result is within half of the argument (a half rounds up) |
| JsNumbers.Round2 | routes/Analyzeroutes.js:420 | `Math.round(x*100)/100` is a whole number of hundredths within 0.005 of x |
| JsNumbers.Round2Monotone | routes/Analyzeroutes.js:420 | rounding to two decimals preserves order |
| JsNumbers.ToFixed2 | routes/Analyzeroutes.js:138 | `toFixed(2)` gives a number of hundredths within 0.005 of x, equal to the rounded value for non-negative x |
| JsNumbers.SliceTo | routes/Analyzeroutes.js:507 | `slice(0, n)` is a prefix of length min(n, len), or len+n floored at 0 for negative n |
| StableSort.SortDesc | routes/Analyzeroutes.js:496 | the sorted list is a permutation of the input, ordered by descending key |
| StableSort.SortDescIsStable | routes/Analyzeroutes.js:152 | elements of equal key keep their input order |
| StableSort.PrefixHoldsTop | routes/Analyzeroutes.js:507 | after sorting, every element of a prefix has a key at least that of every element after it |
| Normalizer.ConvertScoreData | routes/Analyzeroutes.js:244-254 | null exactly for missing data; each score field is kept unless it is missing or 0, which become null; grade is truncated toward zero and null when that gives 0 |
| Normalizer.ConvertScoresToStandardFormat | routes/Analyzeroutes.js:181-241 | the converted object is the in-order fold of the per-entry rules over the payload entries |
| Normalizer.UnknownIdsSkipped | routes/Analyzeroutes.js:194-199 | entries whose id has no truthy subject name leave the result as if they were absent |
| Normalizer.NormalizedHasNoZeroFields | routes/Analyzeroutes.js:181-254 | no stored subject score has a 0 field |
| Normalizer.NormalizedKeys | routes/Analyzeroutes.js:206-237 | a role is a key of the result exactly when some entry's subject name assigns it |
| Normalizer.MainRoleLastWins | routes/Analyzeroutes.js:206-220 | korean, math, english and korean_history hold the conversion of the `default` record of the last entry of that subject kind |
| Normalizer.InquiryEntryRules | routes/Analyzeroutes.js:222-237 | an inquiry entry sets inquiry1 from 탐구1 and inquiry2 from 탐구2; `default` fills inquiry1 only while it is unset; other roles are untouched |
| Resolvers.GetSubjectScore | routes/Analyzeroutes.js:561-588 | the field the score type names, or null when the role is unset, the type is unknown or the field is 0/null; never 0 |
| Resolvers.GetInquiryScore | routes/Analyzeroutes.js:591-646 | null without an inquiry1 score (inquiry2 never substitutes); count 1 gives the max and count 2 the average when inquiry2 has a score; otherwise the inquiry1 score |
| Resolvers.InquiryScoreBetween | routes/Analyzeroutes.js:627-645 | whatever the count, the inquiry score lies between the two inquiry scores |
| Resolvers.GradeMapLastWins | routes/Analyzeroutes.js:284-290 | the grade map has an entry for (code, grade) exactly when a row has them, holding the last such row's score |
| Resolvers.GradeMapFindsEveryRow | models/GradeConversion.js:35-37 | with (subject_code, grade) unique per department, every conversion row is found in the grade map |
| Resolvers.GetHistoryScore | routes/Analyzeroutes.js:675-690 | 0 without a grade; a non-zero K_HISTORY entry wins; otherwise 10 for grades 1–5, 20−2g for grades 6–9, and 0 for any other grade |
| Resolvers.GetDefaultEnglishScore | routes/Analyzeroutes.js:693-709 | 0 without a grade; max × (21−g)/20 for grades 1–9 (100% down to 60% in 5% steps); 0 outside the table |
| Resolvers.DefaultEnglishMonotone | routes/Analyzeroutes.js:696-708 | a better grade never gets a lower default English score |
| Resolvers.RowsToMapLastWins | routes/Analyzeroutes.js:103-106 | a code is a key exactly when some row has it, and holds the max_standard_score of the last such row |
| Resolvers.MaxScoreTable | routes/Analyzeroutes.js:99-113 | KOR_MAX, MATH_MAX and INQUIRY_MAX are always present and non-zero: the year's value when truthy, else 150, 150 and 70; every other code is a key exactly as in the year's rows, with the same value |
| Resolvers.GetMaxScore | routes/Analyzeroutes.js:649-672 | never 0; 200 or 100 for the fixed methods; the year maxima with 150/150/70 fallbacks for highest_of_year on korean/math/inquiry, 100 for other subjects; otherwise the configured max or 100 |
| Evaluator.EnglishScore | routes/Analyzeroutes.js:318-328 | a non-zero ENGLISH conversion entry for the grade first; otherwise, for fixed_max_score with a truthy max, max × (21−g)/20 for grades 1–9 and 0 for a missing or out-of-table grade; otherwise no English score |
| Evaluator.CollectLastWins | routes/Analyzeroutes.js:297-338 | a slot gets a score exactly when some config yields one for it, and it holds the last such config's score |
| Evaluator.SubjectRatioScore | routes/Analyzeroutes.js:532-545 | null exactly when the subject type has no stored score; otherwise the score times the ratio (0 when the ratio is unset) |
| Evaluator.DepartmentScore | routes/Analyzeroutes.js:257-355 | no score exactly when there are no configs or the calculation type is neither 기본비율 nor 특수공식; a score is a whole number of hundredths |
| Evaluator.BuildGradeMap | routes/Analyzeroutes.js:284-290 | the grade-map loop builds the map whose entries GradeMapLastWins describes |
| Evaluator.CollectSubjectScores | routes/Analyzeroutes.js:297-338 | the collection loop builds the slot map whose entries CollectLastWins describes |
| Evaluator.CalculateDepartmentScore | routes/Analyzeroutes.js:257-355 | the grade-map loop, the collection loop and the dispatch compute DepartmentScore |
| Evaluator.CalculateBasicRatio | routes/Analyzeroutes.js:358-421 | priority-group mode once any config has a priority_group, else the four ratio terms plus the history bonus, rounded |
| Evaluator.GroupConfigs | routes/Analyzeroutes.js:427-435 | `groups[g]` lists the configs of group g in order, and the keys are the groups in first-appearance order |
| Evaluator.SumGroupZero | routes/Analyzeroutes.js:441-458 | the group-0 loop computes the group-0 total and group0RatioSum |
| Evaluator.CollectCandidates | routes/Analyzeroutes.js:469-488 | the candidate loop builds exactly Candidates(members, subjectScores, ratios), which CandidatesAreEligible shows are the members with a stored score and a positive ratio, each weighted by that ratio |
| Evaluator.SumScores | routes/Analyzeroutes.js:510-513 | the loop over the selected candidates adds up exactly their scores, Sum(selected) |
| Evaluator.SumSelectionGroup | routes/Analyzeroutes.js:466-511 | one selection group adds the sum of its selected candidates |
| Evaluator.SumPriorityGroups | routes/Analyzeroutes.js:427-513 | the group loops compute group 0's total plus every other group's selection |
| Evaluator.CalculateWithPriorityGroup | routes/Analyzeroutes.js:424-529 | priority-group total plus the history bonus, rounded |
| Evaluator.CalculateSpecialFormula | routes/Analyzeroutes.js:548-558 | both branches give the basic ratio score |
| EvaluatorFacts.SpecialFormulaIsBasicRatio | routes/Analyzeroutes.js:343-354 | a 특수공식 department scores exactly as the same department under 기본비율 |
| EvaluatorFacts.HistoryAddModesAgree | routes/Analyzeroutes.js:410-416 | A_ADD and B_ADD give the same department score |
| EvaluatorFacts.PlainRatioIsWeightedSum | routes/Analyzeroutes.js:367-420 | the plain score is the rounded Σ score × ratio over the four slots, a slot without a stored score or with an unset or 0 ratio contributing nothing, plus the Korean history score exactly for A_ADD and B_ADD |
| EvaluatorFacts.PlainRatioMonotone | routes/Analyzeroutes.js:367-420 | with non-negative ratios, raising the stored scores never lowers the plain ratio score |
| EvaluatorFacts.MembersAreTheGroup | routes/Analyzeroutes.js:429-435 | a config is in group g exactly when its priority_group (null counting as 0) is g |
| EvaluatorFacts.GroupKeysAreTheGroups | routes/Analyzeroutes.js:429-462 | the groups iterated are exactly those that occur, each once |
| EvaluatorFacts.CandidatesAreEligible | routes/Analyzeroutes.js:468-490 | candidates are exactly the configs with a stored score and a positive ratio, each weighted by that ratio |
| EvaluatorFacts.SelectionIsTop | routes/Analyzeroutes.js:496-507 | the selection is drawn from the candidates, and every selected candidate scores at least as high as every one left out |
| EvaluatorFacts.TiesKeepDeclarationOrder | routes/Analyzeroutes.js:496 | candidates of equal weighted score keep declaration order |
| EvaluatorFacts.SelectionCountFromTopRatio | routes/Analyzeroutes.js:498-501 | the count is round((1 − group0RatioSum) / ratio of the best candidate), and the 0.333 fallback never applies |
| EvaluatorFacts.TwoOfTwoSelected | routes/Analyzeroutes.js:498-511 | a group-0 ratio of 0.6 with two 0.2-ratio candidates selects both |
| Analysis.MakeEntry | routes/Analyzeroutes.js:130-141 | id, school name, department name, division and region are copied from the department; totalScore defaults to 1000 and is never 0; percentage is the score share to two decimals; cutlineScore is the department's cutline when truthy and null otherwise; isPassed is set only for a truthy cutline, and is score ≥ cutline |
| Analysis.Analysis | routes/Analyzeroutes.js:16-178 | count equals the number of results; success exactly when there are results and no message; the checks fail in the handler's order with their own messages (missing userId/mode, no stored scores, nothing left after conversion, no choices); a request passing them all carries Ranked(departments, Normalized(scores)), failing with NothingComputable when that is empty |
| Analysis.Analyze | routes/Analyzeroutes.js:16-170 | the handler's checks, per-department loop and sort compute Analysis |
| Analysis.EntryOf | routes/Analyzeroutes.js:121-149 | a department contributes an entry exactly when it is listed (a score and a School), and then its result entry |
| Analysis.CollectedAreTheListed | routes/Analyzeroutes.js:121-149 | the entries are those of the departments with a score and a School, exactly one for each, in choice order |
| Analysis.UnconfiguredDepartmentOmitted | routes/Analyzeroutes.js:267-270 | every result comes from a department that has score configs |
| Analysis.RankedIsSortedPermutation | routes/Analyzeroutes.js:152 | results are sorted by converted score, highest first, are a permutation of the collected entries, and ties keep choice order |
| Analysis.SuccessCarriesRanking | routes/Analyzeroutes.js:155-168 | success holds exactly when every check passes and the ranking of the normalised scores is non-empty, and a successful response carries that ranking, sorted |
| Choices.AfterAdd | routes/school.js:57-81 | a rejected add leaves the table as it was; a successful one appends exactly one row for that user and department |
| Choices.ChoiceTable.Add | routes/school.js:57-81 | missing field, duplicate pair and cap are checked in this order; the table and the id counter change only on success; the table stays valid |
| Choices.ChoiceTable.Delete | routes/school.js:106-108 | the table loses exactly the rows with that id and stays valid |
| Choices.ChoiceTable.ChoicesOf | routes/school.js:31-36 | exactly the user's rows, as many as the user's count |
| Choices.AddCountsOneRow | routes/school.js:75-81 | a successful add raises the adding user's count by one and no other user's |
| Choices.AddKeepsCap | routes/school.js:75-78 | the add route never takes a user past three choices |
| Choices.AddKeepsPairsUnique | models/UserChoice.js:11-16 | the add route never stores a (user, department) pair twice |
| Choices.FullUserIsRefused | routes/school.js:75-78 | a user with three choices is refused and the table is unchanged |
| Choices.WithoutIdRemovesOnlyThatId | routes/school.js:108 | after a delete, a row remains exactly when it was there and has another id |
| Choices.DeleteNeverRaisesCount | routes/school.js:108 | a delete never raises any user's count |
| Choices.DeleteKeepsInvariants | routes/school.js:108 | a delete keeps ids fresh, pairs unique and every user within the cap |
| Choices.ForUserIsTheUsersRows | routes/school.js:33-35 | the listing holds exactly the user's rows, as many as the count query counts |
| Choices.FourthChoiceRefused | routes/school.js:75-78 | from an empty table, three distinct adds succeed and a fourth is refused |

## Left out

- Database access (Sequelize `findAll`/`findOne`/`count`/`create`/`destroy`), `JSON.parse` of a string payload, and logging. Lookups are inputs, and the choice table is a field.
- HTTP status codes, Express plumbing, and the outer `catch` that answers 500. The envelope is a datatype, and a `Reason` stands for each failure message.
- Exceptions inside the per-department `try`. The one the model keeps is a department without a School, which `dept.School.name` would throw on; it is skipped. A null Department in a choice, and database errors, are not modelled.
- Floating-point artefacts and NaN. Inputs are already-parsed optional reals (None for a missing or NaN field), and arithmetic is exact over reals. The string-to-number parsing inside `parseFloat`/`parseInt` is not modelled.
- `percentage` is a string made by `toFixed(2)`. It is modelled as the number it prints, rounded half away from zero; exact binary-float rounding is not modelled.
- `toLowerCase` is modelled on ASCII letters only, so the subject classification is approximate: a name holding a non-ASCII letter that JavaScript lowercases to an ASCII one (U+212A KELVIN SIGN becomes "k") matches a subject in JavaScript but not in the model.
- `Object.entries` enumeration order. Payload entries and priority groups are taken in the order given; JavaScript lists integer keys in ascending order. Group totals are summed, so group order cannot change the score.
- The in-place sorts (`results.sort`, `candidateScores.sort`) are modelled on values, by a stable sort function. Aliasing of the sorted array is not modelled.
- `maxScoreMap` is built (Resolvers.MaxScoreTable), but calculateDepartmentScore never reads it, and no code shown calls getMaxScore.
- The `special_formula` text is never parsed; only the fallback to the ratio calculation is modelled.
- The response formatting of the choice routes (the Department and School lookups after `create` and in the listing). It reads the stored rows and changes nothing.
- Concurrency between the duplicate and count checks and `create` in POST `/choices`. Requests are taken one at a time, and the unique index is the `PairsUnique` invariant.
- Ids arriving as strings in route parameters are taken as integers.
- routes/auth.js, middleware/authMiddleware.js and routes/examScoreRoutes.js (OAuth, JWT and cookies, an upsert wrapper) are not part of this model.
- The rule-based evaluator models (DepartmentScoreRule, DepartmentSubjectConfig) are not part of this model; no code shown uses them.
