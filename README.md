# MedCon-60 service core, modelled in Dafny

MedCon-60 is a telemedicine app. Its app talks to four small back-end services.
This project models their request logic and proves properties of it:

- **Disease prediction** (`predict.py`). The symptom dataset is loaded into a
  disease → symptoms table and a disease → treatments table. A request's
  symptoms are normalised and fuzzily matched against every disease with a
  token-sort ratio of at least 70. Each disease is scored by the percentage
  of its own symptoms that were matched. The response holds the five best
  scores, sorted, that are above zero. A classifier's guess at 30% is put in
  front when nothing matched or the best score is under 30, unless that
  disease is already listed. Modules `SymptomMatcher`, `Text`, `Dicts`,
  `Seqs`, `Ranking`.
- **Doctor recommendation** (`find_doctor.py`). It picks the newest symptom
  check of the user and takes that check's five most confident predictions.
  Gemini maps them to specialties; the reply's code fences are removed and
  the text from the first `{` to the last `}` is decoded. Specialty names
  are normalised through a fixed synonym table. Doctors are searched for in
  four passes:
  1. the `specializations` list;
  2. a `specialization` field equal to the name (at most 20);
  3. a `specialty` field equal to the name (at most 20);
  4. a substring fuzzy pass.

  The response holds at most five doctors for the top specialty, up to two for each
  further specialty (eight at most), and all doctors grouped by normalised
  specialty. Modules `Recommendations`, `Doctors`, `Specialties`,
  `GeminiReply`, `Json`.
- **Drug lookup** (`assistance.py`). A disease name is matched in two
  stages, each by the best `fuzz.ratio` (threshold 85 by default):
  1. against the diseases of the symptoms dataset;
  2. that match against the diseases of the formulas dataset.

  The drugs listed for the second match are returned, without repeats. The
  formula search scores every drug with `partial_ratio`, keeps the `limit`
  best and drops those under 60. Module `DrugLookup`.
- **Reminder server** (`server/index.js`). `/schedule` stores a reminder
  (token, dates, time) in memory. A once-a-minute tick first logs every
  reminder. It then sends and removes those due now: today's `YYYY-MM-DD` is
  among their dates and the `HH:MM` time is theirs. Module `ReminderServer`.

Collaborators the code calls but cannot see are parameters of the model:
- the fuzzy scorers (token-sort ratio, `ratio`, `partial_ratio`);
- Python's `round`;
- the BERT classifier;
- Gemini: whether it is configured, its reply, and `json.loads`;
- the clock.

Firestore collections and CSV datasets are sequences of documents or rows,
in stream or file order. Where the code keeps state in place, the model
uses imperative Dafny proved against the functions that specify it:
- the in-memory reminder list (`ReminderService`);
- the loaded tables (`DiseaseTables`);
- the scoring, grouping and search loops.

The model follows the code as written. `predict.py` consults the classifier
whatever the number of symptoms; matching has no exact-name fast path and
no cache; predictions are cut to the five best scores. An empty `user_id`
on `/find-doctors` ends as a 500, because the handler's own `except`
re-raises every exception as a 500. Where the code has a defect (see
"## Findings"), the handler keeps the code's behaviour and a corrected
member with the intended property stands beside it.

## Model

| member | source | states |
|---|---|---|
| SymptomMatcher.NormalizeSymptom | lib/patient/modules/disease/disease_detection/predict.py:64 | a parsed symptom is trimmed and lower-case, is the trimmed lower-case form of its text, and is empty exactly when the text is blank |
| SymptomMatcher.ParseSymptoms | lib/patient/modules/disease/disease_detection/predict.py:62-66 | a text cell gives exactly its comma-separated pieces, in order, each stripped and lower-cased, empty pieces included; any other cell gives none |
| SymptomMatcher.ParseTreatments | lib/patient/modules/disease/disease_detection/predict.py:69-73 | the treatments of a text cell are exactly its comma-separated pieces that are not blank, each trimmed, in order; each is non-empty and trimmed; a non-text cell gives none |
| SymptomMatcher.NonBlankPiecesMeaning | lib/patient/modules/disease/disease_detection/predict.py:71-72 | keeping the pieces whose strip is non-empty and stripping them is the filter by non-blankness followed by trimming |
| SymptomMatcher.CleanValues | lib/patient/modules/disease/disease_detection/predict.py:62-73 | the cleaning loops build, key by key, the same dictionary of parsed lists as the table loader |
| SymptomMatcher.LoadedTables | lib/patient/modules/disease/disease_detection/predict.py:59-73 | both tables have one key per distinct disease, in first-seen order; a disease's symptoms are parsed from the last row that names it |
| SymptomMatcher.DiseaseTables.Load | lib/patient/modules/disease/disease_detection/predict.py:59-73 | the loaded maps are the symptom and treatment tables of the dataset rows |
| SymptomMatcher.StatusInfo | lib/patient/modules/disease/disease_detection/predict.py:84-93 | high risk from 80, moderate from 60, low below 60 (light blue from 50, green under 50); low risk exactly below 60 |
| SymptomMatcher.NormalizeQuery | lib/patient/modules/disease/disease_detection/predict.py:101 | the query has no more symptoms than the request, each non-empty, trimmed and lower-case |
| SymptomMatcher.NormalizeQueryMeaning | lib/patient/modules/disease/disease_detection/predict.py:101 | the query is exactly the request's non-blank symptoms, in order, each normalised: none is dropped that is not blank |
| SymptomMatcher.BlankQueryIsEmpty | lib/patient/modules/disease/disease_detection/predict.py:101 | symptoms that are all blank leave an empty query |
| SymptomMatcher.MatchedByMeaning | lib/patient/modules/disease/disease_detection/predict.py:110-114 | a disease symptom is matched exactly when some user symptom scores at least 70 against it |
| SymptomMatcher.MatchSymptoms | lib/patient/modules/disease/disease_detection/predict.py:110-114 | the nested matching loop computes exactly that set |
| SymptomMatcher.MatchedMonotone | lib/patient/modules/disease/disease_detection/predict.py:110-114 | more user symptoms never match fewer disease symptoms |
| SymptomMatcher.RepeatedSymptomCountsOnce | lib/patient/modules/disease/disease_detection/predict.py:110-114 | repeating a user symptom changes nothing, since matches are a set |
| SymptomMatcher.ScoreAll | lib/patient/modules/disease/disease_detection/predict.py:104-118 | every score belongs to a table disease that has symptoms |
| SymptomMatcher.ScoreAllComplete | lib/patient/modules/disease/disease_detection/predict.py:104-118 | every disease with symptoms is scored |
| SymptomMatcher.EmptySymptomsNeverScored | lib/patient/modules/disease/disease_detection/predict.py:106-107 | a disease without symptoms is skipped |
| SymptomMatcher.ScoreNamesDistinct | lib/patient/modules/disease/disease_detection/predict.py:104-118 | no disease is scored twice |
| SymptomMatcher.ScoreDiseases | lib/patient/modules/disease/disease_detection/predict.py:104-118 | the scoring loop computes exactly the scores of the table |
| SymptomMatcher.ScoreBounds | lib/patient/modules/disease/disease_detection/predict.py:117-118 | a score keeps its disease, matches only that disease's symptoms and lies between 0 and 100 |
| SymptomMatcher.PercentageBounds | lib/patient/modules/disease/disease_detection/predict.py:117 | the percentage lies in 0..100 and grows with the matched count |
| SymptomMatcher.ConfidenceMonotone | lib/patient/modules/disease/disease_detection/predict.py:110-118 | adding user symptoms never lowers a disease's confidence |
| SymptomMatcher.BlankScore | lib/patient/modules/disease/disease_detection/predict.py:110-118 | with no user symptoms a disease scores 0 with nothing matched |
| SymptomMatcher.BlankScoresZero | lib/patient/modules/disease/disease_detection/predict.py:104-118 | with no user symptoms every score is 0 with nothing matched |
| SymptomMatcher.RankedOrder | lib/patient/modules/disease/disease_detection/predict.py:120 | the ranking is sorted by confidence, is a permutation of the scores, and keeps equal confidences in their original order |
| SymptomMatcher.TopPredictions | lib/patient/modules/disease/disease_detection/predict.py:125-137 | the loop builds the entries of the first five ranked scores that are above zero |
| SymptomMatcher.NothingPositive | lib/patient/modules/disease/disease_detection/predict.py:125-126 | when no score is above zero, no entry is built |
| SymptomMatcher.HeuristicShape | lib/patient/modules/disease/disease_detection/predict.py:120-137 | at most five entries, each positive and built from one of the five best scores, in non-increasing confidence |
| SymptomMatcher.HeuristicDistinct | lib/patient/modules/disease/disease_detection/predict.py:120-137 | no disease is listed twice |
| SymptomMatcher.FallbackPolicy | lib/patient/modules/disease/disease_detection/predict.py:140-174 | the list is unchanged, or, when it was empty or led by a score under 30, the classifier's disease is put in front at 30 with the status for 30 if it was not listed; it always is when that holds, and never when the classifier fails |
| SymptomMatcher.FallbackOnEmpty | lib/patient/modules/disease/disease_detection/predict.py:140-171 | an empty list becomes the classifier's single prediction, or stays empty when the classifier fails |
| SymptomMatcher.AddFallback | lib/patient/modules/disease/disease_detection/predict.py:139-174 | the fallback step produces exactly the heuristic list extended by the classifier's disease under the source's conditions |
| SymptomMatcher.FallbackDistinct | lib/patient/modules/disease/disease_detection/predict.py:169-171 | the classifier's disease is appended only when absent, so disease names stay distinct and at most one prediction is added |
| SymptomMatcher.Predict | lib/patient/modules/disease/disease_detection/predict.py:95-98 | a request fails exactly when it lists no symptom |
| SymptomMatcher.PredictionsUnique | lib/patient/modules/disease/disease_detection/predict.py:95-176 | the answer names each disease at most once and holds at most six entries |
| SymptomMatcher.BlankRequest | lib/patient/modules/disease/disease_detection/predict.py:97-176 | a request of blank symptoms passes the emptiness check, matches nothing, and is answered by the classifier alone |
| SymptomMatcher.DiseaseTables.PredictDiseases | lib/patient/modules/disease/disease_detection/predict.py:95-176 | the method answers as the prediction function does on the loaded tables |
| Specialties.LookupKeyShape | lib/patient/modules/disease/disease_detection/find_doctor.py:269 | the lookup key is the lower-cased, stripped name |
| Specialties.NormalizeResult | lib/patient/modules/disease/disease_detection/find_doctor.py:267-302 | the result is a canonical specialty or the name unchanged, and unchanged whenever the key is not a synonym |
| Specialties.CanonicalIsFixed | lib/patient/modules/disease/disease_detection/find_doctor.py:272-300 | each of the ten canonical names normalises to itself |
| Specialties.NormalizeIdempotent | lib/patient/modules/disease/disease_detection/find_doctor.py:267-302 | normalising twice is normalising once |
| Doctors.FirstTruthy | lib/patient/modules/disease/disease_detection/find_doctor.py:506-509 | the `or` chain yields the first truthy field, every earlier one being falsy, or else the last field; it is truthy exactly when one of its fields is |
| Doctors.FirstPassDecides | lib/patient/modules/disease/disease_detection/find_doctor.py:315-337 | the list pass keeps exactly the doctors with a listed specialization that normalises to the target, and when it finds any they are the answer |
| Doctors.DoctorsForShape | lib/patient/modules/disease/disease_detection/find_doctor.py:304-415 | every doctor found is in the collection, and the `specialization` pass yields 1 to 20 doctors when it decides |
| Doctors.ListPass | lib/patient/modules/disease/disease_detection/find_doctor.py:315-332 | the loop keeps exactly the doctors the list pass selects, in order |
| Doctors.HasEntryFor | lib/patient/modules/disease/disease_detection/find_doctor.py:325-332 | a doctor matches exactly when some non-empty listed entry normalises to the target |
| Doctors.FuzzyPassSound | lib/patient/modules/disease/disease_detection/find_doctor.py:373-412 | the fuzzy pass lists each doctor once, and only doctors of the collection whose specialty is related to the target |
| Doctors.FuzzyPassComplete | lib/patient/modules/disease/disease_detection/find_doctor.py:373-412 | every doctor related to the target through its list or, failing that, its singular field is listed by the fuzzy pass |
| Doctors.FuzzyPassStaysFailed | lib/patient/modules/disease/disease_detection/find_doctor.py:373-420 | once the fuzzy pass has raised on some document (a `None` singular field that is stripped), it fails for the whole collection, whatever documents follow |
| Doctors.FuzzySearch | lib/patient/modules/disease/disease_detection/find_doctor.py:373-412 | the loop computes the fuzzy pass, failure included |
| Doctors.DoctorsBySpecialty | lib/patient/modules/disease/disease_detection/find_doctor.py:304-420 | the pass-by-pass search returns what the search function specifies |
| Doctors.NormalizedEntries | lib/patient/modules/disease/disease_detection/find_doctor.py:442-444 | the keys a list gives are exactly the normalised non-empty entries |
| Doctors.GroupKeysNonEmpty | lib/patient/modules/disease/disease_detection/find_doctor.py:448-454 | a doctor without a specializations list is still grouped somewhere |
| Doctors.GroupedMembers | lib/patient/modules/disease/disease_detection/find_doctor.py:422-466 | the grouping is a well-formed map, and a doctor is under a key exactly when the doctor is in the collection and the key is one of the doctor's normalised specialties |
| Doctors.GroupDoctors | lib/patient/modules/disease/disease_detection/find_doctor.py:429-466 | the loop builds that grouping and counts every document |
| Doctors.FileUnder | lib/patient/modules/disease/disease_detection/find_doctor.py:442-447 | filing one doctor under its normalised specialisations gives the same dictionary as the specification of the inner loop |
| Doctors.TruncateTowardZero | lib/patient/modules/disease/disease_detection/find_doctor.py:496 | `int()` truncates toward zero on both signs |
| Doctors.ConvertDoctor | lib/patient/modules/disease/disease_detection/find_doctor.py:473-516 | the card keeps the id, always shows a specialization when the list is empty, takes the rating only from a number, and has a fee exactly when the fee is a number |
| Doctors.DisplayedSpecializationIsAGroup | lib/patient/modules/disease/disease_detection/find_doctor.py:476-483 | the specialization on a card normalises to a group the doctor is listed under |
| Doctors.ConvertGroupsGet | lib/patient/modules/disease/disease_detection/find_doctor.py:646-649 | the converted groups have the same specialties, and each lists the cards of its own doctors, in order |
| Doctors.AllBySpecialtyMembers | lib/patient/modules/disease/disease_detection/find_doctor.py:556-561 | a card is listed under a specialty exactly when it is the card of a doctor of the collection filed under that specialty |
| Doctors.ConvertFirstFrom | lib/patient/modules/disease/disease_detection/find_doctor.py:626 | every recommended card is the conversion of some doctor of the matched specialty |
| GeminiReply.BraceSliceMeaning | lib/patient/modules/disease/disease_detection/find_doctor.py:252-260 | the slice fails exactly when a brace is missing; otherwise it is empty or an occurrence in the text from the first `{` to the last `}` |
| GeminiReply.BraceSliceOf | lib/patient/modules/disease/disease_detection/find_doctor.py:252-256 | prose without braces around a JSON object is cut away exactly |
| GeminiReply.FencedReply | lib/patient/modules/disease/disease_detection/find_doctor.py:244-256 | a reply fenced as "```json" yields exactly the JSON text inside the fence |
| GeminiReply.RemoveAllSkips | lib/patient/modules/disease/disease_detection/find_doctor.py:247-248 | text in which the fence cannot start is copied through |
| Recommendations.LatestIsNewest | lib/patient/modules/disease/disease_detection/find_doctor.py:137-189 | no check exactly when there are none or their times cannot be compared; otherwise the first check among those with the latest time, without the `_doc_id` field |
| Recommendations.LatestPrediction | lib/patient/modules/disease/disease_detection/find_doctor.py:151-183 | the method returns that check, with `_doc_id` removed from the newest document |
| Recommendations.Entries | lib/patient/modules/disease/disease_detection/find_doctor.py:599-603 | the predictions can be read only when every one is a dict |
| Recommendations.TopPredictionsShape | lib/patient/modules/disease/disease_detection/find_doctor.py:598-603 | the top list holds min(n, 5) predictions, sorted by confidence, all from the input, led by the first most confident, with ties kept in input order |
| Recommendations.DiseaseValuesMeaning | lib/patient/modules/disease/disease_detection/find_doctor.py:210 | the names sent to Gemini are the truthy `disease` values of the predictions, every one of them, in order |
| Recommendations.AskWithoutNames | lib/patient/modules/disease/disease_detection/find_doctor.py:194-213 | an unconfigured model fails, and with no disease names the answer is an empty list whatever the model would say |
| Recommendations.AskSucceeds | lib/patient/modules/disease/disease_detection/find_doctor.py:241-265 | success with names means the model answered and a brace slice was found and decoded to an object |
| Recommendations.AskFencedReply | lib/patient/modules/disease/disease_detection/find_doctor.py:243-258 | a fenced reply gives the `recommendations` of the object inside the fence |
| Recommendations.SearchedFrom | lib/patient/modules/disease/disease_detection/find_doctor.py:630-640 | the further specialties searched are distinct, differ from the seed, and each comes from some mapping |
| Recommendations.SearchedComplete | lib/patient/modules/disease/disease_detection/find_doctor.py:630-640 | every mapping's specialty other than the seed is searched |
| Recommendations.SeedAsWrittenRepeatsTop | lib/patient/modules/disease/disease_detection/find_doctor.py:631 | with the seed as written, two mappings without a specialty search "General Practitioner" twice |
| Recommendations.SeedSkipsTop | lib/patient/modules/disease/disease_detection/find_doctor.py:622-640 | with the corrected seed, the top specialty is never searched again and every other one is |
| Recommendations.SeedsAgree | lib/patient/modules/disease/disease_detection/find_doctor.py:622-631 | the two seeds agree whenever the top mapping names a specialty |
| Recommendations.FoundForShape | lib/patient/modules/disease/disease_detection/find_doctor.py:636-639 | at most two doctors per further specialty, each the card of a doctor found for it |
| Recommendations.ListsShape | lib/patient/modules/disease/disease_detection/find_doctor.py:619-663 | for any seed of the seen set: at most 5 recommended, the cards of the top specialty's doctors in order; at most 8 others, at most 2 per further specialty, each found for a specialty other than the seed |
| Recommendations.AssembleShape | lib/patient/modules/disease/disease_detection/find_doctor.py:619-663 | as written: the same bounds, every other doctor found for a specialty other than the one the first mapping names (which may be none) |
| Recommendations.AssembleAsWrittenRepeatsTop | lib/patient/modules/disease/disease_detection/find_doctor.py:622-640 | as written: two mappings without a specialty list the first two "General Practitioner" doctors again as other doctors |
| Recommendations.AssembleCorrectedShape | lib/patient/modules/disease/disease_detection/find_doctor.py:622-640 | corrected seed: the same recommended doctors, and no other doctor is found for the top specialty |
| Recommendations.AssembleCorrectedSkipsTop | lib/patient/modules/disease/disease_detection/find_doctor.py:622-640 | corrected seed: the two mappings without a specialty give no other doctors |
| Recommendations.AssembleLists | lib/patient/modules/disease/disease_detection/find_doctor.py:619-640 | the handler's code assembles exactly the as-written lists |
| Recommendations.SearchOthers | lib/patient/modules/disease/disease_detection/find_doctor.py:628-640 | the loop, with `seen` starting from the first mapping's optional specialty, yields exactly the doctors of the specialties it searches, two per specialty |
| Recommendations.FindDoctorsShape | lib/patient/modules/disease/disease_detection/find_doctor.py:546-673 | an empty id or any exception is a 500; every answer carries all doctors grouped; only a matched answer recommends anyone, and then at most 5 plus 8 |
| Recommendations.Answer | lib/patient/modules/disease/disease_detection/find_doctor.py:605-663 | after the checks, a failure is a 500; a success keeps the grouped doctors, at most 5 recommended and 8 others, and holds no doctors unless Gemini matched |
| Recommendations.AnswerFor | lib/patient/modules/disease/disease_detection/find_doctor.py:605-663 | the handler's final stage computes the specified answer |
| Recommendations.FindDoctorsWithoutChecks | lib/patient/modules/disease/disease_detection/find_doctor.py:565-580 | a user without symptom checks gets all doctors and nothing else |
| Recommendations.FindDoctorsHandler | lib/patient/modules/disease/disease_detection/find_doctor.py:535-673 | the step-by-step handler answers as the handler function does |
| DrugLookup.NormalizeShape | lib/doctor/modules/consultation/medcon_assistance/assistance.py:11 | a normalised name is trimmed and lower-case, and normalising is idempotent |
| DrugLookup.LoadDiseasesMeaning | lib/doctor/modules/consultation/medcon_assistance/assistance.py:17-18 | a disease is loaded exactly when it is the normalised name of a present cell |
| DrugLookup.LoadedFrom | lib/doctor/modules/consultation/medcon_assistance/assistance.py:17-18 | every loaded disease name is the stripped, lower-cased form of a present cell |
| DrugLookup.LoadFormulasMeaning | lib/doctor/modules/consultation/medcon_assistance/assistance.py:10-11 | a formula row is kept exactly when its disease is present, with the disease normalised |
| DrugLookup.FormulaFrom | lib/doctor/modules/consultation/medcon_assistance/assistance.py:10-11 | every loaded formula comes from a row whose disease cell is present, with the disease normalised and the drug kept |
| DrugLookup.LoadFormulasComplete | lib/doctor/modules/consultation/medcon_assistance/assistance.py:10-11 | every row with a disease cell is loaded, normalised |
| DrugLookup.BestMatchMeaning | lib/doctor/modules/consultation/medcon_assistance/assistance.py:25-27 | no match exactly when there is no choice; otherwise the first choice with the highest score |
| DrugLookup.DrugsForMeaning | lib/doctor/modules/consultation/medcon_assistance/assistance.py:43-45 | a drug is listed exactly when a formula row pairs it with the disease, none twice, and in the order of their first rows for that disease |
| DrugLookup.LookupDrugs | lib/doctor/modules/consultation/medcon_assistance/assistance.py:74-111 | a numeric threshold never fails, and any failure is a 500 |
| DrugLookup.FoundMeaning | lib/doctor/modules/consultation/medcon_assistance/assistance.py:21-57 | a found answer is the best symptoms-table match clearing the threshold, then the best formulas-table match for it clearing the threshold, with its distinct non-empty drugs |
| DrugLookup.NotInSymptomsMeaning | lib/doctor/modules/consultation/medcon_assistance/assistance.py:25-29 | the input is reported missing exactly when the symptoms table is empty or its best score is under the threshold |
| DrugLookup.LookupFormula | lib/doctor/modules/consultation/medcon_assistance/assistance.py:31-50 | once the symptom stage has matched, the answer is never "not in symptoms"; with a threshold it always succeeds |
| DrugLookup.BestIsFirstMaximalRow | lib/doctor/modules/consultation/medcon_assistance/assistance.py:25-27 | `extractOne` over a column's `.unique()` values picks the value of the column's first row with the best score |
| DrugLookup.SymptomStageOutcome | lib/doctor/modules/consultation/medcon_assistance/assistance.py:25-31 | with a numeric threshold, an input not reported missing goes on to the formula stage with the first best-scoring symptoms-table disease, which reaches the threshold |
| DrugLookup.FormulaOutcome | lib/doctor/modules/consultation/medcon_assistance/assistance.py:33-48 | with a numeric threshold: no formula exactly when no formula row reaches the threshold; otherwise the match is the first best-scoring formula disease, no drugs exactly when no row pairs it with a drug, and else found with exactly its drugs |
| DrugLookup.ApiMatchesFunction | lib/doctor/modules/consultation/medcon_assistance/assistance.py:63-123 | a body without a name is a 400, and with a name and no threshold the endpoint answers as the lookup function does |
| DrugLookup.ApiErrors | lib/doctor/modules/consultation/medcon_assistance/assistance.py:63-123 | the endpoint fails only with 400 or 500, and only with 400 when the name is text and the threshold a number |
| DrugLookup.AllDrugCellsMeaning | lib/doctor/modules/consultation/medcon_assistance/assistance.py:153 | a drug is a candidate exactly when some formula row lists it |
| DrugLookup.SearchShape | lib/doctor/modules/consultation/medcon_assistance/assistance.py:138-175 | a query shorter than 2 gives no formulas; for a successful call with a query of 2 or more characters, at most `limit` drugs, by descending score, distinct, each scoring at least 60 and listed in the formulas, and all qualifying drugs when the limit covers every drug |
| DrugLookup.SearchMember | lib/doctor/modules/consultation/medcon_assistance/assistance.py:153-170 | every match scores at least 60 under the partial ratio and names a drug of some formula |
| DrugLookup.SearchComplete | lib/doctor/modules/consultation/medcon_assistance/assistance.py:153-170 | when the limit covers every drug, each drug scoring at least 60 is returned with its score |
| ReminderServer.TimeStringFormat | server/index.js:39 | the time string is `HH:MM` and reads back as the hour and the minute |
| ReminderServer.TimeStringInjective | server/index.js:39-40 | two clocks give the same time string exactly when hour and minute agree |
| ReminderServer.DateStringFormat | server/index.js:38 | the date string is the year, then `-MM-DD`, reading back as month and day |
| ReminderServer.DateStringInjective | server/index.js:38-40 | two clocks give the same date string exactly when year, month and day agree |
| ReminderServer.TickPartition | server/index.js:32-56 | when every reminder can be logged, the tick keeps the reminders not due and sends to those due, losing none |
| ReminderServer.TickRemovesDue | server/index.js:36-56 | after a clean tick a reminder is kept exactly when it is not due, a due one is sent, and one at another time is kept |
| ReminderServer.TickKeepsOnlyOld | server/index.js:36-56 | a tick keeps only stored reminders, and none that was due |
| ReminderServer.TickKeepsLogSafe | server/index.js:32-56 | a tick keeps every reminder loggable when all were |
| ReminderServer.StuckTick | server/index.js:32-34 | one reminder whose dates are not an array makes every tick send nothing and remove nothing |
| ReminderServer.StringDatesAccepted | server/index.js:19-40 | a reminder with a string of dates is accepted, after which a due reminder is neither sent nor removed |
| ReminderServer.StoredAsSent | server/index.js:16-22 | a body with truthy token, dates and time is accepted and stored as exactly those three values |
| ReminderServer.AcceptsCheckedSafe | server/index.js:19 | the corrected check accepts only reminders every tick can log |
| ReminderServer.ReminderService.Schedule | server/index.js:16-22 | as written: a body with a truthy token, dates and time is appended and answered 200, anything else 400 |
| ReminderServer.ReminderService.ScheduleChecked | server/index.js:16-22 | corrected: the same, also demanding an array of dates and a string token, and keeping every reminder loggable |
| ReminderServer.ReminderService.Tick | server/index.js:25-57 | the stored reminders and the sends are those of the tick function, and loggability is kept |

## Left out

- Whitespace is the ASCII whitespace of `str.strip` and the regex `\s`: space, tab to carriage return, and `\x1c`-`\x1f`. Non-ASCII spaces such as `\x85` and `\xa0` are not modelled. `str.lower` is modelled on ASCII letters only; Unicode case mappings are not modelled.
- The fuzzy scorers, `round`, the BERT classifier, Gemini's model and `json.loads` are parameters. Their internals are not modelled.
- SymptomMatcher.MatchedBy: matched symptoms are a set, so the order `list(set)` prints them in is not modelled.
- A missing `Treatments` column (`df.get` with a default) is modelled as a column of non-text cells, which yields the same empty treatment lists.
- The `/predict` and `/find-doctors` handlers re-raise the 400 for a bad request as a 500 (predict.py 213-214, find_doctor.py 549-550 with 669-673). `Predict` reports the bad request as an error value; `FindDoctors` returns the 500.
- Firestore is modelled as sequences of documents in stream order. Query errors, network failures and an unavailable database are not modelled apart from an empty collection.
- The equality queries' own ordering is taken to be stream order.
- An exception inside `get_doctors_by_specialty` other than the singular-field strip (which the fuzzy pass models as a failure giving no doctors) is not modelled.
- The second fetch of all doctors in `find_doctors` (find_doctor.py 642-649) is modelled as the same grouping as the first, since the collection does not change within a request.
- Recommendations.ConfidenceOf: a `confidence` that is not a number is treated as uncomparable, so sorting two or more predictions with one ends as a 500. Python would sort predictions whose confidences are all strings (string order), which the model does not.
- ReminderServer.LogSafe: a token that is an array or another non-string value passes to `admin.messaging().send`; that call's own validation is not modelled, so the tick counts a send for it.
- ReminderServer.LogSafe: a `dates` array whose element cannot be turned into text (`{"toString": 0}`, say) makes `join` throw; elements are taken to render.
- Doctors.DoctorDoc: a singular `specialization` or `specialty` that is neither a string nor absent nor `null` is not modelled. Its `.strip()` at find_doctor.py 403 would raise, and the search would return `[]` (416-420).
- Doctors.DoctorDoc: list entries of `specializations` are strings; a non-string entry, which find_doctor.py 391 turns into text with `str(spec)`, is not modelled.
- Recommendations.CreatedAt: keys that are strings or other non-numbers are treated as uncomparable; Python would compare two string keys with each other, which the model does not.
- Recommendations.LatestCheck: `_doc_id` is a field of the document map, removed after the sort as the code does; the document id itself is carried beside it.
- Sorting in place (`docs.sort`) is modelled as a stable value sort of the sequence.
- Doctors.ConvertDoctor: the pydantic validation of the other card fields (a name or phone that is not a string, say) is not modelled; those fields are read as optional strings and integers.
- Message texts, log output and the Gemini prompt wording are not modelled; only the names passed to Gemini are.
- DrugLookup.LimitOf: a `limit` that is not a whole non-negative number is an error (500) in the model; rapidfuzz's own handling of other values is not modelled.
- Duplicate JSON keys in a request body are not modelled; a body is a list of distinct fields.
- The `/api/diseases` and `/api/health` endpoints of assistance.py and the `/` and health routes of find_doctor.py only report static data and are left out.
- Push delivery: sending is modelled as the list of tokens sent to; the messaging result, retries and console logging are not modelled.
- The Flask, FastAPI, express, Firebase and cron setup, CORS and the uvicorn launcher are not modelled.
- Dates use a `Clock` value of year, month, day, hour and minute in local time; time zones and the `Date` object itself are not modelled.

## Findings

| source | as written | input that shows it | evidently intended | confidence | as-written member | corrected member |
|---|---|---|---|---|---|---|
| server/index.js:19-20 | `/schedule` checks only that token, dates and time are truthy, and every tick first logs `dates.join(...)` | a body whose `dates` is the string "2025-01-02"; afterwards no tick sends or removes any reminder, due or not | accept only an array of dates (and a string token) so every tick can run | not executed | ReminderServer.StringDatesAccepted | ReminderServer.ReminderService.ScheduleChecked |
| lib/patient/modules/disease/disease_detection/find_doctor.py:631 | the seen set starts from `.get("specialty")` without the "General Practitioner" default used at 622 and 633 | two mappings without a `specialty`; the top search uses "General Practitioner", it is searched again as an "other" specialty, and its first two doctors are listed twice | seed the seen set with the specialty actually searched for the top disease | not executed | Recommendations.AssembleAsWrittenRepeatsTop | Recommendations.AssembleCorrectedShape |
