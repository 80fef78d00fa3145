# EHR summarization pipeline: the deterministic core, in Dafny

The scripts of this repository turn MIMIC-IV tables and the answers of a
question-answering step into text and matrices. This project models, and
proves properties of, the logic under their pandas and HTTP calls:

- **The prescription summariser** (`ehr_ollama_summarize.py`). It parses
  a structured answer into drug names. It collects the therapeutic classes of
  DRUG_CLASS_MAP once each, builds the prompt, and falls back to a fixed
  sentence. Its `main` fills one summary slot per row and reports progress.
- **Admission-id extraction and per-patient grouping** (`mimicivLifelines.py`,
  `aggregate_patient_summaries.py`).
  - `(HADM_ID|ADMISSION ID)\s*=?\s*(\d+)` is matched case-insensitively by a
    hand-written scanner, proved equal to a declarative description of a match.
  - The id is taken from SQL_Query first, and from NL_Question when the first
    result is falsy.
  - The rows are grouped by id, and each group gets the model's reply or its
    own joined text.
- **Admission row to prose** (`admissionsSQL.py`). `safe_str`, `safe_lower`
  and `row_to_prose` are modelled sentence by sentence. Each sentence is gated
  on the fields it needs.
- **Four per-patient renderers** (`generate_patient_summaries.py`,
  `summarize_all.py`, `summarize_all_patients.py`,
  `longitudinal_story_generator.py`). Each numbers the visits of one patient.
  It lists their distinct diagnoses and drugs, cut at 5, 8 or 10 items, with
  the scripts' suffixes and empty-case texts. The longitudinal story also
  gives day gaps between visits.
- **The feature matrix** (`build_matrix.py`, `finalize_dataset.py`):
  - the top-20 filter;
  - the 0/1 pivot with `max`;
  - the `Dx_`/`Rx_` prefixes;
  - the outer merge with zero fill;
  - the renaming of diagnosis columns to truncated titles.

The source works step by step wherever it appends to a list in a loop or
grows a string with `+=`. There the model is a Dafny `method` with the same
loop, proved equal to a specification function. The lemmas state what the
source promises about that function. pandas selections and sorts, the HTTP
endpoint, and Python's set order are parameters of the model:
- `reply` is an oracle giving the endpoint's text for task i, or None when the
  call raises;
- `endpointUp` is the probe's verdict;
- `listSet` lists a set's values once each, in some order;
- `sortIds` and `sortKeys` give the ascending order of a pivot's axes.

Files: `wrappers.dfy` (Option, Result), `text.dfy` (Python string
operations), `endpoint.dfy`, `admission_id.dfy`, `patient_groups.dfy`,
`admission_prose.dfy`, `clinical.dfy` (the MIMIC tables and the selections
the renderers share), `patient_summaries.dfy`, `summarize_all.dfy`,
`all_patients.dfy`, `longitudinal.dfy`, `feature_matrix.dfy`,
`readable_dataset.dfy`, `prescriptions.dfy`.

## Model

| member | source | states |
|---|---|---|
| AdmissionId.SkipSpaces | pipelineScalingCode/mimicivLifelines.py:36 | `\s*` is greedy: everything skipped is whitespace, and the scan stops at the end or at a non-space |
| AdmissionId.SkipDigits | pipelineScalingCode/mimicivLifelines.py:36 | `\d+` is greedy: everything skipped is a digit, and the scan stops at the end or at a non-digit |
| AdmissionId.Search | pipelineScalingCode/mimicivLifelines.py:36 | re.search finds the leftmost match at or after i, or reports that no position from i on matches |
| AdmissionId.ExtractAdmissionId | pipelineScalingCode/mimicivLifelines.py:30-39 | a non-string gives None; a result is the value read at some position of the text |
| AdmissionId.GapEndSound | pipelineScalingCode/mimicivLifelines.py:36 | what the scanner skips after a label is spaces, at most one '=', then spaces |
| AdmissionId.GapEndComplete | pipelineScalingCode/mimicivLifelines.py:36 | every spaces, optional '=', spaces gap that reaches a digit is the one the scanner takes |
| AdmissionId.MatchAtSound | pipelineScalingCode/mimicivLifelines.py:36-38 | a number read at i comes from a label, a gap and a maximal digit group starting at i |
| AdmissionId.MatchAtComplete | pipelineScalingCode/mimicivLifelines.py:36-38 | every label/gap/digit-group match at i is read by the scanner, giving the value of the digit group |
| AdmissionId.ExtractSound | pipelineScalingCode/mimicivLifelines.py:36-38 | an extracted id is the digit group of a match, and no match starts further left |
| AdmissionId.ExtractNoneIff | pipelineScalingCode/mimicivLifelines.py:36-39 | None is returned for a string exactly when the pattern matches nowhere in it |
| AdmissionId.LeftmostMatchWins | pipelineScalingCode/mimicivLifelines.py:36-38 | the leftmost position where a match starts decides the id |
| AdmissionId.LabelledIdFound | old_pipeline_for_reference/code_pipeline/aggregate_patient_summaries.py:34-36 | "HADM_ID = " followed by digits to the end, with no earlier match, yields those digits' value |
| AdmissionId.DocumentedExample | old_pipeline_for_reference/code_pipeline/aggregate_patient_summaries.py:27-36 | the documented input "SELECT ... WHERE PRESCRIPTIONS.HADM_ID = 113333" yields 113333 |
| AdmissionId.ShortTextHasNoId | old_pipeline_for_reference/code_pipeline/aggregate_patient_summaries.py:34-37 | text shorter than a label holds no id |
| AdmissionId.PatientIdOr | pipelineScalingCode/mimicivLifelines.py:45-48 | Python `or`: a non-zero SQL id wins; None or a parsed 0 falls through to the question; 0 survives only from the question |
| AdmissionId.MissingFieldHasNoId | old_pipeline_for_reference/code_pipeline/aggregate_patient_summaries.py:43-47 | a missing or empty field reads as "None"/"nan" and gives no id, so the other field alone decides |
| PatientGroups.GroupKeys | pipelineScalingCode/mimicivLifelines.py:56 | the group keys are the distinct ids in ascending order; rows without an id belong to no group |
| PatientGroups.Members | pipelineScalingCode/mimicivLifelines.py:56-58 | a group's members are among its rows' summaries, no more of them than rows |
| PatientGroups.MembersExactly | pipelineScalingCode/mimicivLifelines.py:56-58 | a member is exactly a non-null summary of a row carrying that id |
| PatientGroups.MembersAppend | old_pipeline_for_reference/code_pipeline/aggregate_patient_summaries.py:53-55 | members keep row order: two runs of rows give the first run's members followed by the second's |
| PatientGroups.GroupTextCases | pipelineScalingCode/mimicivLifelines.py:56-58 | a group whose summaries are all null has the empty text, and a group with one member has that member as its text |
| PatientGroups.GroupOutcomes | pipelineScalingCode/mimicivLifelines.py:60-96 | exactly one output row per group key, in key order, carrying that key |
| PatientGroups.SummarizeGroup | pipelineScalingCode/mimicivLifelines.py:63-91 | one pass of the loop gives the stripped reply to the group's prompt, or the group's text |
| PatientGroups.GroupResults | old_pipeline_for_reference/code_pipeline/aggregate_patient_summaries.py:57-78 | the appending loop over the groups produces GroupOutcomes |
| PatientGroups.SummarizePatients | pipelineScalingCode/mimicivLifelines.py:45-96 | the error is raised exactly when no row yields an id, with the script's message; otherwise the result is one row per group |
| PatientGroups.FallbackIsGroupText | old_pipeline_for_reference/code_pipeline/aggregate_patient_summaries.py:68-73 | with the endpoint down or the call raising, a group's output is its text unchanged |
| AdmissionProse.SafeStrSpec | pipelineScalingCode/admissionsSQL.py:9-13 | safe_str is None exactly for a null or blank value, and otherwise str(value), never empty |
| AdmissionProse.SafeLowerSpec | pipelineScalingCode/admissionsSQL.py:3-7 | safe_lower is a value exactly for a non-blank string, and then its lower-case form, with no upper-case letter |
| AdmissionProse.RowToProse | pipelineScalingCode/admissionsSQL.py:15-76 | the conditional appends produce the sentences, joined by single spaces |
| AdmissionProse.AddTimes | pipelineScalingCode/admissionsSQL.py:19-27 | the times section appends the stay sentence, then the admission-id sentence, each when due |
| AdmissionProse.AddDeath | pipelineScalingCode/admissionsSQL.py:29-32 | the death section appends its sentence when due |
| AdmissionProse.AddTypeAndProvider | pipelineScalingCode/admissionsSQL.py:34-41 | the type section appends its sentence, with or without the provider clause |
| AdmissionProse.AddLocations | pipelineScalingCode/admissionsSQL.py:43-47 | the location section appends its sentence when due |
| AdmissionProse.AddDemographics | pipelineScalingCode/admissionsSQL.py:49-58 | the parts list is built by conditional appends and emitted when non-empty |
| AdmissionProse.AddRace | pipelineScalingCode/admissionsSQL.py:60-63 | the race section appends its sentence when due |
| AdmissionProse.AddEdTimes | pipelineScalingCode/admissionsSQL.py:65-69 | the ED section appends its sentence when due |
| AdmissionProse.AddExpireFlag | pipelineScalingCode/admissionsSQL.py:71-74 | the expire-flag section appends its sentence when due |
| AdmissionProse.SentencesNonEmpty | pipelineScalingCode/admissionsSQL.py:17-74 | no emitted sentence is empty |
| AdmissionProse.ProseEmptyIff | pipelineScalingCode/admissionsSQL.py:76 | the prose is "" exactly when no sentence is emitted |
| AdmissionProse.NullRowHasNoSentences | pipelineScalingCode/admissionsSQL.py:15-76 | an all-null row yields no sentence |
| AdmissionProse.StayGate | pipelineScalingCode/admissionsSQL.py:20-25 | the admitted/discharged sentence appears exactly when subject_id, admittime and dischtime are all present |
| AdmissionProse.SingleFieldGates | pipelineScalingCode/admissionsSQL.py:23-74 | the admission-id, death, race and expire-flag sentences each appear exactly when their field is present |
| AdmissionProse.ExpireFlagZero | pipelineScalingCode/admissionsSQL.py:72-74 | a 0 flag is still reported, as "Hospital expire flag: 0." |
| AdmissionProse.ProviderChoice | pipelineScalingCode/admissionsSQL.py:36 | the provider is admitprovider_id when truthy, otherwise admitting_provider_id; a NaN admitprovider_id is truthy, so it gives no provider |
| AdmissionProse.TypeGate | pipelineScalingCode/admissionsSQL.py:35-41 | the type sentence appears exactly for a non-blank admission_type; it has the provider clause exactly when a provider is present |
| AdmissionProse.LocationGate | pipelineScalingCode/admissionsSQL.py:44-47 | the location sentence appears exactly when either location is present |
| AdmissionProse.LocationFromUnknown | pipelineScalingCode/admissionsSQL.py:47 | a missing arrival location reads "unknown" |
| AdmissionProse.LocationToUnknown | pipelineScalingCode/admissionsSQL.py:47 | a missing discharge location reads "unknown" |
| AdmissionProse.EdGate | pipelineScalingCode/admissionsSQL.py:66-69 | the ED sentence appears exactly when either ED time is present |
| AdmissionProse.EdRegUnknown | pipelineScalingCode/admissionsSQL.py:69 | a missing registration time reads "unknown" |
| AdmissionProse.EdOutUnknown | pipelineScalingCode/admissionsSQL.py:69 | a missing ED-out time reads "unknown" |
| AdmissionProse.DemographicsGate | pipelineScalingCode/admissionsSQL.py:50-58 | the demographics sentence appears exactly when one of its three fields is present; the parts are exactly "Insurance: …", "Language: …" and "Marital status: …" (lowercased) for the present fields, in that order, and the sentence is their ", " join with a final "." |
| Clinical.TitlesForExactly | pipelineScalingCode/generate_patient_summaries.py:15 | one diagnosis row merges with exactly the dictionary entries of its code and version |
| Clinical.MergeTitlesExactly | pipelineScalingCode/generate_patient_summaries.py:15 | the inner merge holds exactly the pairs of a diagnosis row and a dictionary entry with the same code and version |
| Clinical.PatientAdmissionsExactly | pipelineScalingCode/generate_patient_summaries.py:20 | the selection holds exactly the patient's admission rows |
| Clinical.VisitTitlesExactly | pipelineScalingCode/generate_patient_summaries.py:34 | a visit's titles are exactly the merged titles of that hadm_id |
| Clinical.VisitDrugsExactly | pipelineScalingCode/generate_patient_summaries.py:36 | a visit's drugs are exactly the prescriptions of that hadm_id |
| Clinical.ShownOfSet | pipelineScalingCode/summarize_all_patients.py:35-44 | a set listed and cut at `cap` shows distinct values of the input, all of them when few enough, and hides one exactly when the listing is longer than `cap` |
| Clinical.DatePart | pipelineScalingCode/generate_patient_summaries.py:31 | the date is the admittime text up to, not including, its first space |
| Clinical.SubjectIdsHaveAdmissions | old_pipeline_for_reference/code_pipeline/summarize_all.py:52 | every id of `subject_id.unique()` has an admission |
| Clinical.CapHidesIff | pipelineScalingCode/generate_patient_summaries.py:45-46 | a cut list of distinct items hides one exactly when it is longer than the cap, so the suffixes mark real omissions |
| Clinical.ShownTitles | pipelineScalingCode/generate_patient_summaries.py:34-42 | the first `cap` unique titles: at most `cap`, no repeats, each a title of the visit, all of them when fewer |
| Clinical.ShownDrugs | pipelineScalingCode/generate_patient_summaries.py:36-51 | the same for the drugs of a visit |
| Clinical.CapKeeps | old_pipeline_for_reference/code_pipeline/summarize_all.py:39-40 | a cut keeps the first-seen order and distinctness of the items it shows |
| PatientSummaries.SummaryLines | pipelineScalingCode/generate_patient_summaries.py:25-57 | two header lines plus one item per admission |
| PatientSummaries.DraftParagraph | pipelineScalingCode/generate_patient_summaries.py:39-55 | the paragraph grown with `+=` is the visit paragraph |
| PatientSummaries.SummarizePatient | pipelineScalingCode/generate_patient_summaries.py:18-59 | the appending loop produces the patient summary |
| PatientSummaries.NoRecordsIff | pipelineScalingCode/generate_patient_summaries.py:22-23 | "No records found for Patient {id}." is returned exactly for a patient without admissions |
| PatientSummaries.ParagraphHeading | pipelineScalingCode/generate_patient_summaries.py:40 | every paragraph opens with "ADMISSION {i} ({date}):" |
| PatientSummaries.SummaryHeader | pipelineScalingCode/generate_patient_summaries.py:25-26 | the first lines are the banner and the admission count |
| PatientSummaries.SummaryNumbering | pipelineScalingCode/generate_patient_summaries.py:29-31 | item k+2 is the k-th admission in admittime order, numbered k+1 and dated by its date part |
| PatientSummaries.FindingsOthersIff | pipelineScalingCode/generate_patient_summaries.py:42-48 | ", among others." follows the findings exactly when a distinct diagnosis is left out |
| PatientSummaries.NoTreatmentEnding | pipelineScalingCode/generate_patient_summaries.py:54-55 | with no drug the paragraph ends with the no-prescriptions sentence |
| PatientSummaries.OtherMedicationsEnding | pipelineScalingCode/generate_patient_summaries.py:50-53 | with more than five drugs it ends with " and other medications." |
| PatientSummaries.ListedTreatmentEnding | pipelineScalingCode/generate_patient_summaries.py:50-51 | with one to five drugs it ends with all of them listed, without a full stop |
| SummarizeAll.SummaryParts | old_pipeline_for_reference/code_pipeline/summarize_all.py:26-47 | the count sentence plus one paragraph per admission |
| SummarizeAll.DraftParagraph | old_pipeline_for_reference/code_pipeline/summarize_all.py:29-46 | the computed paragraph is the visit paragraph, lists cut at eight |
| SummarizeAll.Generate | old_pipeline_for_reference/code_pipeline/summarize_all.py:18-49 | the appending loop produces generate_summary |
| SummarizeAll.Collected | old_pipeline_for_reference/code_pipeline/summarize_all.py:57-63 | no more results than patients |
| SummarizeAll.CollectResults | old_pipeline_for_reference/code_pipeline/summarize_all.py:52-63 | the driver loop collects the non-empty summaries in `unique()` order |
| SummarizeAll.WriteBlocks | old_pipeline_for_reference/code_pipeline/summarize_all.py:78-82 | the write loop produces the concatenated blocks |
| SummarizeAll.EmptyIff | old_pipeline_for_reference/code_pipeline/summarize_all.py:22-23 | the summary is "" exactly for a patient without admissions |
| SummarizeAll.ParagraphHeading | old_pipeline_for_reference/code_pipeline/summarize_all.py:43 | every paragraph opens with " Visit {i} ({date}): " |
| SummarizeAll.SummaryNumbering | old_pipeline_for_reference/code_pipeline/summarize_all.py:28-30 | part k+1 is the k-th admission, numbered k+1 and dated by its date part |
| SummarizeAll.EmptyListsText | old_pipeline_for_reference/code_pipeline/summarize_all.py:39-40 | empty lists read "No recorded diagnoses" and "No recorded medications" |
| SummarizeAll.CollectedKeepsAll | old_pipeline_for_reference/code_pipeline/summarize_all.py:60-63 | when every listed patient has an admission, each gets one result, in list order |
| SummarizeAll.EveryPatientKept | old_pipeline_for_reference/code_pipeline/summarize_all.py:52-63 | every patient of the table has a result, in order of first appearance |
| SummarizeAll.BlockLayout | old_pipeline_for_reference/code_pipeline/summarize_all.py:80-82 | a block is 50 dashes, the id line, then the summary and a blank line |
| AllPatients.BlockLines | pipelineScalingCode/summarize_all_patients.py:27-53 | the banner, one item per admission, and the separator |
| AllPatients.DraftVisit | pipelineScalingCode/summarize_all_patients.py:30-50 | the text built with `+=` is the visit summary |
| AllPatients.GetPatientSummary | pipelineScalingCode/summarize_all_patients.py:19-54 | the appending loop produces get_patient_summary, None for no admissions |
| AllPatients.WriteAll | pipelineScalingCode/summarize_all_patients.py:57-67 | the driver writes the blocks of the patients with a summary, in `unique()` order |
| AllPatients.EveryPatientWritten | pipelineScalingCode/summarize_all_patients.py:63-67 | no patient the driver goes through is skipped |
| AllPatients.BlockLayout | pipelineScalingCode/summarize_all_patients.py:27-54 | a block opens with the banner counting the visits and ends with 60 dashes and a new line |
| AllPatients.VisitNumbering | pipelineScalingCode/summarize_all_patients.py:29-31 | item k+1 is the k-th admission, numbered k+1 and dated by its date part |
| AllPatients.DiagnosesText | pipelineScalingCode/summarize_all_patients.py:35-41 | the diagnoses line shows "No recorded diagnoses" when the visit has none; otherwise it shows at most 10 distinct titles of the visit, with "..." exactly when some are hidden |
| AllPatients.MedicationsText | pipelineScalingCode/summarize_all_patients.py:36-44 | the same for the medications line |
| Longitudinal.StoryLines | pipelineScalingCode/longitudinal_story_generator.py:33-69 | the header, the tracked line, one paragraph per admission, and the closing line |
| Longitudinal.DraftParagraph | pipelineScalingCode/longitudinal_story_generator.py:44-63 | given the previous discharge, the computed paragraph is the story paragraph of that visit |
| Longitudinal.GenerateStory | pipelineScalingCode/longitudinal_story_generator.py:21-69 | the loop carrying prev_discharge produces the story, None for no admissions |
| Longitudinal.WriteAll | pipelineScalingCode/longitudinal_story_generator.py:72-81 | the driver writes the stories of the patients with one |
| Longitudinal.GapFloor | pipelineScalingCode/longitudinal_story_generator.py:59 | the gap is the floor of the difference in days, negative exactly for an admission before the previous discharge |
| Longitudinal.EveryPatientWritten | pipelineScalingCode/longitudinal_story_generator.py:78-81 | no patient the driver goes through is skipped |
| Longitudinal.StoryLayout | pipelineScalingCode/longitudinal_story_generator.py:29-69 | the story opens with the header, tracks first and last dates and the visit count, and ends with 60 '=' and a new line |
| Longitudinal.TimelineHeadings | pipelineScalingCode/longitudinal_story_generator.py:51-63 | exactly the first paragraph is INITIAL PRESENTATION; later ones are READMISSION with the gap to the previous discharge |
| Longitudinal.DiagnosisTextShown | pipelineScalingCode/longitudinal_story_generator.py:45-46 | "unknown conditions" exactly for a visit without diagnoses; otherwise at most 5 distinct titles of the visit |
| FeatureMatrix.MostFrequent | pipelineScalingCode/build_matrix.py:20 | a candidate no other outnumbers |
| FeatureMatrix.Without | pipelineScalingCode/build_matrix.py:20 | removing one candidate keeps the others, distinct |
| FeatureMatrix.Select | pipelineScalingCode/build_matrix.py:20 | n distinct candidates (or all), none outnumbered by one left out |
| FeatureMatrix.TopKeys | pipelineScalingCode/build_matrix.py:20 | a valid `value_counts().head(n)` choice always exists |
| FeatureMatrix.KeptExactly | pipelineScalingCode/build_matrix.py:21 | the isin filter keeps exactly the records with a top key |
| FeatureMatrix.Pivot | pipelineScalingCode/build_matrix.py:36-42 | the pivot has the given axes, rectangular and 0/1 |
| FeatureMatrix.OuterMerge | pipelineScalingCode/build_matrix.py:61 | the merge is rectangular, with the left columns then the right ones |
| FeatureMatrix.PivotTableCell | pipelineScalingCode/build_matrix.py:36-42 | a cell is 0 or 1, and 1 exactly when a record pairs its admission and key; duplicates never give 2 |
| FeatureMatrix.PivotRow | pipelineScalingCode/build_matrix.py:36-37 | an admission has a row exactly when one of its records has a top key |
| FeatureMatrix.PivotColumn | pipelineScalingCode/build_matrix.py:38 | a key has a column exactly when it is a top key that some record carries |
| FeatureMatrix.PivotTableAxes | pipelineScalingCode/build_matrix.py:36-42 | rows and columns ascend, each once, and there are no more columns than top keys |
| FeatureMatrix.PivotRowsOnce | pipelineScalingCode/build_matrix.py:37 | each admission has at most one row |
| FeatureMatrix.PivotVerdict | pipelineScalingCode/build_matrix.py:36-42 | the value of admission h in column j: 1 when a record pairs them, else 0, a missing row counting as 0 |
| FeatureMatrix.OuterMergeRows | pipelineScalingCode/build_matrix.py:61 | merged rows are the union of both sides' admissions, ascending |
| FeatureMatrix.OuterMergeCell | pipelineScalingCode/build_matrix.py:61 | a merged cell is its side's cell for that admission, or 0 when that side has no row |
| FeatureMatrix.DiagnosisRecordsHaving | pipelineScalingCode/build_matrix.py:21 | a diagnosis of h with a top code is a kept record of h |
| FeatureMatrix.PrescriptionRecordsHaving | pipelineScalingCode/build_matrix.py:27 | a prescription of h with a top drug is a kept record of h |
| FeatureMatrix.LeftPivotCell | pipelineScalingCode/build_matrix.py:44-61 | a merged cell on the left pivot's side is that pivot's 0/1 verdict |
| FeatureMatrix.RightPivotCell | pipelineScalingCode/build_matrix.py:55-61 | a merged cell on the right pivot's side is that pivot's 0/1 verdict |
| FeatureMatrix.BuildMatrixRow | pipelineScalingCode/build_matrix.py:20-61 | an admission has a row exactly when it has a top-code diagnosis or a top-drug prescription; rows ascend |
| FeatureMatrix.BuildMatrixWidth | pipelineScalingCode/build_matrix.py:20-55 | at most 20 diagnosis columns come first, then at most 20 prescription columns |
| FeatureMatrix.DiagnosisColumnName | pipelineScalingCode/build_matrix.py:44 | each diagnosis column is "Dx_" plus a top code that some diagnosis carries |
| FeatureMatrix.PrescriptionColumnName | pipelineScalingCode/build_matrix.py:55 | each prescription column is "Rx_" plus a top drug that some prescription names |
| FeatureMatrix.DiagnosisCell | pipelineScalingCode/build_matrix.py:36-61 | a diagnosis cell of the merged matrix is 1 exactly when a diagnosis of that admission has the column's code |
| FeatureMatrix.PrescriptionCell | pipelineScalingCode/build_matrix.py:47-61 | a prescription cell is 1 exactly when a prescription of that admission names the column's drug |
| ReadableDataset.CodeMapKeys | pipelineScalingCode/finalize_dataset.py:27 | code_map is keyed by exactly the dictionary's codes, whatever the version |
| ReadableDataset.CodeMapLastWins | pipelineScalingCode/finalize_dataset.py:27 | a code maps to the title of its last dictionary row |
| ReadableDataset.ReadableNameShape | pipelineScalingCode/finalize_dataset.py:33-34 | a new name is "Dx_" plus at most 20 leading characters of the title, or "Dx_Unknown" for an unmapped code |
| ReadableDataset.RenameColumns | pipelineScalingCode/finalize_dataset.py:30-36 | one new name per column, same count and order |
| ReadableDataset.Finalize | pipelineScalingCode/finalize_dataset.py:16-36 | the pivot's rows and 0/1 cells are unchanged, and only the columns are renamed |
| PrescriptionSummary.NormalizeDrugName | old_pipeline_for_reference/code_pipeline/ehr_ollama_summarize.py:286-287 | the key is trimmed, no longer than the name, and has no upper-case letter |
| PrescriptionSummary.NormalizeIdempotent | old_pipeline_for_reference/code_pipeline/ehr_ollama_summarize.py:286-287 | normalising twice is normalising once |
| PrescriptionSummary.StripNonBlank | old_pipeline_for_reference/code_pipeline/ehr_ollama_summarize.py:295 | the kept parts are non-empty and stripped |
| PrescriptionSummary.ParseDrugList | old_pipeline_for_reference/code_pipeline/ehr_ollama_summarize.py:289-295 | a non-string or an empty body gives []; every element is non-empty, trimmed and comma-free |
| PrescriptionSummary.ParseDrugListEmptyIff | old_pipeline_for_reference/code_pipeline/ehr_ollama_summarize.py:292-295 | [] exactly when the stripped body holds only whitespace and commas |
| PrescriptionSummary.ParseJoinRoundTrip | old_pipeline_for_reference/code_pipeline/ehr_ollama_summarize.py:289-295 | names joined with ", " parse back to the same names in the same order |
| PrescriptionSummary.ParseSingleBody | old_pipeline_for_reference/code_pipeline/ehr_ollama_summarize.py:292-295 | a body that is one name parses to that name |
| PrescriptionSummary.ParseSingleEnclosed | old_pipeline_for_reference/code_pipeline/ehr_ollama_summarize.py:292 | "(name)" parses to the name |
| PrescriptionSummary.ParseEatsClosingParen | old_pipeline_for_reference/code_pipeline/ehr_ollama_summarize.py:292 | `strip("()")` also eats a name's own closing parenthesis |
| PrescriptionSummary.LookupFinds | old_pipeline_for_reference/code_pipeline/ehr_ollama_summarize.py:302 | dict.get finds a value only when it is paired with the key, and None only when the key is absent |
| PrescriptionSummary.DetectClasses | old_pipeline_for_reference/code_pipeline/ehr_ollama_summarize.py:297-306 | the loop with its `seen` set produces the classes specification |
| PrescriptionSummary.ClassesAreUnique | old_pipeline_for_reference/code_pipeline/ehr_ollama_summarize.py:297-306 | the classes are the drugs' truthy classes, in drug order, with each repeat after the first dropped |
| PrescriptionSummary.ClassesFirstSeenOrder | old_pipeline_for_reference/code_pipeline/ehr_ollama_summarize.py:297-306 | a class listed earlier first occurs earlier among the drugs' truthy classes: first-seen order |
| PrescriptionSummary.ClassesDistinct | old_pipeline_for_reference/code_pipeline/ehr_ollama_summarize.py:297-306 | no class repeats, and there are no more classes than drugs |
| PrescriptionSummary.ClassesSound | old_pipeline_for_reference/code_pipeline/ehr_ollama_summarize.py:300-305 | every class is the non-empty class of one of the drugs |
| PrescriptionSummary.ClassesComplete | old_pipeline_for_reference/code_pipeline/ehr_ollama_summarize.py:300-305 | every drug's truthy class is listed |
| PrescriptionSummary.ClassNamesNonEmpty | old_pipeline_for_reference/code_pipeline/ehr_ollama_summarize.py:254-282 | no class in DRUG_CLASS_MAP is empty, so none is dropped as falsy |
| PrescriptionSummary.ClassNotUnknown | old_pipeline_for_reference/code_pipeline/ehr_ollama_summarize.py:254-282 | no class in DRUG_CLASS_MAP is named "unknown" |
| PrescriptionSummary.MedicationFieldLists | old_pipeline_for_reference/code_pipeline/ehr_ollama_summarize.py:309 | the prompt shows "None" for no drugs, and otherwise a list that parses back to the drugs |
| PrescriptionSummary.MedicationFieldAmbiguous | old_pipeline_for_reference/code_pipeline/ehr_ollama_summarize.py:309 | a drug named "None" gives the same prompt as no drug |
| PrescriptionSummary.ClassFieldUnknownIff | old_pipeline_for_reference/code_pipeline/ehr_ollama_summarize.py:310 | the class field is "unknown" exactly when no class was detected |
| PrescriptionSummary.FallbackIsSentence | old_pipeline_for_reference/code_pipeline/ehr_ollama_summarize.py:353-360 | every fallback is non-empty and ends with "." |
| PrescriptionSummary.FallbackNoPrescriptionsIff | old_pipeline_for_reference/code_pipeline/ehr_ollama_summarize.py:354-355 | "No prescriptions found in this record." exactly for no drugs |
| PrescriptionSummary.FallbackSpansClasses | old_pipeline_for_reference/code_pipeline/ehr_ollama_summarize.py:356-357 | with a known class, the fallback spans the detected classes, each once and each some drug's class |
| PrescriptionSummary.FallbackListsFirstFive | old_pipeline_for_reference/code_pipeline/ehr_ollama_summarize.py:358-360 | for any non-empty drug list with no class, it shows the first five drugs in order (all of them when there are at most five), and " (and others)" exactly when there are more |
| PrescriptionSummary.FallbackNamesParseBack | old_pipeline_for_reference/code_pipeline/ehr_ollama_summarize.py:358-360 | the names shown in the class-less fallback parse back to the shown drugs, when those are names parse_drug_list could produce |
| PrescriptionSummary.Head | old_pipeline_for_reference/code_pipeline/ehr_ollama_summarize.py:444-445 | df.head(limit) is a prefix of the rows: all of them without a limit, `limit` of them, or all but the last -limit |
| PrescriptionSummary.MarksExactly | old_pipeline_for_reference/code_pipeline/ehr_ollama_summarize.py:474-476 | the progress lines so far are exactly the counts that are multiples of 10 or the total, ascending |
| PrescriptionSummary.ProgressMarksExactly | old_pipeline_for_reference/code_pipeline/ehr_ollama_summarize.py:474-481 | at the end every multiple of 10 and the total are reported, once each, ascending, the total last |
| PrescriptionSummary.SummarizeOne | old_pipeline_for_reference/code_pipeline/ehr_ollama_summarize.py:462-479 | a slot holds the stripped reply or the fallback, and always the fallback with no endpoint |
| PrescriptionSummary.ReportProgress | old_pipeline_for_reference/code_pipeline/ehr_ollama_summarize.py:474-476 | one more completed row adds its progress line exactly when due |
| PrescriptionSummary.FillSlots | old_pipeline_for_reference/code_pipeline/ehr_ollama_summarize.py:460-481 | one slot per row, each the reply to its own prompt or its own fallback, and the full progress report |
| PrescriptionSummary.SummarizeRows | old_pipeline_for_reference/code_pipeline/ehr_ollama_summarize.py:444-486 | one output row per kept input row, with drug_list joined by "; ", drug_classes by ", ", and the row's own slot |
| PrescriptionSummary.SlotsOfPrefix | old_pipeline_for_reference/code_pipeline/ehr_ollama_summarize.py:444-460 | a slot depends only on its own row, so `--limit` does not change the kept rows' summaries |
| PrescriptionSummary.NoEndpointAllFallback | old_pipeline_for_reference/code_pipeline/ehr_ollama_summarize.py:477-479 | with the probe failing, every slot is the row's fallback |
| PrescriptionSummary.DrugClassesColumnEmptyIff | old_pipeline_for_reference/code_pipeline/ehr_ollama_summarize.py:485 | drug_classes is "" exactly when no class was detected |

## Left out

- The HTTP probe and request (`check_ollama_running`, `call_ollama`) are not modelled. The probe is the parameter `endpointUp`. A request is the oracle `reply(i, prompt)`: the "response" text, or None when the request raised. The model's temperature, token limit and timeouts are not modelled.
- The ThreadPoolExecutor fan-out is modelled as slots filled one by one in index order. Completion order only changes the order of the stderr warnings. The progress count is modelled as rows completed in index order.
- File and console I/O is not modelled: CSV and gzip reading, `to_csv`, the text-file writes (modelled only as the text written), prints and warnings, argparse, environment variables and `--workers`/`--model`.
- The missing-file and missing-column exits of the live `main` (ehr_ollama_summarize.py:433-442) are not modelled. The model starts from rows that have the three columns.
- pandas selections and sorts are inputs:
  - `sort_values('admittime')` gives the admissions already in admittime order, so ties keep table order;
  - `value_counts().head(20)` is any top list satisfying `IsTop`, so ties among equal counts are left open;
  - the ascending order of pivot and merge axes is the parameters `sortIds`/`sortKeys`;
  - groupby's dropping of NaN keys and its ascending key order are modelled directly.
- Python's set order (summarize_all_patients.py:35-36, longitudinal_story_generator.py:45) is the parameter `listSet`. Only de-duplication and the caps are stated, not the order.
- Dates: `pd.to_datetime` and `strftime('%Y-%m-%d')` are modelled as the admittime text before its first space. Time differences are modelled as integer seconds, and the gap is their floor division by 86400.
- Lowercasing and whitespace are ASCII only. The digits `\d` matches in `extract_admission_id` (mimicivLifelines.py:36, aggregate_patient_summaries.py:34) are ASCII only too; Python's `\d` also accepts other Unicode decimal digits, which the model does not.
- A NaN drug or NaN `long_title` is not modelled: the renderers' `", ".join` would raise TypeError on it, while the model's drug and title fields are always strings.
- A NaT `dischtime` is not modelled: the source then prints the gap as "nan days later" (longitudinal_story_generator.py:42, 59-61), while the model's discharge time is always an integer.
- A missing "summary" column is not modelled: the groupby raises KeyError (mimicivLifelines.py:56, aggregate_patient_summaries.py:53), while the model's rows always carry a summary.
- The row order of an inner merge is taken to be the left frame's order, as pandas 2.2 and later give it. Earlier pandas versions group the rows by key, which the model does not capture.
- Ids are natural numbers. The float ids pandas gives a column holding NaN are not modelled.
- The commented-out earlier versions in ehr_ollama_summarize.py (lines 1-221 and 364-422) are not modelled.
- The test driver of generate_patient_summaries.py (lines 61-73), which prints the first three patients and saves one, is not modelled. The drivers' progress prints are not modelled either.
- The per-row `apply` and the file write of admissionsSQL.py (lines 84-96) are not modelled beyond `row_to_prose`.
- The printed previews of the matrices are not modelled.
- pipelineScalingCode/visualize_complex_lifeline.py, pipelineScalingCode/analyze_mimic.py and old_pipeline_for_reference/code_pipeline/testing.py are not part of this model.
