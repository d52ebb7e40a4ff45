# fichaPTSCER4 in Dafny

A verified model of the core of fichaPTSCER4, a web application for
rehabilitation centres. A team of professionals uses it to fill in a patient's
interdisciplinary therapeutic plan ("ficha PTS"). It also scores the patient's
functional independence on the MIF scale (Medida de Independência Funcional,
levels 1 to 7). The model covers:

- **MifAiService** (`lib/mif-ai-service.ts`): the rule-based MIF suggestion
  engine. It weighs each level by its keywords and negative keywords, adjusts
  the weights by the decision history, picks the heaviest level (or a fallback
  based on word count), and ranks up to three alternatives. It also finds the
  keywords, writes the explanation and computes the confidence. The history
  log is capped at 100 entries and persisted.
- **MifSuggestion** (`components/mif-suggestion.tsx`): the suggestion widget's
  state machine (analyse, pick, cancel, confirm), which feeds the history.
- **MifAnalytics** (`components/mif-analytics-dashboard.tsx`): accuracy, score
  and field distributions, the confusion matrix, the most common choice and
  field-name formatting.
- **MifSummary** (`components/mif-summary.tsx`): the MIF total, average and
  colour bands.
- **FormProgress** (`components/form-progress.tsx`): the 14 sections of the
  form, their 97 fields and 9 required fields, and the weighted progress
  percentage.
- **Specialty** (`components/especialidade-context.tsx`): which specialties see
  which fields, and the cyclic navigation over the relevant fields.
- **TemplateManager** (`components/template-manager.tsx`): saving, loading,
  filtering and deleting a specialty's templates.
- **ReportBuilder** (`components/report-builder.tsx`): section selection, the
  specialty presets, anonymised export and file names.
- **PdfDocument** (`components/pdf-document.tsx`): which sections the PDF
  prints, its MIF summary and the section-id mismatch listed under Findings.
- **LocalStorage** (`lib/local-storage-service.ts`): the offline store of
  pending operations and cached rows.
- **Database** (`services/database-service.ts`): the patient, evaluation,
  section and MIF tables, their invariants, and the error messages.
- **PtsForm** (`components/pts-form.tsx`): the form's tab navigation, section
  loading and saving, and the submit flow that builds the PDF data.
- **AvaliacoesPage** (`app/avaliacoes/page.tsx`): the evaluation list, its
  search, deletion and duplication.
- **Text** and **Js**: the JavaScript string and value semantics the core
  relies on (`toLowerCase`, `includes`, `trim`, truthiness, `||`,
  `Number.parseInt`, `Math.round`).

Numbers follow the source exactly where it matters:

- The engine's fractional weights (+1 per keyword, -0.5 per negative keyword,
  +0.5 or +0.75 per history entry, -0.3 for an overridden suggestion) are
  integers scaled by 20.
- Confidences and probabilities are exact `real`s.
- `Math.round` is `floor(x + 1/2)` on exact rationals.

State that the components keep in React hooks or module variables becomes a
`class` whose methods change it. Pure computations become functions, and
each loop of the source becomes a `method` proved against a function.

## Model

| member | source | states |
|---|---|---|
| MifAiService.Levels | lib/mif-ai-service.ts:23-167 | the seven MIF levels, valued 1 to 7 in order |
| MifAiService.KeywordWeightsClosedForm | lib/mif-ai-service.ts:205-233 | a level's keyword weight is max(0, 20·positive hits − 10·negative hits), and every weight is non-negative |
| MifAiService.KeywordOverlaps | lib/mif-ai-service.ts:33 | keywords overlap as substrings: "50%" of level 3 also hits "0%" of level 1, and "independente" of level 7 also hits the negative "dependente" (see also lib/mif-ai-service.ts:71, lib/mif-ai-service.ts:149, lib/mif-ai-service.ts:163) |
| MifAiService.AfterNegativesClosedForm | lib/mif-ai-service.ts:224-229 | clamping at zero after each negative keyword equals one clamp of the total |
| MifAiService.CalculateScoreByKeywords | lib/mif-ai-service.ts:205-233 | the forEach loops compute exactly the per-level keyword weights |
| MifAiService.RelevantIndicesExact | lib/mif-ai-service.ts:238-243 | the relevant history is exactly the entries whose field name is equal to the asked name, or where either name contains the other's first five characters anywhere, in log order |
| MifAiService.AnalyzeHistoryPatterns | lib/mif-ai-service.ts:236-266 | the loop over relevant entries computes the history-adjusted weights |
| MifAiService.RecordDecision | lib/mif-ai-service.ts:250-263 | one entry adds its recency bonus to the chosen level and takes 0.3 (clamped) from an overridden suggestion |
| MifAiService.HistoryAdjustedWellFormed | lib/mif-ai-service.ts:236-266 | history adjustment keeps all seven weights non-negative |
| MifAiService.NoRelevantHistoryUnchanged | lib/mif-ai-service.ts:245 | with no relevant entry the weights come back unchanged |
| MifAiService.EmptyFieldNameMatchesAll | lib/mif-ai-service.ts:238-243 | an empty field name makes every entry relevant (its five-character prefix is empty) |
| MifAiService.RecencyWindowIsNine | lib/mif-ai-service.ts:252 | `indexOf > length - 10` gives the 1.5 factor to the last nine entries only, not ten |
| MifAiService.IntendedRecencyBonus | lib/mif-ai-service.ts:251-252 | the bonus the comment describes: 15 exactly for the last ten positions, 10 for every earlier one |
| MifAiService.IntendedRecencyWindowIsTen | lib/mif-ai-service.ts:251-252 | position n - 10 is inside the intended window and n - 11 outside, and the intended bonus differs from the one as written at position n - 10 only |
| MifAiService.ScanMaxProperties | lib/mif-ai-service.ts:291-301 | the scan finds the first level of maximal positive weight, and keeps the default 5 when every weight is 0 |
| MifAiService.SelectBest | lib/mif-ai-service.ts:291-301 | the forEach over the weights computes that scan |
| MifAiService.FallbackScore | lib/mif-ai-service.ts:303-315 | fewer than 5 words gives 7, more than 30 gives 3, otherwise 5 (each in both directions) |
| MifAiService.SumBounds | lib/mif-ai-service.ts:318 | the total weight is non-negative and bounds every weight |
| MifAiService.CandidatesSound | lib/mif-ai-service.ts:320-327 | every alternative is another level with positive weight, and its probability is weight/total |
| MifAiService.CandidatesComplete | lib/mif-ai-service.ts:320-327 | every other level with positive weight is an alternative |
| MifAiService.CandidatesOfZero | lib/mif-ai-service.ts:320-327 | with all weights zero there is no alternative |
| MifAiService.CollectAlternatives | lib/mif-ai-service.ts:317-327 | the loop builds exactly those candidates, in ascending score order |
| MifAiService.ProbabilityBounds | lib/mif-ai-service.ts:324 | a positive weight over the total is a probability in (0, 1] |
| MifAiService.Insert | lib/mif-ai-service.ts:330 | one insertion step of the stable sort is a permutation |
| MifAiService.SortByProbability | lib/mif-ai-service.ts:330 | the sort is a permutation of its input |
| MifAiService.InsertOrdered | lib/mif-ai-service.ts:330 | insertion keeps the list ordered by descending probability, ties by ascending score |
| MifAiService.SortByProbabilityOrdered | lib/mif-ai-service.ts:330 | sorting alternatives given in ascending score order yields that order |
| MifAiService.TakeOrdered | lib/mif-ai-service.ts:333 | the first three alternatives stay ordered and are drawn from the list |
| MifAiService.FoundKeywords | lib/mif-ai-service.ts:336-344 | the found keywords are exactly the level keywords occurring in the text, without duplicates |
| MifAiService.CollectKeywords | lib/mif-ai-service.ts:336-344 | the nested forEach loops compute the found keywords |
| MifAiService.CollectLevelKeywords | lib/mif-ai-service.ts:338-343 | the inner loop extends the found keywords by one level's keywords |
| MifAiService.Explanation | lib/mif-ai-service.ts:346-358 | the explanation starts with the header naming the field label and the chosen score, names each of the first three matched keywords, holds the chosen level's description, and names the top alternative's score when there is one |
| MifAiService.Confidence | lib/mif-ai-service.ts:360 | confidence is 0.5 without evidence and in (0.5, 0.95] with it |
| MifAiService.AnalyzeMifScore | lib/mif-ai-service.ts:269-370 | analyzeMIFScore on a history snapshot computes the specification `Analysis` |
| MifAiService.BlankTextResult | lib/mif-ai-service.ts:270-279 | blank text gives score 5, confidence 0, no keywords and no alternatives |
| MifAiService.ConfidenceBounds | lib/mif-ai-service.ts:360 | for non-blank text the confidence lies in [0.5, 0.95] |
| MifAiService.TopAlternativesProperties | lib/mif-ai-service.ts:317-333 | at most three ordered alternatives, each another positively weighted level with probability weight/total in (0, 1] |
| MifAiService.AlternativesProperties | lib/mif-ai-service.ts:317-333 | the analysis result's alternatives have those properties for the final weights |
| MifAiService.KeywordsProperties | lib/mif-ai-service.ts:336-344 | the result's keywords are distinct, and a keyword is listed iff it is a level keyword found in the text |
| MifAiService.ExplanationNamesScore | lib/mif-ai-service.ts:346-347 | the result's explanation names the chosen score |
| MifAiService.ChosenScoreOfWeights | lib/mif-ai-service.ts:291-301 | with some positive weight, the chosen score has maximal weight and no lower score has as much |
| MifAiService.ChosenScoreIsMaximal | lib/mif-ai-service.ts:291-360 | with evidence, the result's score is the first level of maximal final weight, and its confidence exceeds 0.5 |
| MifAiService.FallbackWithoutEvidence | lib/mif-ai-service.ts:303-327 | without evidence, the word-count fallback decides, the confidence is 0.5 and there are no alternatives |
| MifAiService.FinalWeightsWellFormed | lib/mif-ai-service.ts:286-289 | the weights after history adjustment are seven non-negative numbers |
| MifAiService.Bounded | lib/mif-ai-service.ts:191-193 | the log keeps its last 100 entries: a suffix of length min(n, 100) |
| MifAiService.AnalysisHistoryStore.Load | lib/mif-ai-service.ts:173-185 | a saved log replaces the memory, an unreadable one empties it, a missing one leaves it |
| MifAiService.AnalysisHistoryStore.Save | lib/mif-ai-service.ts:188-196 | saving trims the log to its last 100 entries and persists it |
| MifAiService.AnalysisHistoryStore.Add | lib/mif-ai-service.ts:199-202 | the entry is appended, the log trimmed and persisted, and the entry is last |
| MifAiService.AnalysisHistoryStore.Analyze | lib/mif-ai-service.ts:269-283 | an empty log is loaded before a non-blank analysis, and the result is `Analysis` over the log |
| MifAiService.AddAllKeepsMostRecent | lib/mif-ai-service.ts:199-202 | adding entries one by one keeps the same log as trimming once |
| MifAiService.BoundedAppend | lib/mif-ai-service.ts:188-202 | trimming before an append changes nothing after the next trim |
| MifSuggestion.ScoreColor | components/mif-suggestion.tsx:83-88 | red for scores up to 2, amber up to 4, blue up to 6, green above (each in both directions) |
| MifSuggestion.ConfidenceColor | components/mif-suggestion.tsx:91-96 | red below 0.5, amber below 0.7, blue below 0.9, green from 0.9 (each in both directions) |
| MifSuggestion.SuggestionNeverRed | components/mif-suggestion.tsx:91-96 | the confidence of a suggestion for non-blank text is never shown in red |
| MifSuggestion.SuggestionWidget.constructor | components/mif-suggestion.tsx:29-34 | the widget starts idle, with no analysis, no selection and the history not loaded |
| MifSuggestion.SuggestionWidget.Mount | components/mif-suggestion.tsx:37-42 | the first mount loads the shared history once |
| MifSuggestion.SuggestionWidget.AnalyzeMif | components/mif-suggestion.tsx:44-61 | blank text changes nothing; otherwise the engine's result is shown and its score preselected |
| MifSuggestion.SuggestionWidget.SelectScore | components/mif-suggestion.tsx:247 | picking a radio option selects that score |
| MifSuggestion.SuggestionWidget.Cancel | components/mif-suggestion.tsx:275 | cancel hides the card and keeps the analysis |
| MifSuggestion.SuggestionWidget.Confirm | components/mif-suggestion.tsx:63-80 | with a selection, the decision is logged when an analysis exists, the score goes to `onConfirm`, and the analysis is cleared |
| MifAnalytics.CorrectCount | components/mif-analytics-dashboard.tsx:48 | the number of entries whose suggestion was accepted is at most the log length |
| MifAnalytics.AccuracyRate | components/mif-analytics-dashboard.tsx:47-50 | the rounded accuracy percentage lies in [0, 100]: 100 when every suggestion was accepted, 0 when none was |
| MifAnalytics.AccuracyExample | components/mif-analytics-dashboard.tsx:47-50 | three accepted suggestions out of four give 75 |
| MifAnalytics.ScoreDistribution | components/mif-analytics-dashboard.tsx:53-61 | the loop counts, for each level 1 to 7, the entries that selected it |
| MifAnalytics.CountsPartition | components/mif-analytics-dashboard.tsx:53-61 | counting a sequence by a list of distinct keys that covers it sums to its length |
| MifAnalytics.DistributionSumsToTotal | components/mif-analytics-dashboard.tsx:53-61 | the seven score counts sum to the number of entries |
| MifAnalytics.FieldKey | components/mif-analytics-dashboard.tsx:67 | the base field name has no underscore and is a prefix of the name without its `mif_` prefix |
| MifAnalytics.UpToUnderscore | components/mif-analytics-dashboard.tsx:67 | `split("_")[0]` is the longest underscore-free prefix |
| MifAnalytics.FieldDistribution | components/mif-analytics-dashboard.tsx:64-70 | the loop builds a map whose keys are exactly the base field names, each with its number of entries |
| MifAnalytics.DistinctKeys | components/mif-analytics-dashboard.tsx:64-70 | the keys of a record are distinct and are exactly the names that occur |
| MifAnalytics.FieldDistributionSumsToTotal | components/mif-analytics-dashboard.tsx:64-70 | the field counts sum to the number of entries |
| MifAnalytics.RecentHistory | components/mif-analytics-dashboard.tsx:73 | the recent list has the last ten entries (or all of them), newest first |
| MifAnalytics.Confusion | components/mif-analytics-dashboard.tsx:365-377 | a confusion-matrix cell counts at most the whole log |
| MifAnalytics.DiagonalIsCorrectCount | components/mif-analytics-dashboard.tsx:48 | the matrix diagonal sums to the number of accepted suggestions (see also components/mif-analytics-dashboard.tsx:365-377) |
| MifAnalytics.ConfusionIsDirectional | components/mif-analytics-dashboard.tsx:365-377 | rows are suggestions and columns selections: a 2→3 override counts in cell (2,3) and not in (3,2) |
| MifAnalytics.LevelPrecision | components/mif-analytics-dashboard.tsx:318-334 | per level: the entries that selected it, the accepted ones among them, and a percentage in [0, 100] that is 0 for an unused level |
| MifAnalytics.ConfusionWithinCount | components/mif-analytics-dashboard.tsx:318-322 | a level's accepted suggestions are among the entries that selected it |
| MifAnalytics.MostCommonIsFirstMaximum | components/mif-analytics-dashboard.tsx:185-187 | the most common score has a maximal count, and no lower level has as many |
| MifAnalytics.StripMif | components/mif-analytics-dashboard.tsx:105 | only a leading `mif_` is removed |
| MifAnalytics.SpaceWords | components/mif-analytics-dashboard.tsx:106-107 | no underscore survives, and the text grows by exactly one character per capital |
| MifAnalytics.SpaceWordsAppend | components/mif-analytics-dashboard.tsx:106-107 | the replacements work character by character, so they distribute over concatenation |
| MifAnalytics.SpaceWordsOneChar | components/mif-analytics-dashboard.tsx:106-107 | a capital becomes a space and itself, an underscore becomes a space, any other character is kept |
| MifAnalytics.SpaceWordsCons | components/mif-analytics-dashboard.tsx:106-107 | the first character is rewritten by those three cases and the rest independently, so the rewriting is exactly per character |
| MifAnalytics.Capitalize | components/mif-analytics-dashboard.tsx:108 | only a lower-case first letter is upper-cased, and the rest is unchanged |
| MifAnalytics.FormatFieldName | components/mif-analytics-dashboard.tsx:103-109 | the display name has no underscore, and its length is the stripped name's plus one per capital |
| MifAnalytics.FormatFieldNameWords | components/mif-analytics-dashboard.tsx:103-109 | for `mif_` followed by a lower-case letter, the display name is that letter capitalised followed by the per-character rewriting of the rest |
| MifAnalytics.FormatFieldNameExample | components/mif-analytics-dashboard.tsx:103-109 | `mif_vestirParteSuperior` displays as `Vestir Parte Superior` |
| MifAnalytics.Dashboard.LoadDashboardData | components/mif-analytics-dashboard.tsx:34-77 | a missing log empties the history; an unreadable one changes nothing; a saved log sets the history, accuracy (when non-empty), both distributions and the recent list |
| MifAnalytics.Dashboard.Mount | components/mif-analytics-dashboard.tsx:29-32 | mounting loads the engine's log; a missing log empties the history and keeps the aggregates, an unreadable one keeps everything, and a saved one sets the history, accuracy (when non-empty), the seven score counts, the per-field counts and the recent list from it |
| MifAnalytics.Dashboard.ClearHistory | components/mif-analytics-dashboard.tsx:79-88 | a confirmed clear removes the stored log and resets every statistic; a declined one changes nothing |
| MifAnalytics.ClearedEntriesReturn | components/mif-analytics-dashboard.tsx:79-88 | clearing keeps the engine's in-memory log, so the next saved decision writes the old entries back (see also lib/mif-ai-service.ts:199-202) |
| MifAnalytics.Dashboard.ClearThenRecordAsWritten | components/mif-analytics-dashboard.tsx:79-88 | as written, a clear followed by one decision stores the trimmed old log plus that decision, the cleared entries first (see also lib/mif-ai-service.ts:199-202) |
| MifAnalytics.Dashboard.CorrectedClearHistory | components/mif-analytics-dashboard.tsx:79-88 | a confirmed clear empties the engine's in-memory log as well as the stored one and every statistic; a declined one changes nothing |
| MifAnalytics.Dashboard.ClearThenRecord | components/mif-analytics-dashboard.tsx:79-88 | after the corrected clear, the next decision is persisted alone (see also lib/mif-ai-service.ts:199-202) |
| MifSummary.MifFields | components/mif-summary.tsx:19-29 | the summary reads nine MIF fields |
| MifSummary.MifFieldsPrefixed | components/mif-summary.tsx:19-29 | every summary field id starts with `mif_` |
| MifSummary.FilledFields | components/mif-summary.tsx:60-65 | the filled fields are exactly the listed fields with a truthy value |
| MifSummary.RoundTenths | components/mif-summary.tsx:72 | the average rounded to tenths is the nearest tenth, rounding halves up |
| MifSummary.TotalInScale | components/mif-summary.tsx:71 | scores within 1..7 give a total between n and 7n |
| MifSummary.RoundTenthsInScale | components/mif-summary.tsx:72 | such a total averages to between 1.0 and 7.0 |
| MifSummary.AverageInScale | components/mif-summary.tsx:71-72 | when the filled scores are in the scale, the shown average is a number in [1.0, 7.0] |
| MifSummary.AverageOfEqualScores | components/mif-summary.tsx:71-72 | when every filled score is k, the average is exactly k |
| MifSummary.SummaryShownIffFilled | components/mif-summary.tsx:65-69 | the summary appears iff some MIF field is filled |
| MifSummary.SummaryDescription | components/mif-summary.tsx:31-50 | the description is "Não avaliado" iff the score is missing or outside 1..7 |
| MifSummary.ScoreColor | components/mif-summary.tsx:52-58 | muted for 0 or NaN, then red up to 2, amber up to 4, blue up to 6, green above (each in both directions) |
| MifSummary.ScoreColorBands | components/mif-summary.tsx:52-58 | each score 1..7 gets the colour of its band (see also components/mif-summary.tsx:105) |
| MifSummary.AverageBand | components/mif-summary.tsx:115-121 | each band exactly on its range: severe below 3.0, moderate from 3.0 below 5.0, mild from 5.0 below 7.0, independent from 7.0 (each an iff), and NaN falls through to independent |
| MifSummary.AverageBandMonotone | components/mif-summary.tsx:115-121 | a higher average never lands in a more dependent band |
| FormProgress.FormSections | components/form-progress.tsx:11-188 | the form has fourteen sections |
| FormProgress.FieldTotal | components/form-progress.tsx:191 | TOTAL_FIELDS is 97 |
| FormProgress.RequiredTotal | components/form-progress.tsx:192 | TOTAL_REQUIRED_FIELDS is 9 |
| FormProgress.RequiredSlotsTotal | components/form-progress.tsx:11-188 | each of the 9 required fields occurs exactly once in its own section's field list, so all of them can be counted (see also components/form-progress.tsx:237-239) |
| FormProgress.FilledVersusTruthy | components/form-progress.tsx:209-217 | `isFieldFilled` and JavaScript truthiness differ exactly on 0, blank non-empty strings, empty arrays and empty objects |
| FormProgress.IsFieldFilled | components/form-progress.tsx:209-217 | undefined, null, "", false, [] and {} are never filled, and every number (0 included) is |
| FormProgress.FilledRequired | components/form-progress.tsx:231-241 | a section's filled required fields number at most its filled fields and at most its required entries |
| FormProgress.TotalFilledRequired | components/form-progress.tsx:228-247 | the form's filled required fields number at most its filled fields and at most the required entries |
| FormProgress.SectionPercent | components/form-progress.tsx:245-246 | a section's percentage is in [0, 100]: 100 when every field is filled, 0 when none is or the section has no fields |
| FormProgress.SectionProgress | components/form-progress.tsx:228-247 | the per-section map has exactly the section ids as keys, each at most 100 |
| FormProgress.CountSection | components/form-progress.tsx:229-241 | the inner loop counts a section's filled fields and filled required fields |
| FormProgress.CalculateProgress | components/form-progress.tsx:220-265 | the loops compute the specification `Progress`: the weighted percentage, section map and both counts |
| FormProgress.WeightedProgressOfForm | components/form-progress.tsx:249-257 | with 9 required and 97 fields, the progress is round((70·r/9 + 30·f/97)) percent |
| FormProgress.WeightedProgressBoundsAndMonotone | components/form-progress.tsx:249-257 | the weighted progress is at most 100 and grows with either count |
| FormProgress.WeightedProgressFull | components/form-progress.tsx:249-257 | a complete form shows 100%, and so does one with a single optional field left empty (99.69 rounds up) |
| FormProgress.ProgressOfFormBounded | components/form-progress.tsx:220-265 | the form's progress is at most 100 with at most 9 required and 97 filled fields |
| FormProgress.ProgressMonotone | components/form-progress.tsx:220-265 | filling more fields never lowers the progress |
| FormProgress.ProgressOfFullForm | components/form-progress.tsx:220-265 | a form with every field filled shows 100%, 97 fields and 9 required fields |
| FormProgress.SectionStatus | components/form-progress.tsx:290-299 | an unknown section is empty; a known one is complete iff at 100 and partial iff between 0 and 100 (both directions) |
| Specialty.Registry | components/especialidade-context.tsx:35-171 | the field registry has 109 entries, each naming at least one specialty |
| Specialty.Lookup | components/especialidade-context.tsx:35-171 | a registry lookup fails iff no entry names the field, and otherwise returns that field's specialties |
| Specialty.SpecialtiesOf | components/campo-especialidade.tsx:18 | a field's specialties are never empty, and an unregistered field gets `["todas"]` |
| Specialty.UnregisteredFieldAlwaysRelevant | components/campo-especialidade.tsx:18 | an unregistered field is relevant to every selected specialty (see also components/especialidade-context.tsx:182-188) |
| Specialty.IsRelevant | components/especialidade-context.tsx:182-188 | the "todas" selection sees every field, a field tagged "todas" is seen by everyone, and otherwise a field is relevant iff its list names the selected specialty |
| Specialty.EveryFieldHasAnAudience | components/especialidade-context.tsx:35-188 | every field is relevant to at least one profession |
| Specialty.InDocumentOrder | components/especialidade-context.tsx:198-212 | the ordered list holds exactly the registered fields found in the document, in document order |
| Specialty.Step | components/especialidade-context.tsx:220-226 | the next or previous index wraps around and stays below the number of fields |
| Specialty.StepInverse | components/especialidade-context.tsx:220-226 | going forward then back (or back then forward) returns to the same field |
| Specialty.FullCircle | components/especialidade-context.tsx:220-226 | k forward steps land on (index + k) mod total |
| Specialty.ForwardRoundTrip | components/especialidade-context.tsx:220-226 | stepping forward once per field comes back to the start |
| Specialty.FieldNavigator.Register | components/especialidade-context.tsx:191-213 | registering a ref adds the field (a null ref removes it) and rebuilds the ordered list in document order |
| Specialty.FieldNavigator.Navigate | components/especialidade-context.tsx:215-238 | with fields, the selection moves to the wrapped neighbour when that field is still mounted, otherwise it stays; with none nothing changes; every listed field stays registered, so mounting alone decides |
| TemplateManager.EntryData | components/template-manager.tsx:97-104 | one registry entry saves the field itself (even when undefined) and its `mif_` companion only when truthy, each with the form's value |
| TemplateManager.RelevantData | components/template-manager.tsx:95-106 | every saved value is the form's value for that key |
| TemplateManager.RelevantDataKeys | components/template-manager.tsx:95-106 | a key is saved iff some entry relevant to the specialty (tagged with it or with "todas") names it or its truthy `mif_` companion |
| TemplateManager.TemplateData | components/template-manager.tsx:87-106 | template data copies form values unchanged ("todas" copies them all) |
| TemplateManager.Merge | components/template-manager.tsx:144 | `{...current, ...dados}` has both key sets, the template winning on shared keys |
| TemplateManager.MergeOwnTemplate | components/template-manager.tsx:87-106 | loading a template saved from the current values changes none of them (see also components/template-manager.tsx:144) |
| TemplateManager.Find | components/template-manager.tsx:137 | `find` fails iff no template has the id, and otherwise returns the first one that does |
| TemplateManager.Without | components/template-manager.tsx:163 | deletion keeps exactly the templates with other ids |
| TemplateManager.WithoutAbsent | components/template-manager.tsx:163 | deleting an unknown id changes nothing |
| TemplateManager.WithoutIdempotent | components/template-manager.tsx:163 | deleting twice is deleting once |
| TemplateManager.WithoutAppend | components/template-manager.tsx:163 | deletion keeps the order of the list |
| TemplateManager.ForSpecialty | components/template-manager.tsx:73 | the listed templates are exactly those of the selected specialty |
| TemplateManager.TemplateStore.Mount | components/template-manager.tsx:59-70 | stored templates replace the list; a missing or unreadable store leaves it |
| TemplateManager.TemplateStore.Save | components/template-manager.tsx:76-130 | a blank name saves nothing; otherwise the new template is appended and persisted, and the name cleared |
| TemplateManager.TemplateStore.Load | components/template-manager.tsx:134-159 | with a known selection, the form becomes the merge of its values and the template, and the selection clears; otherwise nothing changes |
| TemplateManager.TemplateStore.Delete | components/template-manager.tsx:162-175 | the template leaves the list and the list is persisted |
| TemplateManager.DeleteAfterSave | components/template-manager.tsx:116 | deleting a template just saved under a fresh id restores the previous list (see also components/template-manager.tsx:163) |
| ReportBuilder.ReportSections | components/report-builder.tsx:27-40 | the report offers twelve sections |
| ReportBuilder.IdRoundTrip | components/report-builder.tsx:27-40 | each section's id maps back to that section |
| ReportBuilder.IdInjective | components/report-builder.tsx:27-40 | no two sections share an id |
| ReportBuilder.EverySectionListed | components/report-builder.tsx:27-40 | every section appears in the list |
| ReportBuilder.SelectionRecord | components/report-builder.tsx:80-82 | the record passed to the PDF has one boolean per section id and no other key (see also components/report-builder.tsx:293) |
| ReportBuilder.InitialSelection | components/report-builder.tsx:80-82 | every section starts selected except referrals and discharge criteria (both directions) |
| ReportBuilder.SelectAll | components/report-builder.tsx:88-91 | select-all selects every section |
| ReportBuilder.DeselectAll | components/report-builder.tsx:94-97 | deselect-all clears every section |
| ReportBuilder.SpecialtySections | components/report-builder.tsx:43-73 | "todas" lists every section, and every preset starts with the identification |
| ReportBuilder.ApplySpecialty | components/report-builder.tsx:100-113 | a preset selects a section iff the specialty's list names it |
| ReportBuilder.TodasPresetSelectsAll | components/report-builder.tsx:44 | the "todas" preset equals select-all (see also components/report-builder.tsx:100-113) |
| ReportBuilder.PresetsIncludeIdentification | components/report-builder.tsx:43-73 | every preset selects the identification |
| ReportBuilder.PresetReferralsAndDischarge | components/report-builder.tsx:43-73 | referrals are selected iff the preset is "todas" or social work; discharge criteria iff "todas", nursing or medicine |
| ReportBuilder.Toggle | components/report-builder.tsx:195-197 | a checkbox sets its own section and leaves every other entry unchanged |
| ReportBuilder.PrepareExportData | components/report-builder.tsx:116-132 | without anonymisation the data is the form's; with it the four personal fields get fixed placeholders, `sexo` is copied (added when missing), and every other key is kept |
| ReportBuilder.AnonymisationForgetsIdentity | components/report-builder.tsx:116-132 | two forms differing only in the four personal fields export identical anonymised data |
| ReportBuilder.AnonymisationIdempotent | components/report-builder.tsx:116-132 | anonymising twice is anonymising once |
| ReportBuilder.FileStem | components/report-builder.tsx:143 | the stem holds no whitespace, and a title without whitespace is only lower-cased |
| ReportBuilder.PdfFileName | components/report-builder.tsx:143 | the report file is the stem with a `.pdf` extension and holds no whitespace |
| ReportBuilder.ResearchFileName | components/report-builder.tsx:295 | the research file is the stem with `_research_data.json` and holds no whitespace |
| ReportBuilder.FileStemIdempotent | components/report-builder.tsx:143 | a stem is its own stem, so naming the file after the stem gives the same name |
| PdfDocument.ShouldInclude | components/pdf-document.tsx:174-178 | an empty configuration includes every section; otherwise a section is included iff its entry is `true` |
| PdfDocument.ReportDropsUnsharedSections | components/pdf-document.tsx:382-886 | as written, the report builder's record never includes the nine sections whose document ids differ from its own ids (see also components/report-builder.tsx:27-40) |
| PdfDocument.ReportKeepsSharedSections | components/pdf-document.tsx:249 | the three shared ids (identification, perception, referrals) follow the selection in both directions (see also components/pdf-document.tsx:346, components/pdf-document.tsx:825) |
| PdfDocument.SelectAllDropsActivity | components/pdf-document.tsx:382 | even with every section selected, the activity section is left out (see also components/report-builder.tsx:88-91) |
| PdfDocument.PdfIdRoundTrip | components/pdf-document.tsx:249-886 | each report section maps to a distinct document id |
| PdfDocument.CorrectedRecord | components/pdf-document.tsx:249-886 | the corrected record carries every selection under its document id |
| PdfDocument.CorrectedRecordIncludesSelected | components/pdf-document.tsx:174-178 | with the corrected record, a document section is included iff its report section is selected |
| PdfDocument.CorrectedReportShowsMifSummary | components/pdf-document.tsx:613 | with the corrected record the MIF summary is shown iff its section is selected and the data would show it in a full document |
| PdfDocument.PdfDescription | components/pdf-document.tsx:181-202 | the description is empty iff the score is missing or outside 1..7 |
| PdfDocument.PdfAverage | components/pdf-document.tsx:205-228 | there is an average only when some `mif_` key is truthy, and then it is the summary's average of the nine areas |
| PdfDocument.SummaryNeedsAScoredArea | components/pdf-document.tsx:205-228 | the summary shows only when one of the nine areas is scored, and a scored area always counts as a MIF score (see also components/pdf-document.tsx:613) |
| PdfDocument.ReportNeverShowsMifSummary | components/pdf-document.tsx:613 | a report from the builder never shows the MIF summary, whatever is selected (see also components/report-builder.tsx:293) |
| LocalStorage.FullKey | lib/local-storage-service.ts:14 | every stored key carries the `pts_form_` prefix (see also lib/local-storage-service.ts:21) |
| LocalStorage.ReadPending | lib/local-storage-service.ts:17-27 | a missing or unparsable pending list reads as empty, and a stored one reads back as stored (see also lib/local-storage-service.ts:59-61) |
| LocalStorage.ReadRows | lib/local-storage-service.ts:17-27 | the cached rows of a table read back as stored, or as empty (see also lib/local-storage-service.ts:70-80) |
| LocalStorage.RemoveOperation | lib/local-storage-service.ts:65 | clearing keeps exactly the operations with other ids |
| LocalStorage.RemoveAbsent | lib/local-storage-service.ts:63-67 | clearing an unknown id changes nothing |
| LocalStorage.RemoveJustAdded | lib/local-storage-service.ts:40-67 | clearing an operation just added under a fresh id restores the previous list |
| LocalStorage.LocalStore.AddPending | lib/local-storage-service.ts:40-57 | the operation is appended to the pending list, which is written back |
| LocalStorage.LocalStore.ClearPending | lib/local-storage-service.ts:63-67 | the pending list is written back without that id |
| LocalStorage.LocalStore.HasPending | lib/local-storage-service.ts:92-95 | there is pending data iff the pending list is non-empty |
| LocalStorage.LocalStore.SetRows | lib/local-storage-service.ts:29-37 | storing a table's rows replaces that key only, and they read back (see also lib/local-storage-service.ts:70-80) |
| LocalStorage.LocalStore.ClearAll | lib/local-storage-service.ts:83-89 | every prefixed key is removed and every other key kept |
| LocalStorage.ClearedReadsEmpty | lib/local-storage-service.ts:83-89 | after clearing, no table key remains and the pending list reads as empty |
| Database.ClassifyOrder | services/database-service.ts:20-38 | the else-if chain: a network failure wins over every code, then each exact code, the `23`/`42` prefixes only after their exact codes, and anything else is unclassified (each an iff) |
| Database.Classify | services/database-service.ts:17-38 | an error is a connectivity error iff it looks like a network failure; an error without a code is otherwise unclassified, and every other kind needs a code |
| Database.KindMessage | services/database-service.ts:17-38 | every recognised kind has a non-empty text distinct from the unknown-error default |
| Database.CodeFamilies | services/database-service.ts:24-33 | 23505 and 23503 lie inside the `23` family and 42P01 inside `42`, so the exact checks must come first; the other codes lie in neither |
| Database.ErrorMessage | services/database-service.ts:17 | an unclassified error shows its own message, or the unknown-error text when it has none |
| Database.ThrownShowsItsMessage | services/database-service.ts:17-38 | an `Error` thrown with a non-empty message that mentions no fetch failure is unclassified and shown with that message |
| Database.NetworkFailureWins | services/database-service.ts:20 | a `TypeError`, or a message containing "Failed to fetch", is a connectivity error whatever its code |
| Database.NoFetchFailure | services/database-service.ts:20 | a text with no "Fa" pair cannot contain "Failed to fetch" |
| Database.GuardMessage | services/database-service.ts:99 | every guard of the service throws a non-empty message (see also services/database-service.ts:527) |
| Database.GuardShowsItsMessage | services/database-service.ts:17-38 | no guard message looks like a network failure, so each guard is unclassified and shown with its own text |
| Database.GuardLooksClean | services/database-service.ts:20 | no guard message contains "Failed to fetch" |
| Database.Find | services/database-service.ts:428-434 | finds a row with that evaluation and key, or proves there is none |
| Database.FindUnique | services/database-service.ts:428-434 | with one row per (evaluation, key), the row found is exactly the one asked about |
| Database.Upsert | services/database-service.ts:438-478 | saving keeps one row per key, reads back the saved value, changes no other key; an existing row keeps its id, a new row is appended with the new id |
| Database.UpdateKeepsOthers | services/database-service.ts:440-449 | updating one row in place leaves every other key's value unchanged |
| Database.AppendKeepsOthers | services/database-service.ts:460-470 | appending a row for a new key leaves every other key's value unchanged |
| Database.WithoutEvaluation | services/database-service.ts:378 | deleting by evaluation id keeps exactly the rows of other evaluations |
| Database.OfEvaluation | services/database-service.ts:599 | selecting by evaluation id gives exactly that evaluation's rows |
| Database.EvaluationSplitsTable | services/database-service.ts:378-383 | the rows deleted and the rows kept partition the table |
| Database.WithoutKeepsUnique | services/database-service.ts:378-383 | deleting an evaluation's rows keeps one row per key |
| Database.LookupWithout | services/database-service.ts:378-383 | after the delete the evaluation has no rows left and every other evaluation reads as before |
| Database.WithoutKeepsParents | services/database-service.ts:378-388 | once an evaluation's rows are gone, every remaining row still points at a remaining evaluation |
| Database.GetSecao | services/database-service.ts:488-514 | an empty id or section name, or a missing row, reads as null; otherwise the stored data, with falsy data read as null |
| Database.GetMifRows | services/database-service.ts:589-604 | an empty evaluation id gives an empty list; otherwise exactly that evaluation's MIF rows |
| Database.Updated | services/database-service.ts:134-141 | an update keeps every old field it does not name, takes every field it names, and stamps `updated_at` |
| Database.NewEvaluationRow | services/database-service.ts:310-318 | a new evaluation keeps its fields, defaults its status to "rascunho" and its date to now |
| Database.Tables.constructor | services/database-service.ts:51-53 | the four tables start empty |
| Database.Tables.CreatePaciente | services/database-service.ts:91-121 | a patient without a name is refused; otherwise the patient is stored with `updated_at`, unless the write fails; no other table changes |
| Database.Tables.UpdatePaciente | services/database-service.ts:123-155 | an empty id or empty update is refused; otherwise the stored patient is merged with the update, and an unknown id returns undefined |
| Database.Tables.DeletePaciente | services/database-service.ts:157-193 | a patient with evaluations is refused; otherwise the patient is removed, unless the write fails; the referential invariant is kept |
| Database.Tables.CreateAvaliacao | services/database-service.ts:287-332 | a missing patient id, missing specialty or unknown patient is refused in that order; otherwise the new evaluation row is stored |
| Database.Tables.UpdateAvaliacao | services/database-service.ts:334-366 | an empty id or empty update is refused; otherwise the stored evaluation is merged with the update and no evaluation is added or removed |
| Database.Tables.DeleteAvaliacao | services/database-service.ts:368-402 | sections, then MIF rows, then the evaluation are deleted, each step only when the previous one succeeded; success iff no step failed |
| Database.Tables.SaveSecao | services/database-service.ts:405-486 | the guards in source order; success iff every guard passes and the write succeeds, and then the section is upserted and reads back |
| Database.Tables.SaveMif | services/database-service.ts:517-587 | the guards in source order, including the 1..7 score range; success iff every guard passes and the write succeeds, and then the score is upserted, reads back, and the saved row (its id, evaluation, category, score and note) is returned |
| Database.UpsertKeepsParents | services/database-service.ts:421-426 | saving under an existing evaluation keeps every row pointing at an existing evaluation |
| Database.SavedSectionReadsBack | services/database-service.ts:405-514 | a saved section reads back through getSecaoAvaliacao and every other section reads as before |
| Database.SaveTwiceKeepsOneRow | services/database-service.ts:438-478 | saving the same section twice leaves one row, holding the second value |
| PtsForm.TabIdRoundTrip | components/pts-form.tsx:62-78 | every tab is found again from its id |
| PtsForm.TabIdsDistinct | components/pts-form.tsx:62-78 | no two tabs share an id |
| PtsForm.Tabs | components/pts-form.tsx:62-78 | fifteen distinct tabs, from identification to the summaries |
| PtsForm.IndexOf | components/pts-form.tsx:150 | `findIndex` finds every tab, and only the summaries tab is last |
| PtsForm.IndexOfUnique | components/pts-form.tsx:150 | the index found is the tab's only position |
| PtsForm.Next | components/pts-form.tsx:149-154 | the next tab is one position further, and the last tab stays put |
| PtsForm.Prev | components/pts-form.tsx:156-161 | the previous tab is one position back, and the first tab stays put |
| PtsForm.NextPrevInverse | components/pts-form.tsx:149-161 | going forward then back, or back then forward, returns to the same tab away from the ends |
| PtsForm.ForwardIndex | components/pts-form.tsx:149-154 | pressing "next" k times from the first tab reaches position k, stopping at the last |
| PtsForm.ForwardWalksTabs | components/pts-form.tsx:149-154 | pressing "next" visits the tabs in their listed order and ends on the summaries tab |
| PtsForm.OrEmpty | components/pts-form.tsx:183-188 | a falsy field becomes "" and a truthy one is kept |
| PtsForm.PdfData | components/pts-form.tsx:180-189 | the PDF data keeps every field, takes the patient's name when it is truthy, and blanks the six identification fields when they are falsy |
| PtsForm.PdfDataIdempotent | components/pts-form.tsx:180-189 | formatting already formatted data changes nothing |
| PtsForm.LoadedHasKey | components/pts-form.tsx:118-125 | after loading, a field is set iff it was already set or some saved section sets it |
| PtsForm.LoadedKeepsUnset | components/pts-form.tsx:118-125 | a field no section sets keeps its value |
| PtsForm.LoadedLastSectionWins | components/pts-form.tsx:118-125 | a field takes its value from the last section, in tab order, that sets it |
| PtsForm.Pour | components/pts-form.tsx:118-125 | pouring an object section adds its names, its values win, and every other name keeps its value; a non-object adds nothing |
| PtsForm.Loaded | components/pts-form.tsx:118-125 | loading never loses a name, and sections without objects leave the values unchanged |
| PtsForm.LoadFormData | components/pts-form.tsx:114-135 | the loop pours every saved section into the form, in tab order, only when an evaluation is loaded |
| PtsForm.Form.constructor | components/pts-form.tsx:101-104 | the form opens on the identification tab, empty and not complete |
| PtsForm.Form.TabChange | components/pts-form.tsx:137-147 | the current tab's values are saved first, only with an evaluation and non-empty values, then the tab changes |
| PtsForm.Form.NextTab | components/pts-form.tsx:149-154 | moves to the next tab, saving as a tab change does, and does nothing on the last tab |
| PtsForm.Form.PrevTab | components/pts-form.tsx:156-161 | moves to the previous tab, saving as a tab change does, and does nothing on the first tab |
| PtsForm.Form.SaveButton | components/pts-form.tsx:366-381 | with an evaluation the section is saved and confirmed; without one only an error notice is shown |
| PtsForm.Form.FinishClick | components/pts-form.tsx:409-415 | the finish button saves the current values when there is an evaluation and something to save |
| PtsForm.Form.OnSubmit | components/pts-form.tsx:163-201 | without an evaluation only an error notice; otherwise save, then finalize, then the PDF data, completion and the summaries tab; a failure shows its message or the default text and changes nothing else |
| AvaliacoesPage.TextOf | app/avaliacoes/page.tsx:68-70 | a string field is searched as itself and anything else as "" |
| AvaliacoesPage.PatientName | app/avaliacoes/page.tsx:68 | the patient's name is read through the optional `pacientes` object, and is undefined when either is missing |
| AvaliacoesPage.Shown | app/avaliacoes/page.tsx:67-78 | the empty search shows every evaluation, and a term longer than all three searched texts shows none |
| AvaliacoesPage.Filter | app/avaliacoes/page.tsx:67-78 | the visible list holds exactly the evaluations whose patient, specialty or professional contains the lower-cased term |
| AvaliacoesPage.FilterAppend | app/avaliacoes/page.tsx:67-78 | filtering keeps list order: filtering a concatenation concatenates the filtered parts |
| AvaliacoesPage.EmptySearchShowsAll | app/avaliacoes/page.tsx:67-78 | an empty search term shows every evaluation, in order |
| AvaliacoesPage.SearchIgnoresTermCase | app/avaliacoes/page.tsx:71 | a search term and its lower-case form show the same evaluations |
| AvaliacoesPage.WithoutId | app/avaliacoes/page.tsx:87 | removing by id keeps exactly the evaluations with other ids |
| AvaliacoesPage.FindById | app/avaliacoes/page.tsx:102 | `find` returns the first evaluation with that id, or none when no evaluation has it |
| AvaliacoesPage.DuplicateRequest | app/avaliacoes/page.tsx:106-112 | a duplicate copies the patient, specialty and professional, as a draft dated now, and nothing else |
| AvaliacoesPage.Page.constructor | app/avaliacoes/page.tsx:26-34 | the page starts with no evaluations, an empty search and closed dialogs |
| AvaliacoesPage.Page.Visible | app/avaliacoes/page.tsx:67-78 | the rendered rows are exactly the loaded evaluations that match the search term |
| AvaliacoesPage.Page.Load | app/avaliacoes/page.tsx:37-59 | rows replace the list; a failed connection test or a throw keeps the list, records the error (or the default text) and opens the diagnostics |
| AvaliacoesPage.Page.ConfirmDelete | app/avaliacoes/page.tsx:95-98 | remembers the id and opens the confirmation dialog |
| AvaliacoesPage.Page.HandleDelete | app/avaliacoes/page.tsx:81-92 | with no id pending nothing happens; otherwise the evaluation leaves the list only when the delete succeeded, and the dialog closes either way |
| AvaliacoesPage.Page.HandleDuplicate | app/avaliacoes/page.tsx:101-124 | an unknown id does nothing; otherwise the first matching evaluation is duplicated, and on success the list is reloaded and a notice shown |
| Text.Lower | lib/mif-ai-service.ts:206 | `toLowerCase` keeps the length and lowers each character on its own |
| Text.ContainsEmpty | lib/mif-ai-service.ts:217 | `includes("")` is always true |
| Text.Prefix | lib/mif-ai-service.ts:240 | `substring(0, 5)` is a prefix of at most five characters |
| Text.WordCount | lib/mif-ai-service.ts:305 | `split(/\s+/).length` is at least one |
| Text.DropSpaces | lib/mif-ai-service.ts:270 | skipping leading white space leaves a suffix that starts with a non-space |
| Text.ReplaceSpaceRunsNoSpace | components/report-builder.tsx:295 | `replace(/\s+/g, "_")` leaves no white space when the replacement has none |
| Text.ReplaceSpaceRunsIdentity | components/report-builder.tsx:295 | a title without white space is unchanged by the replacement |
| Text.Join | lib/mif-ai-service.ts:350 | every part occurs in the joined text |
| Text.ContainsInfix | lib/mif-ai-service.ts:346-358 | text found in a middle part is found in the whole concatenation |
| Js.Get | components/pts-form.tsx:183 | reading an absent key gives undefined |
| Js.Or | components/pts-form.tsx:181 | `a || b` is `a` when truthy and `b` otherwise |
| Js.DigitRun | components/mif-summary.tsx:71 | the leading run of decimal digits that `parseInt` reads |
| Js.HexRun | components/mif-summary.tsx:71 | the leading run of hexadecimal digits that `parseInt` reads after a `0x` prefix |
| Js.ParseInt | components/mif-summary.tsx:71 | `parseInt` without a radix: a number is itself; a string is read after white space and sign as hexadecimal behind a `0x`/`0X` prefix and as decimal otherwise, NaN without a digit; anything else is NaN |
| Js.ParseIntDigit | components/mif-summary.tsx:105 | a one-digit score string parses to its digit |
| Js.ParseIntHex | components/mif-summary.tsx:71 | "0x1A" parses to 26: the prefix switches to base 16 |
| Js.ParseIntHexWithoutDigits | components/mif-summary.tsx:71 | "0x" with no hex digit after it is NaN |
| Js.ParseIntSignedHex | components/mif-summary.tsx:71 | the sign precedes the prefix: "-0x5" parses to -5 |
| Js.RoundRatio | components/form-progress.tsx:246 | `Math.round(num / den)` is the integer nearest the ratio, halves rounding up |
| Js.RoundRatioBounds | components/form-progress.tsx:246 | a ratio at most `top` rounds to at most `top` |
| Js.RoundRatioWhole | components/form-progress.tsx:246 | a whole ratio rounds to itself |
| Js.RoundRatioMono | components/form-progress.tsx:246 | rounding is monotone in the numerator |
| FormProgress.FilledMonotone | components/form-progress.tsx:231-241 | filling more fields never lowers a section's filled or required-filled count |
| FormProgress.TotalsMonotone | components/form-progress.tsx:228-241 | filling more fields never lowers the form's filled or required-filled totals |
| MifAiService.Candidates | lib/mif-ai-service.ts:320-327 | the alternatives are pushed in increasing score order, before the sort |
| MifAnalytics.StripMifExample | components/mif-analytics-dashboard.tsx:105 | `mif_vestirParteSuperior` loses its `mif_` prefix |
| MifAnalytics.SpaceWordsExample | components/mif-analytics-dashboard.tsx:106 | `vestirParteSuperior` becomes `vestir Parte Superior` |

## Left out

- Rendering: JSX markup, styles, the PDF page layout, icons, toasts, dialogs, scrolling and the clipboard. Toasts appear only as recorded notices where the state machine needs them.
- The server-side branches (`typeof window === "undefined"`). The model assumes a browser.
- Browser storage and JSON: the key/value store is a `map`, and a stored list reads back as it was written. Unparsable text is modelled only in LocalStorage, where the source catches it. Dropping `undefined` on `JSON.stringify` is not modelled.
- Network I/O: Supabase reads are answered from the model's tables; the outcome of each write, of the connection test and of each remote call is a parameter. The client-configuration check, read failures other than "not found", and database-generated ids and timestamps are not modelled; ids and clock readings are parameters.
- Clocks, ids and randomness: `Date.now`, `new Date().toISOString()`, `crypto.randomUUID` and generated ids are parameters.
- Floating point: weights are integers scaled by 20, ratios are exact `real`s or rationals, and `Math.round` is round-half-up on the exact value. Rounding errors of IEEE doubles are not modelled.
- `toLowerCase` lowers ASCII and Latin-1 capitals only; other scripts are kept as they are. `\s` is JavaScript's white-space set.
- MifAiService.AnalysisHistoryStore.Analyze: the 800 ms delay of `analyzeMIFScoreAsync` is not modelled; the call is synchronous.
- MifSuggestion.SuggestionWidget: the field text is fixed for the widget's lifetime; a change of the `fieldText` prop between analysis and confirmation is not modelled.
- Specialty.FieldNavigator.Register: the document order of the registered fields is a parameter, since the source reads it from the DOM.
- Specialty: the DOM refs are modelled as "registered or not"; focusing and scrolling to a field are not modelled.
- FormProgress: the code lists nine required fields; the model follows the code, so the weighted progress divides by 9.
- ReportBuilder.ApplySpecialty: the `|| SPECIALTY_SECTIONS.todas` fallback is unreachable, because every specialty has a list, so it is not a separate branch.
- ReportBuilder: exporting and downloading the JSON or PDF file is not modelled; only the data and the file name are.
- MifAnalytics: `exportHistory` (a file download) is not modelled.
- Scores in the decision log have the type `Score` (1..7). A corrupt stored log with other scores, for which the dashboard would create extra distribution keys, is not modelled.
- A MIF value that does not parse makes the summary's average NaN. NaN fails every band comparison, so the band is "independence". The model reproduces this (`AverageBand` of `NaN`) rather than leaving it out.
- Js.ParseInt: an array is taken as NaN (`None`). JavaScript first converts it to a string (`[5]` parses to 5), which is not modelled; booleans, objects, null and undefined are NaN in both.
- Js: numbers in form values are integers; fractional numbers and NaN as a stored value are not modelled.
- A relevant registry field that is absent from the form values is saved in a template as `undefined`, as the source assigns it. The JSON round trip that would drop it is not modelled.
- Database.ErrorMessage: its own contract covers only the unclassified case. The other cases map through `Classify` to one fixed message each, stated by Database.ClassifyOrder.
- Database.Tables.UpdateAvaliacao: the update may point an evaluation at a patient that does not exist, as the source allows, so the referential invariant `PatientsExist` is not promised after it.
- Updating a patient or an evaluation with an unknown id returns `undefined`, as `data[0]` of an empty result does; the model reproduces this.
- Database: `getPacientes`, `getPacienteById`, `getAvaliacoes`, `getAvaliacoesByPacienteId` and `getAvaliacaoById` are plain table reads. They are not modelled separately; `getSecaoAvaliacao` and `getMIFAvaliacoes` are.
- PtsForm: form field values and the results of `getSecao` are parameters. Only object-valued sections pour their fields into the form.
- PtsForm.Form.OnSubmit: `saveSecao` and `finalizarAvaliacao` are recorded as calls and their failures are parameters. The evaluation context that provides them (contexts/avaliacao-context.tsx:113-121 and 157-165) catches every error itself, so in the program `onSubmit`'s catch never runs, and a failed finalisation still marks the form complete and opens the summaries tab. The `saveThrows` and `finalizeThrows` branches describe a context that lets errors through; with the real context both are `None`.
- AvaliacoesPage.TextOf: a non-string truthy value in a searched column would make `toLowerCase` throw; the model reads it as "".
- The specialty summary page (`components/resumo-especialidades.tsx`), accessibility settings, layout context and environment checks are not part of this model.

## Findings

| source | as written | input that shows it | evidently intended | confidence | as-written member | corrected member |
|---|---|---|---|---|---|---|
| components/report-builder.tsx:27-40 | the report builder passes its own section ids to the PDF, but the PDF checks different ids for nine sections (components/pdf-document.tsx:382-886) | select every section (`SelectAll()`): "atividadeParticipacao", the MIF summary and seven other sections are still not printed | every selected section is printed, and only those | not executed | PdfDocument.SelectAllDropsActivity | PdfDocument.CorrectedRecordIncludesSelected |
| lib/mif-ai-service.ts:251-252 | `indexOf(entry) > length - 10` gives the larger recency factor to the last nine entries, while the comment says the last ten | a log of eleven entries: the entry at position 1 (n - 10) gets the factor 1 | the last ten entries get the factor 1.5 | not executed; medium, as only the comment states the intent | MifAiService.RecencyWindowIsNine | MifAiService.IntendedRecencyWindowIsTen |
| components/mif-analytics-dashboard.tsx:79-88 | clearing removes the stored log and resets the statistics, but the engine's in-memory log (lib/mif-ai-service.ts:199-202) keeps its entries | clear a log of two entries, then confirm one decision: the three entries are stored again | a clear cannot be undone, as its confirmation text says, so the next decision is stored alone | not executed | MifAnalytics.Dashboard.ClearThenRecordAsWritten | MifAnalytics.Dashboard.ClearThenRecord |
