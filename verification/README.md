# BedIA-Norte bed-management core in Dafny

BedIA-Norte is a bed-management assistant for a hospital's emergency network.
This project models its deterministic core and proves properties of it.
There are four parts:

- **Heuristic risk engine** (`ml_engine.dfy`, module `MlEngine`). It makes one pass over the ward censuses. The pass sums occupied beds and capacity, flags the critical wards and forecasts discharges with per-ward turnover factors. Then the engine classifies the hospital's risk as Low, Medium or High.
- **Census aggregation** (`hospital_data.dfy`, module `HospitalData`, over the records of `census.dfy`). It computes a ward's effective occupancy percentage, where blocked beds count as occupied. It also computes the dashboard's hospital-wide totals and holds the initial census used as a test vector.
- **Protocol retrieval and GRD lookup** (`knowledge_base.dfy`, module `KnowledgeBase`). Retrieval filters the fixed catalog of institutional protocols by tag and keyword overlap. The lookup finds the first diagnosis-related group (GRD) whose name contains the diagnosis, or is contained in it, compared in lower case.
- **Discharge coordinator** (`agentic_coordinator.dfy`, module `AgenticCoordinator`):
  - the cleaning queue, whose tasks go PENDIENTE → EN_PROCESO → LISTA → released;
  - the discharge transaction: it turns the selected patient into a cleaning task at the head of the queue, removes the patient from the registry and clears the selection;
  - the dismissal of suggested actions.

  The coordinator's screen state is the class `Coordinator`. Its fields are `queue`, `patients`, `selected`, `epicrisis`, `cleaningAnalysis` and `insights`, and each of its methods states its whole new state.

How the source is represented:
- **Integers.** Census counts are unbounded `int`. The data-entry form does not clamp them, so no lemma assumes them non-negative unless it says so.
- **Ratios.** They are exact `real`s, and the thresholds are also stated as cross-multiplied integer inequalities.
- **`Math.round`.** Modelled as "nearest integer, halves up". The percentages are computed exactly on integers.
- **`toLowerCase`.** Lowers ASCII A–Z and Latin-1 À–Þ (except ×).
- **`[...new Set(xs)]`.** Keeps the first occurrence of each element.
- **The forward loops.** `forEach` and `reduce` are modelled by functions that recurse on the last element, so the loop invariants are about prefixes.

The code is followed where it differs from what its names and comments suggest:
- **Risk escalation.** The risk escalates to High for a critical Urgencia ward only. Other critical wards do not escalate it (`MlEngine.RiskIgnoresOtherCriticalWards`).
- **Stress score range.** The score's "0 to 1" range is not enforced by the code. It holds only for censuses with 0 ≤ occupied ≤ total (`MlEngine.StressScoreInUnitInterval`).
- **Negative bed counts.** `calculateOccupancy` guards with `totalBeds === 0` and `getTotalStats` with `totalBeds > 0`. For a negative bed count the two disagree (`HospitalData.TotalStatsOfNegativeWard`).

## Model

| member | source | states |
|---|---|---|
| MlEngine.OccupancyRate | services/mlEngine.ts:28 | A ward's occupied beds over its beds, 0 for a ward without positive capacity |
| MlEngine.IsCritical | services/mlEngine.ts:28-35 | The flagging rule: occupancy rate above 0.95, or Urgencia with more than 10 waiting (characterised by `IsCriticalCrossMultiplied`) |
| MlEngine.StressScore | services/mlEngine.ts:29-46 | Σoccupied / Σcapacity, 0 without positive capacity (bounds in `StressScoreInUnitInterval`) |
| MlEngine.TurnoverFactor | services/mlEngine.ts:39-41 | The turnover factor: 1.2 for Medicina, 0.8 for UPC, 1.0 for every other ward |
| MlEngine.WardForecast | services/mlEngine.ts:39-43 | One ward's probable discharges times its turnover factor (1.2 Medicina, 0.8 UPC, 1 otherwise), rounded (characterised by `WardForecastExact`) |
| MlEngine.WeightedDischarges | services/mlEngine.ts:37-43 | The sum of the rounded per-ward forecasts, in input order |
| MlEngine.RiskOf | services/mlEngine.ts:49-51 | The decision tree: High above 0.92 or with Urgencia critical, else Medium above 0.85, else Low (characterised by `RiskClasses`) |
| MlEngine.RunHeuristicModel | services/mlEngine.ts:21-59 | The loop's result is the stress score Σoccupied/Σcapacity (0 without capacity), the flagged wards in input order, the sum of per-ward rounded weighted forecasts, and the risk decided from those two |
| MlEngine.IsCriticalCrossMultiplied | services/mlEngine.ts:28-35 | A ward is critical iff it has beds and 100·occupied > 95·total, or it is Urgencia with more than 10 waiting; a ward without beds has rate 0 |
| MlEngine.CriticalServices | services/mlEngine.ts:27-35 | A ward kind is listed iff some row of that kind is critical; never more entries than rows |
| MlEngine.CriticalServicesAppend | services/mlEngine.ts:27-35 | Flagging is row by row: the list for a concatenation is the concatenation of the lists (input order) |
| MlEngine.CriticalServicesOnePerRow | services/mlEngine.ts:34 | One entry per flagged census row, even when rows share a ward kind |
| MlEngine.WardForecastExact | services/mlEngine.ts:39-43 | Per-ward forecast is within half a discharge of 6p/5 for Medicina, 4p/5 for UPC, and exactly p otherwise |
| MlEngine.WardForecastMedicinaEight | services/mlEngine.ts:40-43 | Rounding is per ward: Medicina with 8 probable discharges contributes round(9.6) = 10 |
| MlEngine.WeightedDischargesUnweighted | services/mlEngine.ts:39-43 | Without Medicina or UPC wards the forecast is the plain sum of probable discharges |
| MlEngine.StressScoreInUnitInterval | services/mlEngine.ts:18 | The stress score lies in [0, 1] whenever every ward has 0 ≤ occupied ≤ total |
| MlEngine.RiskClasses | services/mlEngine.ts:49-51 | High iff global > 0.92 or Urgencia is critical; Medium iff not High and global > 0.85; Low iff global ≤ 0.85 and Urgencia not critical |
| MlEngine.RiskMonotone | services/mlEngine.ts:49-51 | For a fixed critical list, a higher global ratio never lowers the risk |
| MlEngine.RiskIgnoresOtherCriticalWards | services/mlEngine.ts:51 | A critical ward other than Urgencia does not change the risk |
| MlEngine.EngineOnInitialData | services/mlEngine.ts:21-58 | On the initial census: critical wards [Urgencia], forecast 24, stress 178/202, risk High |
| MlEngine.RunOnInitialData | services/hospitalData.ts:4-59 | Running the engine on the initial census reports High, [Urgencia], 24 and 178/202 |
| MlEngine.DischargeTotalsDiffer | services/hospitalData.ts:71 | The dashboard's unweighted discharge total (22) differs from the engine's weighted forecast (24) |
| Census.Total | services/hospitalData.ts:67-71 | The reduce-sum of one numeric field over the wards (order-free by `TotalPermutation`) |
| Census.Round | services/mlEngine.ts:43 | `Math.round`: the result is within half of the argument, halves going up |
| Census.Ratio | services/mlEngine.ts:46 | A ratio times a positive denominator is the numerator; 0 for a denominator that is not positive |
| Census.RatioAbove | services/mlEngine.ts:33 | With positive capacity, a ratio above a threshold is a cross-multiplied comparison |
| Census.TotalPermutation | services/hospitalData.ts:67-71 | A reduce-sum does not depend on the order of the wards |
| Census.TotalBoundedBy | services/hospitalData.ts:67-71 | Row-wise bounded fields give bounded sums |
| HospitalData.InitialCensusConsistent | services/hospitalData.ts:4-59 | The initial census has six wards, one of each kind, and in each of them 0 ≤ occupied and occupied + blocked ≤ beds |
| HospitalData.Percent | services/hospitalData.ts:63 | The whole percentage nearest to 100n/d, halves up, for any non-zero denominator |
| HospitalData.PercentAtMost100 | services/hospitalData.ts:63 | A numerator no larger than a positive denominator gives at most 100 |
| HospitalData.CalculateOccupancy | services/hospitalData.ts:61-64 | 0 for zero beds; otherwise the percentage of (occupied + blocked) over total, rounded half up |
| HospitalData.GetTotalStats | services/hospitalData.ts:66-84 | Five plain sums of the matching fields, and the rate round(100·(occupied+blocked)/total), 0 without positive capacity |
| HospitalData.TotalStatsEmpty | services/hospitalData.ts:66-84 | An empty census gives all zeros |
| HospitalData.TotalStatsPermutation | services/hospitalData.ts:67-83 | The totals are invariant under permuting the wards |
| HospitalData.OccupancyRateAtMost100 | services/hospitalData.ts:74-80 | The rate is at most 100 when Σ(occupied + blocked) ≤ Σ total |
| HospitalData.TotalStatsOfOneWard | services/hospitalData.ts:61-80 | For one ward with a non-negative bed count, the hospital rate equals that ward's occupancy |
| HospitalData.TotalStatsOfNegativeWard | services/hospitalData.ts:62-80 | For a ward with -2 beds and 1 occupied the two guards disagree: -50 against 0 |
| HospitalData.TotalStatsOfInitialData | services/hospitalData.ts:4-84 | On the initial census: 202 beds, 178 occupied, 5 blocked, rate 91, 25 pending, 22 discharges |
| KnowledgeBase.IsUpper | services/knowledgeBase.ts:73 | The letters `toLowerCase` maps in the modelled range: ASCII A–Z and Latin-1 À–Þ except × |
| KnowledgeBase.LowerChar | services/knowledgeBase.ts:73 | Lowering one character: an upper-case letter becomes the letter 32 code points later, which is not upper-case; every other character is kept |
| KnowledgeBase.ToLower | services/knowledgeBase.ts:73 | Lowering works character by character: each upper-case letter becomes its lower-case partner (`LowerChar`), every other character is kept, the length is kept and no upper-case letter is left |
| KnowledgeBase.ToLowerIdempotent | services/knowledgeBase.ts:81 | Lowering twice is lowering once |
| KnowledgeBase.Matches | services/knowledgeBase.ts:73 | A document matches when some tag, lowered, is exactly one of the keywords |
| KnowledgeBase.CatalogTags | services/knowledgeBase.ts:23-54 | The five catalog documents carry the tag lists of the source, in order |
| KnowledgeBase.CatalogDistinct | services/knowledgeBase.ts:23-54 | The catalog lists no document twice |
| KnowledgeBase.Relevant | services/knowledgeBase.ts:72-74 | The filter keeps exactly the documents with a lowered tag among the keywords |
| KnowledgeBase.Dedup | services/knowledgeBase.ts:77 | Deduplication keeps exactly the same elements, each once |
| KnowledgeBase.DedupIsSubsequence | services/knowledgeBase.ts:77 | The deduplicated list is a subsequence of the input: kept elements stay in input order |
| KnowledgeBase.DedupFirstOccurrenceOrder | services/knowledgeBase.ts:77 | The values come out ordered by their first occurrence in the input, as a `Set` iterates in insertion order |
| KnowledgeBase.DedupOfDistinct | services/knowledgeBase.ts:77 | Deduplicating a list without repeats changes nothing |
| KnowledgeBase.RetrieveRelevantProtocols | services/knowledgeBase.ts:70-78 | A catalog document is returned iff one of its lowered tags is a keyword; no document twice |
| KnowledgeBase.RetrieveIsCatalogSubsequence | services/knowledgeBase.ts:72-77 | The result is the plain filter, a subsequence of the catalog (catalog order kept) |
| KnowledgeBase.RetrieveMonotone | services/knowledgeBase.ts:72-74 | Adding keywords never drops or reorders a returned document |
| KnowledgeBase.RetrieveNoKeywords | services/knowledgeBase.ts:72-74 | No keywords return no documents |
| KnowledgeBase.UpperCaseKeywordMatchesNothing | services/knowledgeBase.ts:73 | Only tags are lowered: a keyword holding an upper-case letter returns nothing |
| KnowledgeBase.RetrieveCritico | services/knowledgeBase.ts:23-78 | Keywords ["critico"] return exactly prot-001 and prot-002, each once |
| KnowledgeBase.Contains | services/knowledgeBase.ts:82 | `includes` holds iff the needle occurs at some position |
| KnowledgeBase.GrdCatalog | services/knowledgeBase.ts:57-64 | The GRD table holds six groups with the source's codes, in order, each code once |
| KnowledgeBase.GrdMatches | services/knowledgeBase.ts:82 | The lookup rule: the lowered diagnosis contains the lowered name, or the other way round |
| KnowledgeBase.FindIndex | services/knowledgeBase.ts:82 | `find` stops at the first matching entry: every entry before it fails the match rule; the table length when none matches |
| KnowledgeBase.FindGRDMatch | services/knowledgeBase.ts:80-83 | A result is a table entry whose lowered name contains or is contained in the lowered diagnosis; none when no entry matches |
| KnowledgeBase.EmptyDiagnosisMatchesFirst | services/knowledgeBase.ts:58-82 | An empty diagnosis matches the first entry, GRD-121 |
| AgenticCoordinator.MockRegistry | components/AgenticCoordinator.tsx:27-31 | The initial registry has three patients, p1, p2 and p3, with distinct ids, on beds URG-04, URG-08 and URG-01 |
| AgenticCoordinator.DischargeFromMockRegistry | components/AgenticCoordinator.tsx:27-31 | Removing p3 (bed URG-01) from the initial registry leaves p1 and p2, in order |
| AgenticCoordinator.NextStatus | components/AgenticCoordinator.tsx:184-189 | The status transitions PENDIENTE → EN_PROCESO → LISTA, with none after LISTA |
| AgenticCoordinator.AdvanceStep | components/AgenticCoordinator.tsx:183-192 | Other ids are kept as they are; the matching task moves one status forward with all other fields unchanged, or leaves the queue from LISTA |
| AgenticCoordinator.Advanced | components/AgenticCoordinator.tsx:182-194 | Advancing never lengthens the queue |
| AgenticCoordinator.AdvanceQueue | components/AgenticCoordinator.tsx:181-195 | The reducer's loop computes the advanced queue, no longer than before |
| AgenticCoordinator.AdvancedAppend | components/AgenticCoordinator.tsx:182-194 | Advancing works task by task, so relative order is kept |
| AgenticCoordinator.AdvancedUnknownId | components/AgenticCoordinator.tsx:182-194 | Advancing an id no task carries leaves the queue identical |
| AgenticCoordinator.AdvancedKeepsOtherTasks | components/AgenticCoordinator.tsx:190-192 | Tasks with other ids come out unchanged and in their relative order |
| AgenticCoordinator.AdvancedMovesOneStep | components/AgenticCoordinator.tsx:183-189 | No skipped or backward transition: every remaining task with the id is an old one, identical but one status later |
| AgenticCoordinator.AdvancedUniqueTask | components/AgenticCoordinator.tsx:182-194 | For a unique id, only that task is replaced by its step |
| AgenticCoordinator.Lifecycle | components/AgenticCoordinator.tsx:180-196 | Three advances take a unique task PENDIENTE → EN_PROCESO → LISTA → removed, touching nothing else; a fourth is a no-op |
| AgenticCoordinator.LifecycleAlone | components/AgenticCoordinator.tsx:180-196 | A task alone in the queue goes PENDIENTE → EN_PROCESO → LISTA → empty queue |
| AgenticCoordinator.BuildTask | components/AgenticCoordinator.tsx:154-163 | The new task is PENDIENTE, ALTA, on the patient's bed with the diagnosis as context. Each field separately takes the classifier's value when it is present and truthy, else its fail-safe default: protocol TERMINAL, the reasoning "Protocolo preventivo por defecto (Fallo IA)" (`FallbackReasoning`) for a missing or empty reasoning, and 60 minutes (`FallbackMinutes`) for a missing or zero estimate. So RAPIDO appears only when the classifier said so, and the estimate is never 0 |
| AgenticCoordinator.RemovePatient | components/AgenticCoordinator.tsx:168 | Exactly the patients with other ids remain |
| AgenticCoordinator.RemovePatientCount | components/AgenticCoordinator.tsx:168 | Every entry with the id is dropped, so the registry shrinks by their number |
| AgenticCoordinator.RemovePatientAppend | components/AgenticCoordinator.tsx:168 | The remaining patients keep their order |
| AgenticCoordinator.RemovePatientOnce | components/AgenticCoordinator.tsx:168 | A patient registered once is cut out and nothing else moves |
| AgenticCoordinator.WithoutAction | components/AgenticCoordinator.tsx:78-80 | Exactly the insights suggesting another action remain |
| AgenticCoordinator.WithoutActionAppend | components/AgenticCoordinator.tsx:78-80 | Dismissal distributes over concatenation: the remaining insights keep their order and multiplicity |
| AgenticCoordinator.WithoutActionAbsent | components/AgenticCoordinator.tsx:78-80 | When no insight suggests the action, the list is unchanged |
| AgenticCoordinator.WithoutActionIdempotent | components/AgenticCoordinator.tsx:78-80 | Dismissing an action twice is dismissing it once |
| AgenticCoordinator.Coordinator.constructor | components/AgenticCoordinator.tsx:46-67 | The initial state: the mock registry, no selection, empty queue and insights |
| AgenticCoordinator.Coordinator.PrepareDischarge | components/AgenticCoordinator.tsx:120-148 | The settled effect of drafting: the patient selected; draft and analysis both set on success, both cleared on failure; the rest unchanged |
| AgenticCoordinator.Coordinator.DigitalDischarge | components/AgenticCoordinator.tsx:150-178 | Without a selection nothing changes; with one, one new task heads the queue over the old queue, the patient's entries leave the registry, and the selection, draft and analysis are cleared; insights unchanged |
| AgenticCoordinator.Coordinator.AdvanceStatus | components/AgenticCoordinator.tsx:180-196 | The queue becomes its advanced copy, never longer; nothing else changes |
| AgenticCoordinator.Coordinator.ApplyAction | components/AgenticCoordinator.tsx:78-80 | The insights suggesting the action are dismissed; nothing else changes |
| AgenticCoordinator.DischargeScenario | components/AgenticCoordinator.tsx:27-196 | Discharging S.T.V. after a classification with every field empty gives a TERMINAL 60-minute task on URG-01, leaves the other two patients, and three advances empty the queue |

## Left out

- **External services.** The calls into the language-model service (context parsing, GRD prediction, note summarising, epicrisis drafting, cleaning classification) are foreign. The classification reaches the discharge as an optional `CleaningAnalysis` parameter, and the draft as an opaque `EpicrisisResult`. The service file is not part of this model.
- **Record definitions.** The `Patient`, `UnstructuredInsight`, `EpicrisisResult` and `CleaningAnalysis` records are not defined in the modelled sources. Their fields are taken from their uses in the coordinator. `admissionDate` and `grdCluster` are dropped: they depend on the clock and on the GRD predictor.
- AgenticCoordinator.Coordinator.DigitalDischarge: the screen shows the discharge button only when no draft is being generated and both the draft and the cleaning analysis are set (components/AgenticCoordinator.tsx:451-517). The method models the handler alone, so it also allows a discharge from states the screen never offers: no analysis, or a draft in progress. In particular, the all-defaults task built from a missing analysis cannot be reached from the screen. From the screen, the defaults apply only to fields of an analysis that are missing or empty.
- AgenticCoordinator.Coordinator.PrepareDischarge: models only the state `handleGenerateEpicrisis` settles into. It leaves out the loading flags, the progress messages and the interleaving of its awaits with other handlers.
- **Asynchronous work.** The patient-enrichment effect, the manual GRD calculator, the context-analysis handler's call and the toast timer all depend on asynchronous foreign calls or timers.
- **Task ids.** `Date.now()` ids are a parameter of `DigitalDischarge`.
- **Presentation.** The dashboard, metric cards, traffic-light colours, progress-bar and complexity-colour helpers, the chat and forum components and the data-entry form carry no logic beyond display and form plumbing.
- **Floating point.** Ratios, thresholds and percentages are exact. JavaScript's double arithmetic can round an exact tie the other way, e.g. 57/200·100 gives 28 in JavaScript but 29 here. The data-entry form stores `parseInt(value) || 0`, which is always an integer, possibly negative, and 0 for unparsable input. So the integer census model covers every value the form can produce. The form edits only occupied beds, probable discharges and pending admissions (components/DataEntryForm.tsx:14-17, 54-75). The bed counts on screen keep their positive initial values, so the negative-bed case of `HospitalData.TotalStatsOfNegativeWard` concerns other callers of `getTotalStats` and `calculateOccupancy`.
- **Unicode case mapping.** `toLowerCase` is modelled for ASCII and Latin-1 upper-case letters only. Other scripts, and multi-character lowerings, are not modelled.
- KnowledgeBase.FindGRDMatch: its own contract states membership and the match rule but not first-ness. That the entry is the first match in table order is stated on `KnowledgeBase.FindIndex`, which it indexes the table with.
- KnowledgeBase.Dedup: `new Set` compares objects by reference, while the model compares documents by value. The two agree here, because the filter returns catalog entries and the catalog holds no two equal documents (`KnowledgeBase.CatalogDistinct`).
- MlEngine.RunHeuristicModel: its contract ties the risk to `RiskOf`. The three threshold characterisations of the risk classes are stated on `MlEngine.RiskClasses` rather than repeated on the method.
- **Orchestration.** There is no orchestrator combining the engine, retrieval and a language model, nor any fallback analysis, in the modelled code, so none is modelled.
