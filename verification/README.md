# bruv: a verified model

bruv asks a decision backend typed questions and, on top of that, drives a browser towards a goal.
This project models its most stateful parts in Dafny and proves what they promise, for every input,
every page, every backend and every interleaving.

| files, one module each | what they model |
|---|---|
| `Selection`, `Tournament` | picking one candidate out of any number by batched choices of restricted sizes |
| `Observation`, `ObservationIndex`, `ObservationMeaning` | the bounded page index: filtering, ranking, ids, and the way back from an id; what of a page is listed, said of the page alone |
| `Extraction`, `ExtractionMeaning`, `Executor`, `Effects`, `ExecutorMeaning` | extraction of page elements, re-observation before acting, the browser actions, when they reach an element and what they refuse and leave behind |
| `Protocol`, `ProtocolRuns`, `RunEffects`, `RunOutcomes`, `RunChoices`, `Controller` | the session protocol: a run thread interleaved with `reply` and `stop`; what holds over its runs, how they end and what they act on; the controller object |
| `Driver`, `GoalCheck`, `Composition`, `Choosing` | one canonical Choice question per batch, the goal question, and everything above put together, down to the text behind every option |
| `Json`, `JsonGraph`, `JsonMeaning`, `Questions`, `Validation`, `Reports`, `Registry` | admission and freezing of JSON object graphs, questions, request validation and what its reports say, capabilities |
| `Prompt`, `Results`, `Calibration`, `Rlcd`, `RlcdAnswers`, `RlcdMeaning` | the RLCD ModernBERT pipeline from request to calibrated answer, and which label stands at which logit |
| `ManagedServer` | the life cycle of the managed Simple Jev server |
| `Credentials` | the credential file printer and parser |
| `PageCounterexamples`, `RlcdCounterexample` | concrete inputs on which plausible properties fail |
| `Wrappers`, `Text`, `Sorting`, `Dicts`, `Models` | options and results, strings, orders, Python's dicts, shared entities |

Objects that the program updates in place are classes (`JsonWalker`, `BrowserExecutor`,
`BrowserController`, `ManagedRuntime`, `CredentialFile`) and its loops are methods with invariants.
Each is proved equal to a function of its inputs or its old state, and the theorems are about those
functions. What these compute is said once more without them, of the inputs alone and with the program's
own constants written out, in the `...Meaning` modules, `RunOutcomes`, `RunChoices`, `Choosing` and `Reports`. Whatever the program does not decide is arbitrary: the choosing backend may answer
differently at every call, the page may change between any two looks, the clock gives any time,
servers die and process ids are taken again at any moment.

Four properties that one might expect are false of the code. Each has a concrete input on which it
fails and the exact condition under which it holds:

- Not every validated request can be answered by the RLCD backend. An abstention's legend has one
  node more than the question's criteria, so criteria of exactly 10,000 nodes make an abstention
  invalid. A request is answered whatever the model's output if and only if it has no such question
  (`RlcdAnswers.AlwaysAnswered`); `RlcdAnswers.EvaluationExact` says which outputs fail, and
  `RlcdCounterexample.OverfullAbstentionFails` gives a request.
- With a backend that answers, candidate selection fails if and only if a reserved prompt marker
  occurs in the rendered state or in some candidate's description (`Composition.SelectionIsExact`),
  as on the page of `PageCounterexamples.MarkedPageBlocks`.
- Elements are clicked and filled on whatever page is found when the call begins: the origin is
  enforced only after clicks and navigations. A run acts only on allowed origins if and only if the
  page shown is on one whenever the checks made before acting let a click or a text through
  (`RunEffects.OriginsExact`, call by call `Effects.ExecutedAllowed` and `Effects.TypedAllowed`);
  `PageCounterexamples.RunClicksAway` is a run from the start that clicks on another one.
- A saved credential is read back if and only if it has no line break and no quote character at
  either end (`Credentials.SavedReadsBack`; not `"k`, by `Credentials.QuotedKeyIsLost`). Saving one
  credential changes the other if and only if that has a double quote at an end, or lines that the
  key itself contains say something else of it (`Credentials.SavedKeepsOther`;
  `Credentials.OtherKeyChanges` gives two saves).

Conventions: Python's integers are `int`, its finite floats are `real`, its dicts are ordered
sequences of pairs with distinct keys (sets of keys where the order is not looked at). Exceptions are
`Result` failures. A `Trace` or ghost field records effects that the program itself does not record.

## Model

| member | source | states |
|---|---|---|
| Selection.Partition | src/bruv/browser/selection.py:55-77 | the search over sizes, with its early returns, finds the plan of the first size that fits, or none |
| Selection.PartitionSound | src/bruv/browser/selection.py:55-77 | a plan exists exactly when some size divides the length with remainder 0, 1 or a supported size; it adds up to the length, its parts are supported but for one trailing singleton, and there are at most half as many, rounded up |
| Selection.PartitionExact | src/bruv/browser/selection.py:55-77 | there is no plan exactly when no size s and counts n >= 1 and r, with r zero, one or supported, give n * s + r; otherwise the plan is n batches of s and then r, for the first such size in the order given |
| Selection.PairsPartition | src/bruv/browser/selection.py:55-77 | where pairs are supported every length from 2 on has a plan |
| Selection.RunRound | src/bruv/browser/selection.py:80-115 | the offset loop plays exactly the round that the plan prescribes: same winners, same calls in the same order, same first error |
| Selection.WinnerExact | src/bruv/browser/selection.py:96-114 | a batch is won by exactly the member whose nonblank id is answered; each other answer has its own error, the abstention and unknown ids included |
| Selection.SupportedSizesDesc | src/bruv/browser/selection.py:44-52 | the supported sizes in descending order, or the error where there is none |
| Selection.SelectCandidate | src/bruv/browser/selection.py:118-149 | the whole selection equals the tournament function, input errors included |
| Tournament.TournamentConserves | src/bruv/browser/selection.py:80-149 | whatever is answered, a success has eliminated, summed over its calls, exactly one less than the items, a failure fewer; each call is a supported batch |
| Tournament.SelectionConserves | src/bruv/browser/selection.py:118-149 | at most n - 1 calls for n candidates, exactly n - 1 eliminated on success, every batch of a size the backend takes |
| Tournament.RoundWinners | src/bruv/browser/selection.py:80-115 | the winners of a round are a subsequence of its items, so order and distinct ids are kept |
| Tournament.SelectedIsCandidate | src/bruv/browser/selection.py:118-149 | a selected candidate is one of the candidates, whose ids were distinct |
| Tournament.InputsExact | src/bruv/browser/selection.py:118-138 | which candidate lists are refused before any question, each with its error; a single candidate is selected without one |
| Tournament.FaultsOfSelection | src/bruv/browser/selection.py:41-149 | up to 2^64 candidates, with pairs supported, selection fails only with a fault of some answer: neither "no partition" nor the round limit can occur |
| Tournament.PairsTournament | src/bruv/browser/selection.py:41-149 | for a backend that takes only pairs, success up to 2^(rounds left) items and the round-limit error beyond |
| Tournament.OneBatch | src/bruv/browser/selection.py:55-149 | as many candidates as one batch may have are decided by exactly one call, over all of them |
| Tournament.EveryoneHeard | src/bruv/browser/selection.py:80-149 | no candidate of a successful selection among two or more goes unheard: each was in a batch presented and answered |
| Tournament.SelectionPresents | src/bruv/browser/selection.py:80-149 | every batch presented is of distinct candidates and of a supported size |
| Tournament.TournamentFindsMax | src/bruv/browser/selection.py:118-149 | a contest keeps its greatest item through all remaining rounds and returns it |
| Tournament.SelectionFindsMax | src/bruv/browser/selection.py:55-149 | if each batch that may be presented is answered with its greatest candidate under a strict total order, selection returns the greatest of all |
| Registry.BrowserChoiceBatchSizes | src/bruv/backends/registry.py:346-370 | ascending, and containing exactly the criteria counts within bounds whose total is supported |
| Registry.RegisteredSizes | src/bruv/backends/registry.py:346-370 | what each registered backend takes: 2 to 50 candidates at once, RLCD only 2, 3, 4, 5, 6, 8, 10, 16 or 24 |
| Driver.Driver.ChooseBatch | src/bruv/browser/driver.py:269-305 | an id is returned only for a batch of distinct candidates of a supported size, is one of theirs, and is not the abstention |
| Driver.StateAdmissible | src/bruv/browser/driver.py:142-190 | whatever the page and history, the state of a request is within the JSON depth and node limits |
| GoalCheck.GoalExact | src/bruv/browser/driver.py:213-265 | the goal counts as complete, or as not, exactly by a yes or no, a calibrated probability read at one half, or the choice in the one fallback question |
| GoalCheck.GoalIsDecided | src/bruv/browser/driver.py:213-265 | with a registered backend that answers, the goal question fails if and only if a reserved marker is in the rendered state |
| Composition.BatchQuestionValid | src/bruv/browser/driver.py:174-190 | a presentable batch always makes a request that the canonical models accept |
| Composition.BatchAcceptable | src/bruv/domain/validation.py:140-236 | of a registered backend's batch request nothing can be invalid but a reserved marker in its state or descriptions |
| Composition.ChoiceIsUsable | src/bruv/browser/driver.py:307-322 | what the driver returns always names a member of the batch, so a tournament fails only where the driver itself raises |
| Composition.ObservationSelects | src/bruv/browser/driver.py:269-322 | over any page and any backend registered by its capabilities, no error of the tournament's own; fewer calls than candidates; each batch passes the size, uniqueness, model and total checks; the result is one of the observation's candidates |
| Composition.SelectionIsExact | src/bruv/browser/driver.py:192-322 | with a backend that answers, selection succeeds if and only if state and descriptions are free of reserved markers |
| Choosing.OfferedExactly | src/bruv/browser/driver.py:285-291 | the request of a batch shows under each candidate's id that candidate's own description, collapsed and cut to 200 characters, in order, and offers nothing else |
| Choosing.StateTold | src/bruv/browser/driver.py:142-190 | the state holds goal, page, the first forty descriptions and the last ten actions, each in its place and cut to its limit; as text where the backend takes no JSON |
| Choosing.ChoiceExact | src/bruv/browser/driver.py:192-305 | an id is returned if and only if the batch may be asked and the backend answers, as itself and with its own calibration claim, the one question with an option other than the abstention |
| Choosing.SelectionGoesByText | src/bruv/browser/driver.py:269-322 | from page to choice: with any registered backend that names the option with the greatest text, for any strict total order, the candidate selected is the one whose own description is greatest |
| Choosing.SomeBackendGoesByText | src/bruv/browser/driver.py:269-322 | for every such order there is a backend like that |
| PageCounterexamples.MarkedPageBlocks | src/bruv/domain/validation.py:68-87 | on a page at https://a.test with one control whose text is a separator marker, which the build accepts, selection fails with a willing backend of the RLCD capabilities; for every library that does what Python's does on these strings |
| Observation.FilterAndRank | src/bruv/browser/observation.py:408-464 | the filtering loop and sort give the kept elements ranked by class and raw index |
| Observation.RankedSorted | src/bruv/browser/observation.py:456-464 | ranking permutes what is kept and sorts it |
| Observation.Build | src/bruv/browser/observation.py:341-406 | `build` gives the observation function of the page, which `ObservationMeaning.BuiltExact` is about: URL, element and summary errors in their order, cut texts, and the lists of the kept elements |
| Observation.FillColumns | src/bruv/browser/observation.py:363-386 | the loop filling the parallel lists gives the columns of the items, or stops at the first element beyond the fingerprint model's limits |
| ObservationMeaning.BuiltExact | src/bruv/browser/observation.py:341-554 | each of the first candidates stands for a supplied, visible and enabled text field, control or link to an allowed origin, with its index, fingerprint, target, foremost review and description; they come in the order of kinds and indices; none that counts is missing but for those behind a full list; every link target is of an allowed origin; down, up and wait come last |
| ObservationMeaning.NothingForbidden | src/bruv/browser/observation.py:408-454 | no candidate stands for an invisible or disabled element, a hidden, password or file input, or a text field for a secret |
| ObservationMeaning.ListedOnce | src/bruv/browser/observation.py:363-386 | with distinct raw indices no element is listed twice |
| ObservationMeaning.BuildErrorsExact | src/bruv/browser/observation.py:354-400 | each error of the build exactly by its cause: a URL that is not absolute http(s), an element to be listed beyond the fingerprint model's limits, or a URL or number of elements beyond those of the summary |
| ObservationIndex.CandidatesSelectable | src/bruv/browser/observation.py:363-388 | the candidates of any observation have distinct ids, none blank nor the abstention id, and number from 3 to 503 |
| ObservationIndex.FingerprintIdFresh | src/bruv/browser/observation.py:466-501 | a colliding digest gets a suffix that no id issued before has |
| ObservationIndex.FingerprintIdsDistinct | src/bruv/browser/observation.py:363-386 | the fingerprint ids of one observation are pairwise distinct however digests collide |
| ObservationIndex.ObservationIgnoresOrder | src/bruv/browser/observation.py:341-464 | with distinct raw indices, supplying the elements in another order gives the same observation |
| ObservationIndex.IndexAgrees | src/bruv/browser/observation.py:203-238 | an id has a raw index if and only if it is one of those numbered up to the number of elements; and then a supplied element is behind its candidate, with that element's index, fingerprint, kind, description, link target and review gate |
| ObservationIndex.GatingExact | src/bruv/browser/observation.py:503-554 | a kept element's candidate goes without a review gate if and only if it neither submits, resets, downloads nor reads like something to review, in what its kind makes relevant |
| Extraction.ExtractElements | src/bruv/browser/executor.py:504-550 | the nested scan with its seen set gives one element and one locator per distinct key, in scan order |
| Extraction.ExtractionSound | src/bruv/browser/executor.py:504-550 | every locator holds the data its element was made from, no key occurs twice, no key on the page within the caps is missed |
| ExtractionMeaning.ExtractedExact | src/bruv/browser/executor.py:504-550 | the elements are numbered in scanning order, each with the very data of its own place, and of everything within the caps the first duplicate in that order is there |
| ExtractionMeaning.NoDuplicates | src/bruv/browser/executor.py:504-550 | no two elements agree in everything but whether they can be seen and used |
| Executor.PlaceAgrees | src/bruv/browser/executor.py:473-486 | on every page the locator found through the index of its observation is that of an element that the candidate stands for: fingerprint and review gate are that element's |
| Executor.ValidatedConfirms | src/bruv/browser/executor.py:441-471 | a candidate that passes has its old id and fingerprint in the fresh observation, the expected kind, no review gate, and a live located element |
| Executor.BrowserExecutor.Start | src/bruv/browser/executor.py:201-237 | the new state, fault and absence of effects of starting: failures on the way close the session, and a closed session fails to start |
| Executor.BrowserExecutor.RefreshObservation | src/bruv/browser/executor.py:488-502 | elements, locators and observation replaced together, but a failing build leaves the old observation |
| Executor.BrowserExecutor.Execute | src/bruv/browser/executor.py:297-339 | the exact state, fault and effects of each kind of action, those refused for a human included |
| Executor.BrowserExecutor.TypeText | src/bruv/browser/executor.py:341-394 | the exact state, fault and effects of typing |
| ExecutorMeaning.VerdictExact | src/bruv/browser/executor.py:441-471 | a candidate passes, needs review or is stale, each exactly by what the two observations list under its id |
| ExecutorMeaning.ExecutedSettled | src/bruv/browser/executor.py:297-339 | a call that does not raise has acted and ends with the page observed anew; one whose page went astray raises, and only such a one raises that; refusals change nothing |
| ExecutorMeaning.TypedSettled | src/bruv/browser/executor.py:341-358 | the same of typing |
| ExecutorMeaning.NothingSecretTyped | src/bruv/browser/executor.py:370-394 | whatever is typed goes into an element of the page shown that is no password or file input and is not completed with a card, a code or a password |
| ExecutorMeaning.StartedExact | src/bruv/browser/executor.py:201-237 | a fresh session has started exactly when the browser was launched, the page opened and stayed on its origin, and was observed; every later failure closes it |
| ExecutorMeaning.StartedOnce | src/bruv/browser/executor.py:201-265 | a session is started at most once and one that was closed cannot be used again |
| Executor.ExecutedTrusted | src/bruv/browser/executor.py:297-420 | however the page changes, an action has at most one effect, on its own candidate, confirmed and located just before (on index agreement, which `Executor.PlaceAgrees` gives); navigation only to the candidate's trusted target on an allowed origin |
| Executor.TypedTrusted | src/bruv/browser/executor.py:341-394 | typing fills at most once, this text, in a confirmed and located text candidate |
| Protocol.ActionFor | src/bruv/browser/controller.py:269-296 | the action built is of its candidate's kind and carries its id and safe trusted target, or is the fixed one of its id; none is built exactly where none would do |
| ProtocolRuns.StepKeeps | src/bruv/browser/controller.py:159-413 | each atomic step of run thread, reply or stop keeps the invariant that couples status, pending request, reply, counts and the observation held |
| ProtocolRuns.StepFaithful | src/bruv/browser/controller.py:224-364 | each step adds only faithful effects |
| ProtocolRuns.RepliesTypedOnce | src/bruv/browser/controller.py:195-220 | in every interleaving the typing calls are the accepted replies with their own requests' candidates, at most one behind, none behind at the end |
| ProtocolRuns.EffectsFaithful | src/bruv/browser/controller.py:224-364 | every click, navigation and filling of every run is on the candidate decided on: same id, kind and fingerprint then and just before acting, review-gated in neither, at the place of a visible, enabled element that it stands for; so nothing is clicked that the submit test recognises, that resets or downloads, or whose text a review pattern matches; scrolling goes 3000 down or up by the candidate's id, waiting lasts two seconds |
| RunChoices.EffectsChosen | src/bruv/browser/controller.py:224-254 | whatever a run does to the page is on the very candidate that the driver's selection returned, from the observation of the page shown two steps before, its goal judged incomplete in between; a text is waited for only for such a candidate, under the request's own id |
| Effects.ExecutedRegular | src/bruv/browser/executor.py:297-420 | an action has at most one effect, as asked; it is on an element if and only if the session is usable, the page shown confirms the candidate and its element has a place (and takes text), and then on that page |
| Effects.ExecutedAllowed | src/bruv/browser/executor.py:297-420 | a call keeps to allowed origins if and only if the page it is shown is on one or these guards stop it |
| Effects.TypedAllowed | src/bruv/browser/executor.py:341-394 | the same of typing |
| RunEffects.StepReaches | src/bruv/browser/controller.py:298-364 | an event makes the run act on an element if and only if the guards ahead of the effect hold |
| RunEffects.OriginsExact | src/bruv/browser/executor.py:360-394 | a run clicks and fills only on allowed origins if and only if the page shown is on one whenever those guards hold |
| RunEffects.OnlyRepliesFilled | src/bruv/browser/controller.py:334-386 | in every run the texts filled in are, in order and each at most once, accepted replies with the candidates of their own requests |
| PageCounterexamples.ClickAway | src/bruv/browser/executor.py:360-368 | a click that happens on a page that has left the allowed origins, and fails only afterwards |
| PageCounterexamples.RunClicksAway | src/bruv/browser/controller.py:159-254 | eight steps of a run from the start, with the real observation builder and any backend that takes four candidates at once, the last of which clicks at https://b.test where only https://a.test is allowed |
| ProtocolRuns.SessionCoupled | src/bruv/browser/controller.py:403-413 | a request is pending exactly in needs_text and needs_review, a failure reason is present exactly in failed, and a run ends in a terminal status |
| RunOutcomes.OutcomeExact | src/bruv/browser/controller.py:159-262 | a run is done exactly when a goal question was answered complete, stopped exactly when the flag was seen up at a stop check or in a wait, and then `stop` had been called, paused exactly on a review-gated choice with its request, failed with each reason exactly on its cause: a call that raised, the limit passed on the clock, the step limit, a choice that cannot be done, a wait past the limit |
| RunOutcomes.ClockExact | src/bruv/browser/controller.py:159-187 | time is counted from the first step of the run thread, and a run that has ended has closed the browser |
| RunOutcomes.PublishedExact | src/bruv/browser/controller.py:298-394 | published are one record for each call that did not raise, under its number and with the kind of the candidate acted on, and the observation of the last look that succeeded |
| RunOutcomes.ReplyExact | src/bruv/browser/controller.py:195-220 | in every run a reply is accepted if and only if the thread waits for this very request, has no reply yet, and the text says something in at most 20,000 characters; otherwise nothing changes |
| ProtocolRuns.TerminalStays | src/bruv/browser/controller.py:224-254 | done, failed, stopped and needs_review are never left, and nothing more is done to the page |
| ProtocolRuns.StepsBounded | src/bruv/browser/controller.py:256-314 | steps and goal questions never exceed max_steps; recorded actions are numbered 1, 2, 3 without gaps |
| ProtocolRuns.RunTerminates | src/bruv/browser/controller.py:224-262 | the run thread makes at most 12 * max_steps + 12 moves; after that many it has ended |
| ProtocolRuns.StopBound | src/bruv/browser/controller.py:189-193 | after stop has set its flag at most one more observation, goal question, selection and action or typing call |
| ProtocolRuns.StopEnds | src/bruv/browser/controller.py:224-254 | after stop the run has ended within ten steps of its own thread, waits for replies included |
| Controller.BrowserController.Stop | src/bruv/browser/controller.py:189-193 | exactly the protocol's stop step, invariant kept |
| Controller.BrowserController.Reply | src/bruv/browser/controller.py:195-220 | exactly the protocol's reply step; accepted if and only if a text request of that id is pending and the text is nonblank and short enough |
| Controller.BrowserController.AwaitReply | src/bruv/browser/controller.py:366-386 | one look of the waiting loop: a reply wins over stop, stop over the deadline |
| Controller.BrowserController.TypeReply | src/bruv/browser/controller.py:334-364 | the reply is typed once into the candidate of its request and recorded under the next step number |
| Controller.BrowserController.RunThread | src/bruv/browser/controller.py:159-254 | each section of the run thread is exactly the protocol's step |
| Controller.BrowserController.Interleave | src/bruv/browser/controller.py:159-220 | any interleaving of the calls is a run of the protocol, so the theorems on runs hold of the object |
| JsonGraph.JsonWalker.Visit | src/bruv/domain/questions.py:81-114 | on every heap, cyclic or shared, the recursive walk ends, counts and refuses as its specification, and restores the path set |
| JsonGraph.EnsureJsonCompatible | src/bruv/domain/questions.py:76-117 | admits or refuses as the walk from an empty path set |
| JsonGraph.AdmissionIsExact | src/bruv/domain/questions.py:76-117 | a value is admitted if and only if it unfolds to a finite JSON tree of at most 10,000 nodes, counted with repetition, and depth at most 64 |
| JsonGraph.UnfoldsByPaths | src/bruv/domain/questions.py:81-114 | unfolding within a bound means: every path is that short and ends in a JSON value whose keys are strings |
| JsonGraph.AdmissionByPaths | src/bruv/domain/questions.py:76-117 | admission said of paths in the graph and node count only |
| JsonGraph.AdmittedIsAcyclic | src/bruv/domain/questions.py:97-111 | in an admitted value no path returns to where it was |
| JsonGraph.FreezeUnique | src/bruv/domain/questions.py:59-64 | the frozen copy of an admitted value is one tree, independent of the bound used to unfold it |
| JsonMeaning.FreezeMirrors | src/bruv/domain/questions.py:59-64 | the frozen tree has a node exactly where the graph has a value: the same scalar, or a container of as many children with the same keys in the same order |
| JsonMeaning.RefusalTrue | src/bruv/domain/questions.py:76-117 | every refusal names a real defect: a path to what is not finite, not JSON or keyed by no string, a path that returns, one of 65 steps, or 10,001 different paths |
| Validation.ValidateRequest | src/bruv/domain/validation.py:140-236 | valid exactly when state and all questions are acceptable to the backend; the issues are those of the checks, with their paths, sorted |
| Validation.ReportIsDeterministic | src/bruv/domain/validation.py:35-37 | the report holds exactly what the checks find, ordered by path, code and message, and is the same in whatever order the questions come |
| Reports.ReportedExact | src/bruv/domain/validation.py:68-237 | the report holds an issue if and only if the request has that fault: the code and message of the rule broken, at the path of the state, the question, its type, its criteria or the very entry |
| Sorting.SortIgnoresOrder | src/bruv/domain/validation.py:235-236 | sorting by an order without ties gives the same whatever the order of the entries |
| Validation.NoIssues | src/bruv/domain/validation.py:140-236 | no issue is collected if and only if type, total, markers, ids, levels and entries of every question are acceptable |
| Validation.ValidateReservedInputMarkers | src/bruv/domain/validation.py:68-87 | appends one issue per reserved marker that occurs in the joined texts |
| Validation.ValidateReservedAnswerIds | src/bruv/domain/validation.py:120-137 | appends one issue per option id that is reserved, in the ids' sorted order |
| Prompt.NoStraddle | src/bruv/backends/rlcd_modernbert.py:310-313 | no marker straddles the boundary between a marker and an unmarked text |
| Prompt.FramesOfFramed | src/bruv/backends/rlcd_modernbert.py:310-313 | splitting a prompt of unmarked parts at its markers gives the parts back in order |
| Prompt.JoinContains | src/bruv/domain/validation.py:68-87 | a marker occurs in the joined text exactly when it occurs in some part |
| Prompt.PartsMakePrompt | src/bruv/backends/rlcd_modernbert.py:277-313 | the labels and the question text are unmarked exactly when the caller's parts are |
| Prompt.FramingExact | src/bruv/backends/rlcd_modernbert.py:277-313 | validation accepts a question's texts if and only if its prompt splits back into exactly the candidate labels in order and the question text |
| RlcdMeaning.PromptAsks | src/bruv/backends/rlcd_modernbert.py:277-313 | validation accepts a question's texts if and only if its prompt splits into exactly what the question calls for: for a Noul its text as true, then as not true, for a Choice or Score each value in its order, then the abstention, then question and context |
| Calibration.CalibrationSound | src/bruv/backends/rlcd_calibration.py:186-228 | with a positive temperature for k it never fails: a distribution summing to 1, in the order of the logits, greatest and positive at the first greatest logit |
| Calibration.CalibrationIsSoftmax | src/bruv/backends/rlcd_calibration.py:170-228 | the distribution is the softmax at the temperature of exactly this k |
| Calibration.ConditioningSound | src/bruv/backends/rlcd_modernbert.py:367-375 | conditioning on a mass with a positive greatest entry never fails and gives a distribution with the same greatest entry |
| Rlcd.LogitsRows | src/bruv/backends/rlcd_modernbert.py:327-364 | the parsing loops give the rows or the first fault |
| Rlcd.Evaluate | src/bruv/backends/rlcd_modernbert.py:476-544 | the prompt loop and the row loop give the evaluation function of the request |
| RlcdAnswers.ParseRowsExact | src/bruv/backends/rlcd_modernbert.py:327-364 | output is accepted exactly when it has the expected shape and only finite numbers, and then unchanged |
| RlcdAnswers.AbstentionLegend | src/bruv/backends/rlcd_modernbert.py:316-324 | an abstention's legend has as its keys the candidate ids, and is admissible exactly when the criteria are not overfull |
| RlcdAnswers.MapExact | src/bruv/backends/rlcd_modernbert.py:378-436 | an answer maps to a valid canonical answer that says what the distribution says, except an abstention over overfull criteria |
| RlcdAnswers.OneExact | src/bruv/backends/rlcd_modernbert.py:378-436 | one question from logits to answer: refused exactly when it abstains over overfull criteria, otherwise valid, and an abstention exactly when the last used logit is strictly above all others |
| RlcdAnswers.MetadataFits | src/bruv/domain/results.py:228-231 | the provider metadata of a full request is within the JSON limits |
| RlcdAnswers.EvaluationExact | src/bruv/backends/rlcd_modernbert.py:476-544 | for every validated request, finite logits and positive temperatures: success if and only if no question is refused, and then one valid answer per question, under its id and in its place, from the softmax of its own row |
| RlcdMeaning.EvaluationReads | src/bruv/backends/rlcd_modernbert.py:277-544 | where evaluation succeeds the i-th prompt asks the i-th question, and the i-th answer gives each value's id the share of the softmax at that value's own frame in row i, the first greatest winning, or abstains where the last logit is above all |
| RlcdMeaning.MetadataReads | src/bruv/backends/rlcd_modernbert.py:476-544 | the metadata of a successful evaluation: for each question, under its id, the full distribution by id, the revision, scope and path of its temperature, and for a score that does not abstain the mean level |
| RlcdAnswers.AlwaysAnswered | src/bruv/backends/rlcd_modernbert.py:476-544 | a validated request is answered on every well-formed output if and only if none of its questions has criteria of exactly 10,000 nodes |
| RlcdCounterexample.OverfullAbstentionFails | src/bruv/domain/results.py:154-193 | a concrete request that is valid and passes validation under every rendering that puts no marker into its two values, and an output on which its evaluation fails |
| ManagedServer.ManagedRuntime.WaitUntilHealthy | src/bruv/onboarding/simple_jev_runtime.py:1666-1699 | the polling loop ends, healthy exactly if its last probe was; if not, the wait it reports is at least the timeout |
| ManagedServer.ManagedRuntime.PidIsOurs | src/bruv/onboarding/simple_jev_runtime.py:907-914 | ours only for a process identified by its command line in this call |
| ManagedServer.ManagedRuntime.ClearPid | src/bruv/onboarding/simple_jev_runtime.py:901-905 | unlinks the pid file whatever it holds, a missing one being no error; a record goes only right after its process was seen dead |
| ManagedServer.ManagedRuntime.ReuseHealthyManaged | src/bruv/onboarding/simple_jev_runtime.py:1641-1664 | a responding server is adopted exactly on a healthy probe, its record and its command line; if not, one of these was seen to be missing |
| ManagedServer.ManagedRuntime.AcquireLock | src/bruv/onboarding/simple_jev_runtime.py:1723-1763 | the loop ends: with the lock taken, in place of another only if a look showed that to be stale, or not before the startup timeout, the lock then left to its holder |
| ManagedServer.ManagedRuntime.LaunchLocked | src/bruv/onboarding/simple_jev_runtime.py:1534-1586 | the startup lock is given back on every way out but the refusal to take it; running is reported exactly if the last probe was healthy, and otherwise the record is left exactly where its process was not seen dead |
| ManagedServer.ManagedRuntime.Start | src/bruv/onboarding/simple_jev_runtime.py:1462-1586 | never signals; a running result names the recorded process, identified or spawned in this call and healthy at the last probe; not healthy means that the last probe was not, a busy port that it answered and nothing was spawned; a server is spawned only when the port was just seen free under the lock; at most one managed server stays alive and it is the recorded one; a malformed pid file fails it and stays |
| ManagedServer.ManagedRuntime.Stop | src/bruv/onboarding/simple_jev_runtime.py:1782-1851 | signals only the recorded process, identified before in this call; a stop or stale result leaves no managed server and no record; refused as unidentified exactly on a command line that could not be read or does not match; every failure leaves the pid file |
| ManagedServer.ManagedRuntime.StopIdentified | src/bruv/onboarding/simple_jev_runtime.py:1824-1851 | terminate comes first, a kill only after it to a process just seen alive; success ends with the process seen dead and its record cleared, failure with it seen alive |
| ManagedServer.ManagedRuntime.RepairClearBrokenState | src/bruv/onboarding/simple_jev_runtime.py:1371-1397 | clears a malformed pid file, and a record exactly when its process is seen dead; a lock goes only if a look showed it to be stale, and one that stays was not old and its holder was seen alive; signals nothing |
| ManagedServer.ManagedRuntime.EnsureRunning | src/bruv/onboarding/simple_jev_runtime.py:1855-1878 | never signals; reuses only an identified server whose last probe was healthy, otherwise starts, with the outcomes of starting |
| ManagedServer.ManagedRuntime.Serve | src/bruv/onboarding/simple_jev_runtime.py:1371-1878 | after each of any commands in any order at most one managed server is alive and it is the one recorded then; each command's trace is safe, and only stopping signals |
| Credentials.ParseCredentialText | src/bruv/onboarding/credentials.py:95-106 | the line loop gives the parsing function of the text |
| Credentials.CredentialFile.SaveNamed | src/bruv/onboarding/credentials.py:126-155 | refuses a blank key and an unknown name and leaves the file, otherwise prints what was read with the key put in |
| Credentials.SavedReadsBack | src/bruv/onboarding/credentials.py:95-155 | whatever the file held, a saved key is read back byte for byte if and only if it is clean |
| Credentials.QuotedKeyIsLost | src/bruv/onboarding/credentials.py:95-155 | a key that begins with a double quote is not read back |
| Credentials.SavedKeepsOther | src/bruv/onboarding/credentials.py:95-155 | for any key, saving it leaves the other name as it was read if and only if that has no double quote at an end or, where lines inside the key override it, these say the same |
| Credentials.OtherKeyChanges | src/bruv/onboarding/credentials.py:95-155 | two saves after which the first key reads differently |
| Credentials.FileIsMap | src/bruv/onboarding/credentials.py:95-155 | after any saves of clean keys each name reads as its last saved key, and a name never saved is absent |
| Credentials.FileText | src/bruv/onboarding/credentials.py:126-155 | the very text of the file once both names have been saved, in whatever order |
| Credentials.PlainLineReads | src/bruv/onboarding/credentials.py:95-106 | a line written by hand, without quotes and with or without spaces around it, reads as its key under its name alone |
| Credentials.CommentSaysNothing | src/bruv/onboarding/credentials.py:95-106 | a comment line sets nothing |
| Credentials.LaterLinesWin | src/bruv/onboarding/credentials.py:95-106 | of lines that name the same key the last one counts |

## Left out

- Credentials.CredentialFile.SaveNamed: file permissions are one boolean (whether the old content is trusted); write failures, locks on Windows and `load_credentials` precedence are not modelled.
- Observation.Build: URL resolution, white-space collapsing, review patterns and SHA-256 are arbitrary functions.
- Validation.ReportIsDeterministic: the message of an issue is an arbitrary function of its code and of what it names.
- Extraction.ExtractElements: elements that differ only in visibility share a key, as in the source, so the first one met stands for both; the page of one call is taken as one snapshot.
- Executor.BrowserExecutor.Execute: the owner-thread check, transcripts, screenshots and videos are not modelled; the text of a type action is what its reference resolves to.
- Executor.BrowserExecutor.Start: which of the browser's resources were open when starting failed is not distinguished.
- ProtocolRuns.EffectsFaithful: what the submit test does not recognise, such as an image button or a button of an unknown type, is gated only by its text, as in the source.
- ProtocolRuns.StepKeeps: state callbacks do not raise and no process interrupt arrives; code between two points that only the run thread touches is one step.
- ProtocolRuns.RunTerminates: driver, executor and waits are assumed to return; the bound counts the thread's moves.
- Controller.BrowserController.Reply: texts are strings, so the type check on the reply is not modelled.
- Driver.Driver.ChooseBatch: messages are not modelled; a driver error shows in the tournament as a failing chooser.
- GoalCheck.GoalExact: the protocol takes the answer to the goal question as an input, so the two are not run together.
- JsonGraph.JsonWalker.Visit: Python's own recursion limit is not modelled; the depth limit of 64 keeps the walk far from it.
- Calibration.CalibrationSound: arithmetic is over reals with `exp` any nonnegative monotone function that is 1 at 0, so rounding, overflow and underflow are not modelled and the second renormalization is an identity.
- Rlcd.Evaluate: tokenizer and runtime are one arbitrary function from prompts to output; loading, pinning and hashing of artifacts are not modelled.
- ManagedServer.ManagedRuntime.Start: one bruv process at a time, so nobody else takes the startup lock meanwhile; the write of the pid record directly after spawning does not fail; progress messages and log forwarding are not modelled.
- ManagedServer.ManagedRuntime.PidIsOurs: command lines are compared as on POSIX; on Windows case is ignored.
- ManagedServer.ManagedRuntime.Serve: a pid file is spoiled from outside only while no managed server is alive; bruv itself writes only well-formed ones.
- ManagedServer.ManagedRuntime.Stop: a process id that is freed and taken again between identification and signal is not excluded, as in the source.
- ManagedServer.ManagedRuntime.WaitUntilHealthy: time is in whole milliseconds; health and port probes answer arbitrarily.
- Installation, doctor, command line, rendering, stores, HTTP clients, the other backends' adapters and configuration are not part of this model: foreign calls or branch-by-branch reading of input.
- `_choice_option_bounds` reads its bounds from a model class; they are the constants 2 and 50 here.
