# AI Prompt Studio: a verified model of the studio's core

AI Prompt Studio turns a short interview about a software project into
prompts for an AI coding assistant. The interview collects the project data.
The generation pipeline then runs three language-model stages: the system
model (STRUCTURE), the technical architecture (ARCHITECTURE) and the master
prompt (MASTER_PROMPT). Around the pipeline sit a progress display, a small
command-line terminal over the result, a list of saved projects with search
and technology filters, and an "architect" chat.

This project models that core in Dafny and proves what each part promises.

- `types.dfy` (`Types`): the data contracts of `types.ts`. These are the
  pipeline stages, the project data, the three stage outputs, the result
  register, saved projects and interview turns. `Outcome` stands for a call
  that may throw; its `Fail` carries the error's `message`.
- `text.dfy` (`Text`): the JavaScript string operations the components use.
  These are `trim` (the ECMAScript white-space and line-terminator set),
  `toLowerCase`, `split`, `join`, `includes` and `endsWith`.
- `pipeline.dfy` (`Pipeline`): the shell of `App.tsx` as a class `App` with
  the view, stage, result and error registers.
  - `startPipeline`, `reset` and `handleStartOnboarding` are methods.
  - Each register write and each generation request is logged in a ghost
    trace. The methods are proved to produce exactly the event sequence
    `PipelineEvents`, and the new registers are the replay of that
    sequence.
  - The lemmas state what a run guarantees: the order of stages, the
    arguments of each request, the outcome registers, the error message
    and a consistency invariant.
- `onboarding.dfy` (`Interview`): `InteractiveOnboarding.tsx` as a class.
  - It covers answer validation and normalisation (including the
    `keyFeatures` list), suggestion merging, submission, and the COMPLETE
    sentinel of the next-question call.
- `progress.dfy` (`Progress`): `PipelineProgress.tsx`.
  - Pure parts: `getStageStatus`, the nine `SUB_TASKS`, and a row's
    done/active/hidden flags.
  - The timer-driven sub-task cursor is a class `SubTaskCursor`.
- `terminal.dfy` (`Terminal`): `TerminalEmulator.tsx`.
  - The command interpreter `Respond` is pure.
  - `TerminalEmulator.HandleCommand` updates the history and the input
    line.
- `saved_projects.dfy` (`SavedProjects`): `SavedProjectsList.tsx`.
  - `TechFilters` builds the sorted, duplicate-free technology list with
    loops.
  - `FilteredProjects` searches, filters by technology and orders newest
    first.
- `chat.dfy` (`Chat`): `ArchitectChat.tsx` as a class `ArchitectChat`.
  - `handleSend` is split at its `await` into `Send` and `Receive`.
  - `HandleSend` composes the two.

Generation calls (`generateStage1Structure`, `generateStage2Architecture`,
`generateStage3MasterPrompt`, `generateNextInterviewQuestion`,
`askArchitect`) are not modelled. They appear only as parameters:
- In the pipeline, they are function parameters returning an `Outcome`.
- In the interview and the chat, the response is a method parameter.
Each result is therefore arbitrary, and every property holds for every
possible answer, including a failure.

Where the documentation and the code disagree, the model follows the code:
- The architecture stage receives only the system model (`App.tsx:29`), not
  the project data.
- The pipeline stores the master prompt returned by the service as plain
  text (`App.tsx:33-34`, `services/geminiService.ts:129-159`). The
  `stage3` type in `types.ts:77-80`, which the terminal reads, is an object
  with `masterPrompt` and `workspaceFiles`. `Stage3` keeps both shapes:
  the pipeline writes `MasterPromptText`, and the terminal only finds
  files or a prompt in a `WorkspaceBundle`.
- `Terminal.ExportText` therefore yields `""` after a real run, as the code
  does.

## Model

| member | source | states |
|---|---|---|
| Pipeline.ErrorText | App.tsx:39 | the stored message is never empty, and it is the thrown message whenever that is non-empty |
| Pipeline.App.StartPipeline | App.tsx:19-42 | the run logs exactly `PipelineEvents`: clear error and result, then per stage enter, request and merge, with COMPLETED at the end or the catch writes at the first failure; the registers are the replay of those events, and the registers are consistent afterwards |
| Pipeline.App.Open | App.tsx:20-25 | before the first await: error cleared, result emptied, stage STRUCTURE, structure requested for the project |
| Pipeline.App.AwaitStructure | App.tsx:25-30 | after the structure call: its failure gives the catch writes; its success merges stage1, enters ARCHITECTURE and requests the architecture of stage1 |
| Pipeline.App.AwaitArchitecture | App.tsx:29-34 | after the architecture call: its failure gives the catch writes; its success merges stage2, enters MASTER_PROMPT and requests the prompt for project, stage1 and stage2 |
| Pipeline.App.AwaitMasterPrompt | App.tsx:33-36 | after the prompt call: its failure gives the catch writes; its success merges stage3 and enters COMPLETED |
| Pipeline.App.Catch | App.tsx:37-41 | the catch block sets the error text (the message or the fallback) and then the ERROR stage |
| Pipeline.App.Reset | App.tsx:44-49 | reset brings back the initial registers (IDLE, empty result, no error, dashboard) from any state, and they are consistent |
| Pipeline.App.StartOnboarding | App.tsx:51-53 | only the stage changes, to ONBOARDING |
| Pipeline.App.ChooseView | App.tsx:89 | only the view changes; consistency is unaffected |
| Pipeline.App.constructor | App.tsx:14-17 | the registers start as dashboard, IDLE, empty result, no error |
| Pipeline.ReplayAppend | App.tsx:19-42 | replaying two event sequences one after the other equals replaying their concatenation |
| Pipeline.PipelineClearsFirst | App.tsx:20-21 | every run begins by clearing the error and then the result |
| Pipeline.StagesEnteredInOrder | App.tsx:24-40 | the stages entered by a run are STRUCTURE, ARCHITECTURE, MASTER_PROMPT in order, ending with COMPLETED after all three or ERROR right after the failing stage |
| Pipeline.RequestsCarryOutputs | App.tsx:25-33 | a run makes one to three requests; the first asks for the structure of the project, a second is made iff the structure succeeded and carries it, a third is made iff the architecture also succeeded and carries project, structure and architecture |
| Pipeline.PipelineReachesOutcome | App.tsx:19-42 | the registers after a run are exactly `RunOutcome`, an independent case-by-case statement of the final view, stage, result and error |
| Pipeline.PipelineCompletesIff | App.tsx:24-40 | a run ends COMPLETED iff all three calls succeed, otherwise ERROR; an error is set iff the stage is ERROR; the view is untouched |
| Pipeline.PipelineSlotsInOrder | App.tsx:26-34 | each result slot is filled iff the previous one is and its call succeeded, and it holds exactly that call's output |
| Pipeline.PipelineErrorMessage | App.tsx:25-40 | whichever of the three calls fails first, the stored error is its message, or the fallback when that message is empty; a stored error other than the fallback is the message of a call that failed |
| Pipeline.ResetRestoresInitial | App.tsx:44-49 | reset's writes lead from any registers to the initial ones |
| Pipeline.PipelineEndsConsistent | App.tsx:19-42 | whatever the registers before, a run leaves them consistent: non-empty error iff ERROR, result slots filled in order, COMPLETED only with a master prompt |
| Pipeline.HandlersKeepConsistent | App.tsx:44-53 | choosing a view and resetting keep consistency; entering ONBOARDING keeps it iff no error was set |
| Interview.TrimNonEmpty | components/InteractiveOnboarding.tsx:72 | the kept pieces are never more than the pieces, and each is non-empty and trimmed |
| Interview.ParseFeaturesClean | components/InteractiveOnboarding.tsx:72 | every parsed feature is non-empty, trimmed and comma-free |
| Interview.ParseFeaturesAtComma | components/InteractiveOnboarding.tsx:72 | parsing distributes over a comma |
| Interview.ParseFeaturesOfTrim | components/InteractiveOnboarding.tsx:58-72 | splitting the trimmed answer gives the same features as splitting the raw one |
| Interview.ParseFeaturesEmptyIff | components/InteractiveOnboarding.tsx:72-78 | no feature is found exactly when every comma-separated piece is blank |
| Interview.ParseJoinedFeatures | components/InteractiveOnboarding.tsx:72 | joining clean features with ", " and parsing gives them back (round trip) |
| Interview.NormalizeAnswer | components/InteractiveOnboarding.tsx:58-88 | an accepted answer is never blank |
| Interview.NormalizeAnswerRejectsIff | components/InteractiveOnboarding.tsx:61-78 | an answer is refused iff it is blank, or it is a keyFeatures answer whose pieces are all blank |
| Interview.NormalizeAnswerAccepts | components/InteractiveOnboarding.tsx:68-88 | an accepted keyFeatures answer is the non-empty list of clean parsed features; any other field stores the trimmed, non-empty text |
| Interview.NormalizeAnswerMessages | components/InteractiveOnboarding.tsx:61-78 | a refusal carries one of the two fixed messages |
| Interview.MergeSuggestionShape | components/InteractiveOnboarding.tsx:102-107 | a suggestion replaces a blank input, otherwise it follows the trimmed input after " " (input ends with a comma) or ", " |
| Interview.MergeSuggestionAppendsFeatures | components/InteractiveOnboarding.tsx:100-108 | read as a feature list, merging a suggestion appends its features to the input's features |
| Interview.SubmitKeepsWellFormed | components/InteractiveOnboarding.tsx:53-98 | a submission keeps every transcript step recorded in the data and never puts the sentinel on screen |
| Interview.SubmitRequestsIff | components/InteractiveOnboarding.tsx:55-97 | the next question is requested iff a question is shown and the answer is accepted; then the request carries the new data, and the new state is exactly the old one with the answer stored under the question's field, the step (field, trimmed answer, question) appended, and input, question and validation message cleared; with no question shown nothing changes |
| Interview.SubmitRefusal | components/InteractiveOnboarding.tsx:57-78 | a refused answer changes only the validation message, which is the empty-answer message iff the input is blank, else the no-feature message |
| Interview.InteractiveOnboarding.constructor | components/InteractiveOnboarding.tsx:11-18 | the component starts with no data, no question, an empty input and no transcript |
| Interview.InteractiveOnboarding.FetchNextQuestion | components/InteractiveOnboarding.tsx:21-36 | the loading flag ends false; the COMPLETE sentinel hands the data to the caller and leaves the screen; a real question is shown; a failure shows the connection message |
| Interview.InteractiveOnboarding.HandleSubmit | components/InteractiveOnboarding.tsx:53-98 | the new state and the request are those of `Submit` on the old state |
| Interview.InteractiveOnboarding.UseSuggestion | components/InteractiveOnboarding.tsx:100-108 | the input becomes the merged suggestion and the validation message is cleared |
| Interview.InteractiveOnboarding.SetInput | components/InteractiveOnboarding.tsx:208-211 | typing sets the input and clears the validation message |
| Progress.IndexOf | components/PipelineProgress.tsx:37-38 | the result is -1 iff the element is absent, otherwise the position of its first occurrence |
| Progress.StageOrderRanks | components/PipelineProgress.tsx:36-38 | a stage's index in the stage order is its rank in a run, -1 for stages outside the order |
| Progress.ErrorFailsEveryStage | components/PipelineProgress.tsx:40 | after a failure every stage shows the error status |
| Progress.StatusByRank | components/PipelineProgress.tsx:35-44 | outside ERROR a main stage is completed iff it precedes the current stage, active iff it is the current stage, pending iff it follows it |
| Progress.StatusBeforeAndAfter | components/PipelineProgress.tsx:35-44 | when the run is complete every main stage is completed; before a run (IDLE or ONBOARDING) every main stage is pending |
| Progress.AtMostOneActive | components/PipelineProgress.tsx:42 | at most one main stage is active |
| Progress.StatusIsMonotone | components/PipelineProgress.tsx:41-42 | every stage before a completed or active stage is completed |
| Progress.StageTasksOfEachStage | components/PipelineProgress.tsx:14-24 | filtering the table by stage gives each main stage its own three rows and every other stage none |
| Progress.SubTaskStage | components/PipelineProgress.tsx:14-24 | the table has nine rows: rows 0-2 belong to STRUCTURE, 3-5 to ARCHITECTURE, 6-8 to MASTER_PROMPT; row k is row k mod 3 of its stage |
| Progress.StageRowsDistinct | components/PipelineProgress.tsx:14-24 | the rows of one stage are pairwise distinct, so `indexOf` locates each one |
| Progress.IndexInStageIsRemainder | components/PipelineProgress.tsx:115-116 | a row's index within its stage is its table index mod 3 |
| Progress.SubTaskFlags | components/PipelineProgress.tsx:111-118 | a row is done iff its stage is past, or it is in the current stage before the cursor; it is active iff it is in the current stage at the cursor; never both |
| Progress.MainIndexIsRank | components/PipelineProgress.tsx:120-122 | the index among the three main stages is the rank, -1 for any other stage |
| Progress.SubTaskHiddenIff | components/PipelineProgress.tsx:120-124 | a row is hidden iff its stage is two steps from the current one, or the current stage is not a main stage, not COMPLETED, and the row is not a STRUCTURE row |
| Progress.SubTaskCursor.constructor | components/PipelineProgress.tsx:27-62 | mounting sets the cursor to 0 and, for a main stage, schedules the step to 1 |
| Progress.SubTaskCursor.Begin | components/PipelineProgress.tsx:46-60 | on a main stage the cursor restarts at 0 with the step to 1 pending; on any other stage nothing is scheduled |
| Progress.SubTaskCursor.Iterate | components/PipelineProgress.tsx:53-58 | the cursor moves to the index, and the next step is scheduled iff it is not the last row |
| Progress.SubTaskCursor.StageChanged | components/PipelineProgress.tsx:46-62 | a stage change cancels the pending step and restarts the cursor on a main stage |
| Progress.SubTaskCursor.TimerFired | components/PipelineProgress.tsx:56 | a pending step advances the cursor by one and never past the stage's last row |
| Progress.WalkStage | components/PipelineProgress.tsx:46-62 | entering a main stage and letting every timer fire leaves the cursor on the last row with nothing pending |
| Terminal.Tokens | components/TerminalEmulator.tsx:27-31 | a command always has at least one word |
| Terminal.BlankIffNoCommand | components/TerminalEmulator.tsx:27-28 | the command is empty iff the input is white space only |
| Terminal.CommandNameIsFirstWord | components/TerminalEmulator.tsx:27-32 | the command name is the lower-case prefix of the trimmed input up to its first space |
| Terminal.FindFileSpec | components/TerminalEmulator.tsx:51 | the file found is the first whose name equals the word up to case, and nothing is found iff no file matches |
| Terminal.CatIgnoresCase | components/TerminalEmulator.tsx:49-53 | `cat` finds a file whatever the case the name is typed in |
| Terminal.OutputLengths | components/TerminalEmulator.tsx:34-86 | only `clear` clears the screen; help prints 7 lines, ls a header and one per file, a found cat 3, status 5, anything else 1 |
| Terminal.ListingFollowsFiles | components/TerminalEmulator.tsx:46-48 | `ls` prints the header then each file as name and language, in order |
| Terminal.CatShowsFile | components/TerminalEmulator.tsx:49-57 | `cat` prints the banner, content and footer of the matching file, or an error naming the word when no file matches |
| Terminal.EffectsOfCommands | components/TerminalEmulator.tsx:58-70 | a refinement is opened iff the command is `inspect` with a target, addressed "CLI Inspect: target"; the clipboard is written iff the command is `export`, with the master prompt or "" |
| Terminal.TerminalEmulator.constructor | components/TerminalEmulator.tsx:12-13 | the history starts with the two welcome lines and the input is empty |
| Terminal.TerminalEmulator.SetInput | components/TerminalEmulator.tsx:119 | typing changes only the input |
| Terminal.TerminalEmulator.HandleCommand | components/TerminalEmulator.tsx:25-90 | a blank input changes nothing; `clear` empties the history; any other command appends the echo line and the command's output, clears the input and hands out its refinement target and clipboard text |
| SavedProjects.PrecedesTotal | components/SavedProjectsList.tsx:24 | any two different names are ordered one way or the other |
| SavedProjects.PrecedesTransitive | components/SavedProjectsList.tsx:24 | the sort order is transitive |
| SavedProjects.StrictlySortedUnique | components/SavedProjectsList.tsx:24 | two strictly sorted lists with the same elements are equal |
| SavedProjects.InsertSorted | components/SavedProjectsList.tsx:18-24 | inserting a name into a strictly sorted list keeps it strictly sorted |
| SavedProjects.InsertElements | components/SavedProjectsList.tsx:18-24 | insertion adds exactly the name |
| SavedProjects.AllTechNamesIff | components/SavedProjectsList.tsx:19-23 | a name is collected iff some project's architecture lists it as a frontend, backend or database technology |
| SavedProjects.AddNames | components/SavedProjectsList.tsx:20-22 | adding a project's names keeps the set sorted and duplicate-free and adds exactly those names |
| SavedProjects.TechFilters | components/SavedProjectsList.tsx:17-25 | the filters are strictly sorted, so free of duplicates, and contain exactly the technology names of the projects |
| SavedProjects.TechFiltersDetermined | components/SavedProjectsList.tsx:17-25 | the filter list is determined by the projects: any two lists meeting that contract are equal |
| SavedProjects.InsertByTimeElements | components/SavedProjectsList.tsx:40 | inserting a project into the ordered list adds exactly that project |
| SavedProjects.NewestFirstSorted | components/SavedProjectsList.tsx:40 | the ordering is newest first and a permutation of its input |
| SavedProjects.KeepIff | components/SavedProjectsList.tsx:28-39 | the filter keeps a sub-multiset, and a project is kept iff it matches the search and the technology filter |
| SavedProjects.FilteredProjectsSpec | components/SavedProjectsList.tsx:27-41 | the list shown holds exactly the matching projects, each at most as often as given, newest first |
| SavedProjects.MatchesSearchIff | components/SavedProjectsList.tsx:29-31 | a project matches iff the lower-cased query occurs in its lower-cased title or description |
| SavedProjects.EmptyQueryShowsAll | components/SavedProjectsList.tsx:27-41 | with no query and no filter every project is shown |
| SavedProjects.NoArchitectureNeedsNoFilter | components/SavedProjectsList.tsx:33-37 | a project without an architecture is shown only when no technology filter is active |
| Chat.ReplyContents | components/ArchitectChat.tsx:26-30 | the reply is the service's text with its sources, or on failure the fixed error text without sources |
| Chat.ExchangeKeepsAlternation | components/ArchitectChat.tsx:16-34 | a completed send appends the trimmed question and then the reply, keeping questions and replies alternating |
| Chat.ArchitectChat.constructor | components/ArchitectChat.tsx:7-9 | the chat starts empty, with an empty input, and not busy |
| Chat.ArchitectChat.SetInput | components/ArchitectChat.tsx:8 | typing changes only the input |
| Chat.ArchitectChat.Send | components/ArchitectChat.tsx:16-26 | a blank input or a busy chat does nothing; otherwise the trimmed question is appended, the input cleared, the chat marked busy and the question requested |
| Chat.ArchitectChat.Receive | components/ArchitectChat.tsx:26-33 | the reply is appended and the chat is no longer busy |
| Chat.ArchitectChat.HandleSend | components/ArchitectChat.tsx:16-34 | a whole send either changes nothing or appends exactly the exchange for the question, leaving the input empty and the chat idle |
| Text.TrimUnique | components/InteractiveOnboarding.tsx:58 | `trim` removes exactly the leading and trailing white space: white space, trimmed text, white space splits into that text |
| Text.TrimIdempotent | components/TerminalEmulator.tsx:27 | trimming twice is trimming once |
| Text.BlankIffAllWhitespace | components/ArchitectChat.tsx:18 | the trimmed text is empty iff the text is white space only |
| Text.JoinSplit | components/InteractiveOnboarding.tsx:72 | joining the pieces of a split with the separator gives back the text |
| Text.SplitFirstPiece | components/TerminalEmulator.tsx:31-32 | the first piece of a split is the prefix of the text up to the first separator |
| Text.ContainsIffOccurs | components/SavedProjectsList.tsx:30-31 | `includes` holds iff the needle occurs at some position |
| Text.ToLowerIdempotent | components/SavedProjectsList.tsx:30 | lower-casing twice is lower-casing once |

## Left out

- The language-model service (`services/geminiService.ts`): prompts, JSON schemas, parsing and the network. Each call is an arbitrary `Outcome`. `askArchitect` is not part of this model, so the architect's sources are plain strings.
- Rendering, styling, scrolling, focus, the shake animation and its 500 ms timer, the copy-to-clipboard confirmation of the result viewer, and `console.error`.
- Timers: the 2500 ms sub-task timer is an explicit `TimerFired` step. The clean-up `clearTimeout` is modelled as `StageChanged` discarding the pending step.
- Concurrency: a run of `startPipeline` is modelled as one uninterrupted sequence of writes. React's batching, and other handlers running between the awaits, are not modelled.
- Pipeline.App.StartPipeline: the body is split into `Open`, `AwaitStructure`, `AwaitArchitecture`, `AwaitMasterPrompt` and `Catch`, one per block between awaits. The functional updater `prev => ({...prev, stageN})` is a merge into the current result.
- Chat.ArchitectChat.HandleSend: assumes nothing else happens while the answer is pending. Interleavings are covered by calling `Send` and `Receive` separately.
- Interview.InteractiveOnboarding.FetchNextQuestion: `onComplete` is returned to the caller as the handed-off data. `setIsLoading(true)` before the await is not visible because the call is one step.
- The React `e.preventDefault()` calls and the form events themselves.
- Text.ToLower: lower-cases ASCII and Latin-1 letters only. Other scripts are not case-folded, and there is no Unicode normalisation.
- SavedProjects.Precedes: compares characters as Dafny `char`s. JavaScript's default `sort` compares UTF-16 code units, and the two differ only outside the Basic Multilingual Plane.
- SavedProjects.FilteredProjectsSpec: does not state that projects with equal timestamps keep their input order, although `InsertByTime` is stable.
- Terminal: `cat` without a file name prints `"undefined"` in the error line, as the JavaScript template does. `status` prints the label strings of the enumerations.
- The stage3 shape mismatch is modelled as written. After a real run the terminal's `ls` lists no files and `export` copies `""`, because the pipeline stores text where the terminal expects a bundle.
- Interview: the component hands on its `Partial<ProjectData>` with a cast (`onComplete(currentData as ProjectData)`), and the interview asks only four fields. `Pipeline.App.StartPipeline` takes a complete `ProjectData`, so the run on partially filled data is not modelled.
- Interview.InteractiveOnboarding.constructor: the mount-time effect `fetchNextQuestion({})` is not part of the constructor. It is a separate call to `FetchNextQuestion` with the empty data.
- Saved projects: `SavedProject.timestamp` is an unbounded `int`. JavaScript numbers are doubles, so fractional values, NaN and precision loss beyond 2^53 are not modelled.
- The landing page, pricing, documentation, FAQ, use cases, lab tools, voice scoping, refinement drawer and persistence of saved projects (deletion, selection, local storage) are outside this model.
