/**
 * The generation pipeline of the application shell (App.tsx): the view, the
 * current stage, the result register and the error register, and the three
 * handlers that change them. The three generation calls are opaque: each is
 * a function parameter that yields a value or fails with a message.
 *
 * Every register write and every generation request is logged in a ghost
 * trace, so that the order of the writes, the order of the stages entered
 * and the arguments of each request can be stated about the run.
 */
module Pipeline {
  import opened Types

  /** The page shown: the dashboard, the documentation or the FAQ. */
  datatype View = Dashboard | Documentation | Faq

  const FallbackError := "Ein unerwarteter Fehler ist aufgetreten."

  /** `err.message || fallback`: an empty message counts as missing. */
  function ErrorText(message: string): (text: string)
    ensures text != ""
    ensures message != "" ==> text == message
  {
    if message == "" then FallbackError else message
  }

  /** The three opaque generation requests, with their arguments. */
  datatype Call =
    | GenerateStructure(project: ProjectData)
    | GenerateArchitecture(model: SystemModel)
    | GenerateMasterPrompt(project: ProjectData, model: SystemModel, architecture: TechnicalArchitecture)

  /** One register write of the shell (`setX(...)`, with the updater form
      `prev => ({...prev, stageN})` for the result slots), or a request. */
  datatype Event =
    | SetView(view: View)
    | SetStage(stage: PipelineStage)
    | SetError(error: Option<string>)
    | ClearResult
    | MergeStage1(model: SystemModel)
    | MergeStage2(architecture: TechnicalArchitecture)
    | MergeStage3(masterPrompt: Stage3)
    | Requested(call: Call)

  /** The shell's registers. */
  datatype Registers = Registers(view: View, stage: PipelineStage, result: PipelineResult, error: Option<string>)

  const Initial := Registers(Dashboard, Idle, EmptyResult, None)

  /** What one event does to the registers. */
  function Apply(r: Registers, e: Event): Registers {
    match e
    case SetView(v) => r.(view := v)
    case SetStage(s) => r.(stage := s)
    case SetError(m) => r.(error := m)
    case ClearResult => r.(result := EmptyResult)
    case MergeStage1(m) => r.(result := r.result.(stage1 := Some(m)))
    case MergeStage2(a) => r.(result := r.result.(stage2 := Some(a)))
    case MergeStage3(p) => r.(result := r.result.(stage3 := Some(p)))
    case Requested(_) => r
  }

  /** The registers after the events, in order. */
  function Replay(r: Registers, events: seq<Event>): Registers
    decreases |events|
  {
    if events == [] then r else Apply(Replay(r, events[..|events| - 1]), events[|events| - 1])
  }

  lemma ReplaySnoc(r: Registers, events: seq<Event>, e: Event)
    ensures Replay(r, events + [e]) == Apply(Replay(r, events), e)
  {
    assert (events + [e])[..|events|] == events;
  }

  lemma {:induction false} ReplayAppend(r: Registers, a: seq<Event>, b: seq<Event>)
    ensures Replay(r, a + b) == Replay(Replay(r, a), b)
    decreases |b|
  {
    if b == [] {
      assert a + b == a;
    } else {
      var c := b[..|b| - 1];
      assert a + b == (a + c) + [b[|b| - 1]];
      assert b == c + [b[|b| - 1]];
      ReplaySnoc(r, a + c, b[|b| - 1]);
      ReplayAppend(r, a, c);
      ReplaySnoc(Replay(r, a), c, b[|b| - 1]);
    }
  }

  /** The writes of the `catch` block. */
  function Failure(message: string): seq<Event> {
    [SetError(Some(ErrorText(message))), SetStage(Error)]
  }

  /** Entering a stage and requesting its output. */
  function Enter(stage: PipelineStage, call: Call): seq<Event> {
    [SetStage(stage), Requested(call)]
  }

  /** The writes before the first await: clear the error and the result,
      enter STRUCTURE and request the structure for the project. */
  function Opening(project: ProjectData): seq<Event> {
    [SetError(None), ClearResult] + Enter(Structure, GenerateStructure(project))
  }

  /** What `startPipeline(project)` does, given what each generation call
      yields: clear the error and the result, then for each stage enter it,
      request its output and merge the output into the result; the first
      failure ends the run with the error writes. */
  function PipelineEvents(
    project: ProjectData,
    structure: ProjectData -> Outcome<SystemModel>,
    architecture: SystemModel -> Outcome<TechnicalArchitecture>,
    masterPrompt: (ProjectData, SystemModel, TechnicalArchitecture) -> Outcome<string>): seq<Event>
  {
    Opening(project) + AfterStructure(project, structure, architecture, masterPrompt)
  }

  function AfterStructure(
    project: ProjectData,
    structure: ProjectData -> Outcome<SystemModel>,
    architecture: SystemModel -> Outcome<TechnicalArchitecture>,
    masterPrompt: (ProjectData, SystemModel, TechnicalArchitecture) -> Outcome<string>): seq<Event>
  {
    match structure(project)
    case Fail(m) => Failure(m)
    case Ok(stage1) =>
      [MergeStage1(stage1)] + Enter(Architecture, GenerateArchitecture(stage1))
      + AfterArchitecture(project, stage1, architecture, masterPrompt)
  }

  function AfterArchitecture(
    project: ProjectData,
    stage1: SystemModel,
    architecture: SystemModel -> Outcome<TechnicalArchitecture>,
    masterPrompt: (ProjectData, SystemModel, TechnicalArchitecture) -> Outcome<string>): seq<Event>
  {
    match architecture(stage1)
    case Fail(m) => Failure(m)
    case Ok(stage2) =>
      [MergeStage2(stage2)] + Enter(MasterPrompt, GenerateMasterPrompt(project, stage1, stage2))
      + AfterMasterPrompt(project, stage1, stage2, masterPrompt)
  }

  function AfterMasterPrompt(
    project: ProjectData,
    stage1: SystemModel,
    stage2: TechnicalArchitecture,
    masterPrompt: (ProjectData, SystemModel, TechnicalArchitecture) -> Outcome<string>): seq<Event>
  {
    match masterPrompt(project, stage1, stage2)
    case Fail(m) => Failure(m)
    case Ok(stage3) => [MergeStage3(MasterPromptText(stage3)), SetStage(Completed)]
  }

  /** What `reset` does. */
  const ResetEvents := [SetStage(Idle), ClearResult, SetError(None), SetView(Dashboard)]

  /** The stages entered, in order. */
  function EnteredStages(events: seq<Event>): seq<PipelineStage>
    decreases |events|
  {
    if events == [] then []
    else (if events[0].SetStage? then [events[0].stage] else []) + EnteredStages(events[1..])
  }

  lemma {:induction false} EnteredStagesAppend(a: seq<Event>, b: seq<Event>)
    ensures EnteredStages(a + b) == EnteredStages(a) + EnteredStages(b)
    decreases |a|
  {
    if a == [] {
      assert a + b == b;
    } else {
      assert (a + b)[0] == a[0];
      assert (a + b)[1..] == a[1..] + b;
      EnteredStagesAppend(a[1..], b);
    }
  }

  // ---------------------------------------------------------------------------
  // What a run guarantees.
  // ---------------------------------------------------------------------------

  /** A run starts by clearing the error and the result, before any stage is
      entered. */
  lemma PipelineClearsFirst(
    project: ProjectData,
    structure: ProjectData -> Outcome<SystemModel>,
    architecture: SystemModel -> Outcome<TechnicalArchitecture>,
    masterPrompt: (ProjectData, SystemModel, TechnicalArchitecture) -> Outcome<string>)
    ensures var events := PipelineEvents(project, structure, architecture, masterPrompt);
            |events| >= 4 && events[..2] == [SetError(None), ClearResult]
  {
  }

  /** The stage an event enters, if any. */
  function StageOf(e: Event): seq<PipelineStage> {
    if e.SetStage? then [e.stage] else []
  }

  lemma EnteredStagesOfOne(e: Event)
    ensures EnteredStages([e]) == StageOf(e)
  {
    assert [e][1..] == [];
  }

  lemma EnteredStagesOfTwo(a: Event, b: Event)
    ensures EnteredStages([a, b]) == StageOf(a) + StageOf(b)
  {
    assert [a, b] == [a] + [b];
    EnteredStagesAppend([a], [b]);
    EnteredStagesOfOne(a);
    EnteredStagesOfOne(b);
  }

  lemma EnteredStagesOfThree(a: Event, b: Event, c: Event)
    ensures EnteredStages([a, b, c]) == StageOf(a) + StageOf(b) + StageOf(c)
  {
    assert [a, b, c] == [a] + [b, c];
    EnteredStagesAppend([a], [b, c]);
    EnteredStagesOfOne(a);
    EnteredStagesOfTwo(b, c);
  }

  lemma EnteredStagesOfFour(a: Event, b: Event, c: Event, d: Event)
    ensures EnteredStages([a, b, c, d]) == StageOf(a) + StageOf(b) + StageOf(c) + StageOf(d)
  {
    assert [a, b, c, d] == [a, b] + [c, d];
    EnteredStagesAppend([a, b], [c, d]);
    EnteredStagesOfTwo(a, b);
    EnteredStagesOfTwo(c, d);
  }

  lemma EnteredStagesOfFailure(m: string)
    ensures EnteredStages(Failure(m)) == [Error]
  {
    EnteredStagesOfTwo(Failure(m)[0], Failure(m)[1]);
  }

  /** A block that merges an output and enters the next stage enters just
      that stage before what follows. */
  lemma EnteredStagesOfBlock(merge: Event, stage: PipelineStage, call: Call, rest: seq<Event>)
    requires !merge.SetStage?
    ensures EnteredStages([merge] + Enter(stage, call) + rest) == [stage] + EnteredStages(rest)
  {
    EnteredStagesOfThree(merge, SetStage(stage), Requested(call));
    assert [merge] + Enter(stage, call) == [merge, SetStage(stage), Requested(call)];
    EnteredStagesAppend([merge] + Enter(stage, call), rest);
  }

  lemma StagesAfterMasterPrompt(
    project: ProjectData,
    stage1: SystemModel,
    stage2: TechnicalArchitecture,
    masterPrompt: (ProjectData, SystemModel, TechnicalArchitecture) -> Outcome<string>)
    ensures EnteredStages(AfterMasterPrompt(project, stage1, stage2, masterPrompt))
            == if masterPrompt(project, stage1, stage2).Ok? then [Completed] else [Error]
  {
    match masterPrompt(project, stage1, stage2)
    case Fail(m) => EnteredStagesOfFailure(m);
    case Ok(stage3) => EnteredStagesOfTwo(MergeStage3(MasterPromptText(stage3)), SetStage(Completed));
  }

  lemma StagesAfterArchitecture(
    project: ProjectData,
    stage1: SystemModel,
    architecture: SystemModel -> Outcome<TechnicalArchitecture>,
    masterPrompt: (ProjectData, SystemModel, TechnicalArchitecture) -> Outcome<string>)
    ensures var stages := EnteredStages(AfterArchitecture(project, stage1, architecture, masterPrompt));
            && (architecture(stage1).Fail? ==> stages == [Error])
            && (architecture(stage1).Ok? ==>
                  stages == [MasterPrompt] + EnteredStages(AfterMasterPrompt(project, stage1, architecture(stage1).value, masterPrompt)))
  {
    match architecture(stage1)
    case Fail(m) => EnteredStagesOfFailure(m);
    case Ok(stage2) =>
      EnteredStagesOfBlock(MergeStage2(stage2), MasterPrompt, GenerateMasterPrompt(project, stage1, stage2),
                           AfterMasterPrompt(project, stage1, stage2, masterPrompt));
  }

  lemma StagesAfterStructure(
    project: ProjectData,
    structure: ProjectData -> Outcome<SystemModel>,
    architecture: SystemModel -> Outcome<TechnicalArchitecture>,
    masterPrompt: (ProjectData, SystemModel, TechnicalArchitecture) -> Outcome<string>)
    ensures var stages := EnteredStages(AfterStructure(project, structure, architecture, masterPrompt));
            && (structure(project).Fail? ==> stages == [Error])
            && (structure(project).Ok? ==>
                  stages == [Architecture] + EnteredStages(AfterArchitecture(project, structure(project).value, architecture, masterPrompt)))
  {
    match structure(project)
    case Fail(m) => EnteredStagesOfFailure(m);
    case Ok(stage1) =>
      EnteredStagesOfBlock(MergeStage1(stage1), Architecture, GenerateArchitecture(stage1),
                           AfterArchitecture(project, stage1, architecture, masterPrompt));
  }

  /** Opening a run enters STRUCTURE and nothing else. */
  lemma StagesOfOpening(project: ProjectData)
    ensures EnteredStages(Opening(project)) == [Structure]
  {
    EnteredStagesOfFour(SetError(None), ClearResult, SetStage(Structure), Requested(GenerateStructure(project)));
    assert Opening(project) == [SetError(None), ClearResult, SetStage(Structure), Requested(GenerateStructure(project))];
  }

  /** The stages are entered in the order STRUCTURE, ARCHITECTURE,
      MASTER_PROMPT, and the run ends by entering COMPLETED after all three,
      or ERROR after the stage that failed. */
  lemma StagesEnteredInOrder(
    project: ProjectData,
    structure: ProjectData -> Outcome<SystemModel>,
    architecture: SystemModel -> Outcome<TechnicalArchitecture>,
    masterPrompt: (ProjectData, SystemModel, TechnicalArchitecture) -> Outcome<string>)
    ensures var stages := EnteredStages(PipelineEvents(project, structure, architecture, masterPrompt));
            || stages == [Structure, Error]
            || stages == [Structure, Architecture, Error]
            || stages == [Structure, Architecture, MasterPrompt, Error]
            || stages == [Structure, Architecture, MasterPrompt, Completed]
  {
    var rest := AfterStructure(project, structure, architecture, masterPrompt);
    StagesOfOpening(project);
    EnteredStagesAppend(Opening(project), rest);
    StagesAfterStructure(project, structure, architecture, masterPrompt);
    if structure(project).Ok? {
      var stage1 := structure(project).value;
      StagesAfterArchitecture(project, stage1, architecture, masterPrompt);
      if architecture(stage1).Ok? {
        StagesAfterMasterPrompt(project, stage1, architecture(stage1).value, masterPrompt);
      }
    }
  }

  // ---------------------------------------------------------------------------
  // The requests a run makes.
  // ---------------------------------------------------------------------------

  /** The generation requests among the events, in order. */
  function Requests(events: seq<Event>): seq<Call>
    decreases |events|
  {
    if events == [] then []
    else (if events[0].Requested? then [events[0].call] else []) + Requests(events[1..])
  }

  lemma {:induction false} RequestsAppend(a: seq<Event>, b: seq<Event>)
    ensures Requests(a + b) == Requests(a) + Requests(b)
    decreases |a|
  {
    if a == [] {
      assert a + b == b;
    } else {
      assert (a + b)[0] == a[0];
      assert (a + b)[1..] == a[1..] + b;
      RequestsAppend(a[1..], b);
    }
  }

  lemma RequestsOfTwo(a: Event, b: Event)
    requires !a.Requested? && !b.Requested?
    ensures Requests([a, b]) == []
  {
    assert [b][1..] == [];
    assert Requests([b]) == [];
    assert [a, b][1..] == [b];
  }

  lemma RequestsOfEnter(stage: PipelineStage, call: Call)
    ensures Requests(Enter(stage, call)) == [call]
  {
    var block := Enter(stage, call);
    assert block[1..][1..] == [];
    assert Requests(block[1..]) == [call];
    assert block[0] == SetStage(stage);
  }

  /** Merging an output, entering a stage and requesting `call` requests
      just `call` before what follows. */
  lemma RequestsOfBlock(merge: Event, stage: PipelineStage, call: Call, rest: seq<Event>)
    requires !merge.Requested?
    ensures Requests([merge] + Enter(stage, call) + rest) == [call] + Requests(rest)
  {
    var block := [merge, SetStage(stage), Requested(call)];
    assert [merge] + Enter(stage, call) == block;
    assert Requests(Enter(stage, call)) == [call] by {
      RequestsOfEnter(stage, call);
    }
    assert block[1..] == Enter(stage, call);
    RequestsAppend(block, rest);
  }

  lemma RequestsOfFailure(m: string)
    ensures Requests(Failure(m)) == []
  {
    RequestsOfTwo(Failure(m)[0], Failure(m)[1]);
  }

  lemma RequestsAfterMasterPrompt(
    project: ProjectData,
    stage1: SystemModel,
    stage2: TechnicalArchitecture,
    masterPrompt: (ProjectData, SystemModel, TechnicalArchitecture) -> Outcome<string>)
    ensures Requests(AfterMasterPrompt(project, stage1, stage2, masterPrompt)) == []
  {
    match masterPrompt(project, stage1, stage2)
    case Fail(m) => RequestsOfFailure(m);
    case Ok(stage3) => RequestsOfTwo(MergeStage3(MasterPromptText(stage3)), SetStage(Completed));
  }

  lemma RequestsAfterArchitecture(
    project: ProjectData,
    stage1: SystemModel,
    architecture: SystemModel -> Outcome<TechnicalArchitecture>,
    masterPrompt: (ProjectData, SystemModel, TechnicalArchitecture) -> Outcome<string>)
    ensures Requests(AfterArchitecture(project, stage1, architecture, masterPrompt))
            == if architecture(stage1).Ok?
               then [GenerateMasterPrompt(project, stage1, architecture(stage1).value)]
               else []
  {
    match architecture(stage1)
    case Fail(m) => RequestsOfFailure(m);
    case Ok(stage2) =>
      RequestsOfBlock(MergeStage2(stage2), MasterPrompt, GenerateMasterPrompt(project, stage1, stage2),
                      AfterMasterPrompt(project, stage1, stage2, masterPrompt));
      RequestsAfterMasterPrompt(project, stage1, stage2, masterPrompt);
  }

  lemma RequestsAfterStructure(
    project: ProjectData,
    structure: ProjectData -> Outcome<SystemModel>,
    architecture: SystemModel -> Outcome<TechnicalArchitecture>,
    masterPrompt: (ProjectData, SystemModel, TechnicalArchitecture) -> Outcome<string>)
    ensures var calls := Requests(AfterStructure(project, structure, architecture, masterPrompt));
            && (structure(project).Fail? ==> calls == [])
            && (structure(project).Ok? ==>
                  calls == [GenerateArchitecture(structure(project).value)]
                           + Requests(AfterArchitecture(project, structure(project).value, architecture, masterPrompt)))
  {
    match structure(project)
    case Fail(m) => RequestsOfFailure(m);
    case Ok(stage1) =>
      RequestsOfBlock(MergeStage1(stage1), Architecture, GenerateArchitecture(stage1),
                      AfterArchitecture(project, stage1, architecture, masterPrompt));
  }

  /** Each stage's request carries exactly what the earlier stages produced:
      the structure is requested for the project; the architecture, only
      after the structure succeeded, for the structure it produced; the
      master prompt, only after both succeeded, for the project, that
      structure and that architecture. */
  lemma RequestsCarryOutputs(
    project: ProjectData,
    structure: ProjectData -> Outcome<SystemModel>,
    architecture: SystemModel -> Outcome<TechnicalArchitecture>,
    masterPrompt: (ProjectData, SystemModel, TechnicalArchitecture) -> Outcome<string>)
    ensures var calls := Requests(PipelineEvents(project, structure, architecture, masterPrompt));
            && 1 <= |calls| <= 3
            && calls[0] == GenerateStructure(project)
            && (|calls| >= 2 <==> structure(project).Ok?)
            && (|calls| >= 2 ==> calls[1] == GenerateArchitecture(structure(project).value))
            && (|calls| == 3 <==> structure(project).Ok? && architecture(structure(project).value).Ok?)
            && (|calls| == 3 ==>
                  calls[2] == GenerateMasterPrompt(project, structure(project).value,
                                                   architecture(structure(project).value).value))
  {
    var begin := [SetError(None), ClearResult] + Enter(Structure, GenerateStructure(project));
    RequestsOfTwo(SetError(None), ClearResult);
    RequestsOfEnter(Structure, GenerateStructure(project));
    RequestsAppend([SetError(None), ClearResult], Enter(Structure, GenerateStructure(project)));
    RequestsAppend(begin, AfterStructure(project, structure, architecture, masterPrompt));
    RequestsAfterStructure(project, structure, architecture, masterPrompt);
    if structure(project).Ok? {
      RequestsAfterArchitecture(project, structure(project).value, architecture, masterPrompt);
    }
  }

  // ---------------------------------------------------------------------------
  // The registers a run leaves.
  // ---------------------------------------------------------------------------

  lemma ReplayOfOne(r: Registers, e: Event)
    ensures Replay(r, [e]) == Apply(r, e)
  {
    assert [e][..0] == [];
  }

  lemma ReplayOfTwo(r: Registers, a: Event, b: Event)
    ensures Replay(r, [a, b]) == Apply(Apply(r, a), b)
  {
    assert [a, b] == [a] + [b];
    ReplayAppend(r, [a], [b]);
    ReplayOfOne(r, a);
    ReplayOfOne(Apply(r, a), b);
  }

  lemma ReplayOfFailure(r: Registers, m: string)
    ensures Replay(r, Failure(m)) == r.(error := Some(ErrorText(m)), stage := Error)
  {
    ReplayOfTwo(r, Failure(m)[0], Failure(m)[1]);
  }

  lemma ReplayOfEnter(r: Registers, stage: PipelineStage, call: Call)
    ensures Replay(r, Enter(stage, call)) == r.(stage := stage)
  {
    ReplayOfTwo(r, SetStage(stage), Requested(call));
  }

  lemma ReplayOfBlock(r: Registers, merge: Event, stage: PipelineStage, call: Call, rest: seq<Event>)
    ensures Replay(r, [merge] + Enter(stage, call) + rest) == Replay(Apply(r, merge).(stage := stage), rest)
  {
    ReplayAppend(r, [merge], Enter(stage, call));
    ReplayOfOne(r, merge);
    ReplayOfEnter(Apply(r, merge), stage, call);
    ReplayAppend(r, [merge] + Enter(stage, call), rest);
  }

  lemma ReplayOfBegin(r: Registers, project: ProjectData, rest: seq<Event>)
    ensures Replay(r, Opening(project) + rest)
            == Replay(r.(error := None, result := EmptyResult, stage := Structure), rest)
  {
    ReplayOfTwo(r, SetError(None), ClearResult);
    ReplayAppend(r, [SetError(None), ClearResult], Enter(Structure, GenerateStructure(project)));
    ReplayOfEnter(r.(error := None, result := EmptyResult), Structure, GenerateStructure(project));
    ReplayAppend(r, [SetError(None), ClearResult] + Enter(Structure, GenerateStructure(project)), rest);
  }

  /** The registers a run leaves, stated directly from what the three calls
      yield: the view is untouched; the first failure leaves ERROR, its
      message (or the fallback) and the outputs of the stages before it; three
      successes leave COMPLETED, no error and all three outputs. Nothing else
      of the registers before the run survives. */
  function RunOutcome(
    view: View,
    project: ProjectData,
    structure: ProjectData -> Outcome<SystemModel>,
    architecture: SystemModel -> Outcome<TechnicalArchitecture>,
    masterPrompt: (ProjectData, SystemModel, TechnicalArchitecture) -> Outcome<string>): Registers
  {
    match structure(project)
    case Fail(m) => Registers(view, Error, EmptyResult, Some(ErrorText(m)))
    case Ok(stage1) =>
      match architecture(stage1)
      case Fail(m) => Registers(view, Error, PipelineResult(Some(stage1), None, None), Some(ErrorText(m)))
      case Ok(stage2) =>
        match masterPrompt(project, stage1, stage2)
        case Fail(m) => Registers(view, Error, PipelineResult(Some(stage1), Some(stage2), None), Some(ErrorText(m)))
        case Ok(stage3) =>
          Registers(view, Completed, PipelineResult(Some(stage1), Some(stage2), Some(MasterPromptText(stage3))), None)
  }

  /** Replaying the writes of a run from any registers gives the outcome. */
  lemma PipelineReachesOutcome(
    prior: Registers,
    project: ProjectData,
    structure: ProjectData -> Outcome<SystemModel>,
    architecture: SystemModel -> Outcome<TechnicalArchitecture>,
    masterPrompt: (ProjectData, SystemModel, TechnicalArchitecture) -> Outcome<string>)
    ensures Replay(prior, PipelineEvents(project, structure, architecture, masterPrompt))
            == RunOutcome(prior.view, project, structure, architecture, masterPrompt)
  {
    var r0 := prior.(error := None, result := EmptyResult, stage := Structure);
    ReplayOfBegin(prior, project, AfterStructure(project, structure, architecture, masterPrompt));
    match structure(project)
    case Fail(m) => ReplayOfFailure(r0, m);
    case Ok(stage1) =>
      var r1 := Apply(r0, MergeStage1(stage1)).(stage := Architecture);
      ReplayOfBlock(r0, MergeStage1(stage1), Architecture, GenerateArchitecture(stage1),
                    AfterArchitecture(project, stage1, architecture, masterPrompt));
      match architecture(stage1)
      case Fail(m) => ReplayOfFailure(r1, m);
      case Ok(stage2) =>
        var r2 := Apply(r1, MergeStage2(stage2)).(stage := MasterPrompt);
        ReplayOfBlock(r1, MergeStage2(stage2), MasterPrompt, GenerateMasterPrompt(project, stage1, stage2),
                      AfterMasterPrompt(project, stage1, stage2, masterPrompt));
        match masterPrompt(project, stage1, stage2)
        case Fail(m) => ReplayOfFailure(r2, m);
        case Ok(stage3) =>
          ReplayOfTwo(r2, MergeStage3(MasterPromptText(stage3)), SetStage(Completed));
  }

  /** A run ends COMPLETED exactly when all three calls succeed, and ERROR
      otherwise; it ends with an error message exactly when it ends ERROR. */
  lemma PipelineCompletesIff(
    prior: Registers,
    project: ProjectData,
    structure: ProjectData -> Outcome<SystemModel>,
    architecture: SystemModel -> Outcome<TechnicalArchitecture>,
    masterPrompt: (ProjectData, SystemModel, TechnicalArchitecture) -> Outcome<string>)
    ensures var final := Replay(prior, PipelineEvents(project, structure, architecture, masterPrompt));
            && (final.stage == Completed <==>
                  && structure(project).Ok?
                  && architecture(structure(project).value).Ok?
                  && masterPrompt(project, structure(project).value, architecture(structure(project).value).value).Ok?)
            && (final.stage == Completed || final.stage == Error)
            && (final.error.Some? <==> final.stage == Error)
            && final.view == prior.view
  {
    PipelineReachesOutcome(prior, project, structure, architecture, masterPrompt);
  }

  /** The result slots a run leaves are filled in stage order, each with the
      output of its own call: a filled slot means its call succeeded with
      that value, and so did every earlier call. */
  lemma PipelineSlotsInOrder(
    prior: Registers,
    project: ProjectData,
    structure: ProjectData -> Outcome<SystemModel>,
    architecture: SystemModel -> Outcome<TechnicalArchitecture>,
    masterPrompt: (ProjectData, SystemModel, TechnicalArchitecture) -> Outcome<string>)
    ensures var result := Replay(prior, PipelineEvents(project, structure, architecture, masterPrompt)).result;
            && (result.stage1.Some? <==> structure(project).Ok?)
            && (result.stage1.Some? ==> structure(project) == Ok(result.stage1.value))
            && (result.stage2.Some? <==> result.stage1.Some? && architecture(result.stage1.value).Ok?)
            && (result.stage2.Some? ==> architecture(result.stage1.value) == Ok(result.stage2.value))
            && (result.stage3.Some? <==>
                  result.stage2.Some? && masterPrompt(project, result.stage1.value, result.stage2.value).Ok?)
            && (result.stage3.Some? ==>
                  result.stage3.value == MasterPromptText(masterPrompt(project, result.stage1.value, result.stage2.value).value))
  {
    PipelineReachesOutcome(prior, project, structure, architecture, masterPrompt);
  }

  /** A failed run reports the failing call's message, or the fallback text
      when the message is empty. */
  lemma PipelineErrorMessage(
    prior: Registers,
    project: ProjectData,
    structure: ProjectData -> Outcome<SystemModel>,
    architecture: SystemModel -> Outcome<TechnicalArchitecture>,
    masterPrompt: (ProjectData, SystemModel, TechnicalArchitecture) -> Outcome<string>)
    ensures var final := Replay(prior, PipelineEvents(project, structure, architecture, masterPrompt));
            && (structure(project).Fail? ==> final.error == Some(ErrorText(structure(project).message)))
            && (structure(project).Ok? && architecture(structure(project).value).Fail? ==>
                  final.error == Some(ErrorText(architecture(structure(project).value).message)))
            && (structure(project).Ok? && architecture(structure(project).value).Ok?
                && masterPrompt(project, structure(project).value, architecture(structure(project).value).value).Fail? ==>
                  final.error == Some(ErrorText(masterPrompt(project, structure(project).value,
                                                             architecture(structure(project).value).value).message)))
            && (final.error.Some? ==> final.error.value != "")
            && (final.error.Some? && final.error.value != FallbackError ==>
                  exists m :: m != "" && final.error == Some(m) && FailedWith(project, structure, architecture, masterPrompt, m))
  {
    PipelineReachesOutcome(prior, project, structure, architecture, masterPrompt);
  }

  /** One of the three calls of a run failed with message `m`. */
  predicate FailedWith(
    project: ProjectData,
    structure: ProjectData -> Outcome<SystemModel>,
    architecture: SystemModel -> Outcome<TechnicalArchitecture>,
    masterPrompt: (ProjectData, SystemModel, TechnicalArchitecture) -> Outcome<string>,
    m: string)
  {
    || structure(project) == Fail(m)
    || (structure(project).Ok? && architecture(structure(project).value) == Fail(m))
    || (structure(project).Ok? && architecture(structure(project).value).Ok?
        && masterPrompt(project, structure(project).value, architecture(structure(project).value).value) == Fail(m))
  }

  /** `reset` leaves the initial registers, whatever came before. */
  lemma ResetRestoresInitial(prior: Registers)
    ensures Replay(prior, ResetEvents) == Initial
  {
    assert ResetEvents == [SetStage(Idle), ClearResult] + [SetError(None), SetView(Dashboard)];
    ReplayAppend(prior, [SetStage(Idle), ClearResult], [SetError(None), SetView(Dashboard)]);
    ReplayOfTwo(prior, SetStage(Idle), ClearResult);
    ReplayOfTwo(prior.(stage := Idle, result := EmptyResult), SetError(None), SetView(Dashboard));
  }

  /** What the shell keeps true of its registers between handlers: an error
      shown is never empty and is shown exactly in the ERROR stage, the
      result slots are filled in stage order, and a completed run has all
      three outputs. */
  predicate Consistent(r: Registers) {
    && (r.error.Some? ==> r.error.value != "")
    && (r.error.Some? <==> r.stage == Error)
    && (r.result.stage2.Some? ==> r.result.stage1.Some?)
    && (r.result.stage3.Some? ==> r.result.stage2.Some?)
    && (r.stage == Completed ==> r.result.stage3.Some?)
  }

  /** A run leaves consistent registers, whatever it started from. */
  lemma PipelineEndsConsistent(
    prior: Registers,
    project: ProjectData,
    structure: ProjectData -> Outcome<SystemModel>,
    architecture: SystemModel -> Outcome<TechnicalArchitecture>,
    masterPrompt: (ProjectData, SystemModel, TechnicalArchitecture) -> Outcome<string>)
    ensures Consistent(Replay(prior, PipelineEvents(project, structure, architecture, masterPrompt)))
  {
    PipelineReachesOutcome(prior, project, structure, architecture, masterPrompt);
  }

  /** Consistency survives every handler but a run, which re-establishes it:
      choosing a view, starting the interview and resetting. */
  lemma HandlersKeepConsistent(r: Registers, v: View)
    requires Consistent(r)
    ensures Consistent(Apply(r, SetView(v)))
    ensures Consistent(Apply(r, SetStage(Onboarding))) <==> r.error.None?
    ensures Consistent(Replay(r, ResetEvents))
  {
    ResetRestoresInitial(r);
  }

  /** The application shell: its four registers, and the ghost log of every
      write and request made so far. */
  class App {
    var view: View
    var currentStage: PipelineStage
    var result: PipelineResult
    var error: Option<string>
    ghost var trace: seq<Event>

    ghost function State(): Registers
      reads this
    {
      Registers(view, currentStage, result, error)
    }

    ghost predicate Valid()
      reads this
    {
      Consistent(State())
    }

    constructor ()
      ensures State() == Initial && trace == []
      ensures Valid()
    {
      view := Dashboard;
      currentStage := Idle;
      result := EmptyResult;
      error := None;
      trace := [];
    }

    /** One register write or request, logged. */
    method Write(e: Event)
      modifies this
      ensures State() == Apply(old(State()), e)
      ensures trace == old(trace) + [e]
    {
      trace := trace + [e];
      match e
      case SetView(v) => view := v;
      case SetStage(s) => currentStage := s;
      case SetError(m) => error := m;
      case ClearResult => result := EmptyResult;
      case MergeStage1(m) => result := result.(stage1 := Some(m));
      case MergeStage2(a) => result := result.(stage2 := Some(a));
      case MergeStage3(p) => result := result.(stage3 := Some(p));
      case Requested(_) =>
    }

    /** `startPipeline(projectData)`: the writes of a run, in order, and the
        registers they leave. */
    method StartPipeline(
      project: ProjectData,
      structure: ProjectData -> Outcome<SystemModel>,
      architecture: SystemModel -> Outcome<TechnicalArchitecture>,
      masterPrompt: (ProjectData, SystemModel, TechnicalArchitecture) -> Outcome<string>)
      modifies this
      ensures trace == old(trace) + PipelineEvents(project, structure, architecture, masterPrompt)
      ensures State() == Replay(old(State()), PipelineEvents(project, structure, architecture, masterPrompt))
      ensures Valid()
    {
      ghost var before := State();
      ghost var log := trace;
      Open(project);
      AwaitStructure(project, structure, architecture, masterPrompt);
      ghost var rest := AfterStructure(project, structure, architecture, masterPrompt);
      assert trace == log + (Opening(project) + rest);
      ReplayOfBegin(before, project, rest);
      PipelineEndsConsistent(before, project, structure, architecture, masterPrompt);
    }

    /** The writes before the first await. */
    method Open(project: ProjectData)
      modifies this
      ensures trace == old(trace) + Opening(project)
      ensures State() == old(State()).(error := None, result := EmptyResult, stage := Structure)
    {
      ghost var log := trace;
      Write(SetError(None));
      Write(ClearResult);
      ghost var cleared := trace;
      Write(SetStage(Structure));
      Write(Requested(GenerateStructure(project)));
      assert trace == cleared + Enter(Structure, GenerateStructure(project));
      assert cleared == log + [SetError(None), ClearResult];
    }

    /** The rest of the `try` block once the structure is requested. */
    method AwaitStructure(
      project: ProjectData,
      structure: ProjectData -> Outcome<SystemModel>,
      architecture: SystemModel -> Outcome<TechnicalArchitecture>,
      masterPrompt: (ProjectData, SystemModel, TechnicalArchitecture) -> Outcome<string>)
      modifies this
      ensures trace == old(trace) + AfterStructure(project, structure, architecture, masterPrompt)
      ensures State() == Replay(old(State()), AfterStructure(project, structure, architecture, masterPrompt))
    {
      var outcome := structure(project);
      match outcome
      case Fail(m) => Catch(m);
      case Ok(stage1) =>
        ghost var before := State();
        ghost var log := trace;
        Write(MergeStage1(stage1));
        Write(SetStage(Architecture));
        Write(Requested(GenerateArchitecture(stage1)));
        AwaitArchitecture(project, stage1, architecture, masterPrompt);
        ghost var rest := AfterArchitecture(project, stage1, architecture, masterPrompt);
        assert trace == log + ([MergeStage1(stage1)] + Enter(Architecture, GenerateArchitecture(stage1)) + rest);
        ReplayOfBlock(before, MergeStage1(stage1), Architecture, GenerateArchitecture(stage1), rest);
    }

    /** The rest of the `try` block once the architecture is requested. */
    method AwaitArchitecture(
      project: ProjectData,
      stage1: SystemModel,
      architecture: SystemModel -> Outcome<TechnicalArchitecture>,
      masterPrompt: (ProjectData, SystemModel, TechnicalArchitecture) -> Outcome<string>)
      modifies this
      ensures trace == old(trace) + AfterArchitecture(project, stage1, architecture, masterPrompt)
      ensures State() == Replay(old(State()), AfterArchitecture(project, stage1, architecture, masterPrompt))
    {
      var outcome := architecture(stage1);
      match outcome
      case Fail(m) => Catch(m);
      case Ok(stage2) =>
        ghost var before := State();
        ghost var log := trace;
        var call := GenerateMasterPrompt(project, stage1, stage2);
        Write(MergeStage2(stage2));
        Write(SetStage(MasterPrompt));
        Write(Requested(call));
        AwaitMasterPrompt(project, stage1, stage2, masterPrompt);
        ghost var rest := AfterMasterPrompt(project, stage1, stage2, masterPrompt);
        assert trace == log + ([MergeStage2(stage2)] + Enter(MasterPrompt, call) + rest);
        ReplayOfBlock(before, MergeStage2(stage2), MasterPrompt, call, rest);
    }

    /** The end of the `try` block once the master prompt is requested. */
    method AwaitMasterPrompt(
      project: ProjectData,
      stage1: SystemModel,
      stage2: TechnicalArchitecture,
      masterPrompt: (ProjectData, SystemModel, TechnicalArchitecture) -> Outcome<string>)
      modifies this
      ensures trace == old(trace) + AfterMasterPrompt(project, stage1, stage2, masterPrompt)
      ensures State() == Replay(old(State()), AfterMasterPrompt(project, stage1, stage2, masterPrompt))
    {
      var outcome := masterPrompt(project, stage1, stage2);
      match outcome
      case Fail(m) => Catch(m);
      case Ok(stage3) =>
        ghost var before := State();
        Write(MergeStage3(MasterPromptText(stage3)));
        Write(SetStage(Completed));
        ReplayOfTwo(before, MergeStage3(MasterPromptText(stage3)), SetStage(Completed));
    }

    /** The `catch` block. */
    method Catch(message: string)
      modifies this
      ensures trace == old(trace) + Failure(message)
      ensures State() == Replay(old(State()), Failure(message))
    {
      ghost var before := State();
      Write(SetError(Some(ErrorText(message))));
      Write(SetStage(Error));
      ReplayOfFailure(before, message);
    }

    /** `reset`: back to the initial registers, whatever came before. */
    method Reset()
      modifies this
      ensures trace == old(trace) + ResetEvents
      ensures State() == Initial
      ensures Valid()
    {
      Write(SetStage(Idle));
      Write(ClearResult);
      Write(SetError(None));
      Write(SetView(Dashboard));
    }

    /** `handleStartOnboarding`: only the stage changes, to ONBOARDING. */
    method StartOnboarding()
      modifies this
      ensures trace == old(trace) + [SetStage(Onboarding)]
      ensures State() == old(State()).(stage := Onboarding)
    {
      Write(SetStage(Onboarding));
    }

    /** Choosing a page: only the view changes, so consistency is neither
        gained nor lost. */
    method ChooseView(v: View)
      modifies this
      ensures trace == old(trace) + [SetView(v)]
      ensures State() == old(State()).(view := v)
      ensures Valid() == old(Valid())
    {
      Write(SetView(v));
    }
  }
}
