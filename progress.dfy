/**
 * The progress panel shown while the pipeline runs (PipelineProgress.tsx):
 * the status of each main stage derived from the current stage, the fixed
 * table of nine sub-tasks, the done/active/hidden flags of each sub-task row,
 * and the cursor that walks through the sub-tasks of the running stage.
 *
 * The cursor's 2500 ms timer is a discrete `TimerFired` step here.
 */
module Progress {
  import opened Types

  /** `'completed' | 'active' | 'pending' | 'error'` */
  datatype StageStatus = Finished | Active | Pending | Failed
  {
    function Label(): string {
      match this
      case Finished => "completed"
      case Active => "active"
      case Pending => "pending"
      case Failed => "error"
    }
  }

  /** `Array.prototype.indexOf` with value equality: the first position of
      `x` in `s`, or -1. */
  function IndexOf<T(==)>(s: seq<T>, x: T): (i: int)
    ensures -1 <= i < |s|
    ensures i >= 0 ==> s[i] == x && x !in s[..i]
    ensures i < 0 <==> x !in s
    decreases |s|
  {
    if s == [] then -1
    else if s[0] == x then 0
    else
      var j := IndexOf(s[1..], x);
      assert s[1..][..(if j < 0 then 0 else j)] == s[1..(if j < 0 then 1 else j + 1)];
      if j < 0 then -1 else j + 1
  }

  /** The order `getStageStatus` ranks stages by. */
  const StageOrder: seq<PipelineStage> := [Structure, Architecture, MasterPrompt, Completed]

  /** The three stages the stepper shows. */
  predicate IsMainStage(s: PipelineStage) {
    s == Structure || s == Architecture || s == MasterPrompt
  }

  /** How far the run has got: the position of a stage in the run, and -1 for
      the stages a run does not pass through in order. */
  function Rank(s: PipelineStage): int {
    match s
    case Structure => 0
    case Architecture => 1
    case MasterPrompt => 2
    case Completed => 3
    case _ => -1
  }

  lemma StageOrderRanks(s: PipelineStage)
    ensures IndexOf(StageOrder, s) == Rank(s)
  {
    var order := StageOrder;
    assert order[1..][1..][1..][1..] == [];
    assert order[1..] == [Architecture, MasterPrompt, Completed];
    assert order[1..][1..] == [MasterPrompt, Completed];
    assert order[1..][1..][1..] == [Completed];
  }

  /** `getStageStatus(stage)` while `current` is the current stage. */
  function GetStageStatus(current: PipelineStage, stage: PipelineStage): StageStatus {
    var currentIndex := IndexOf(StageOrder, current);
    var itemIndex := IndexOf(StageOrder, stage);
    if current == Error then Failed
    else if currentIndex > itemIndex then Finished
    else if currentIndex == itemIndex then Active
    else Pending
  }

  /** After a failure every stage shows the error status. */
  lemma ErrorFailsEveryStage(stage: PipelineStage)
    ensures GetStageStatus(Error, stage) == Failed
  {
  }

  /** Outside ERROR, a main stage is completed when the run has gone past it,
      active when it is the current stage and pending when the run has not
      reached it; no other status is possible. */
  lemma StatusByRank(current: PipelineStage, stage: PipelineStage)
    requires current != Error && IsMainStage(stage)
    ensures GetStageStatus(current, stage) == Finished <==> Rank(stage) < Rank(current)
    ensures GetStageStatus(current, stage) == Active <==> current == stage
    ensures GetStageStatus(current, stage) == Pending <==> Rank(current) < Rank(stage)
    ensures GetStageStatus(current, stage) != Failed
  {
    StageOrderRanks(current);
    StageOrderRanks(stage);
  }

  /** A completed run shows every main stage completed; before the run
      starts (IDLE, ONBOARDING) every main stage is pending. */
  lemma StatusBeforeAndAfter(stage: PipelineStage)
    requires IsMainStage(stage)
    ensures GetStageStatus(Completed, stage) == Finished
    ensures GetStageStatus(Idle, stage) == Pending
    ensures GetStageStatus(Onboarding, stage) == Pending
  {
    StatusByRank(Completed, stage);
    StatusByRank(Idle, stage);
    StatusByRank(Onboarding, stage);
  }

  /** At most one main stage is active at a time. */
  lemma AtMostOneActive(current: PipelineStage, s: PipelineStage, t: PipelineStage)
    requires IsMainStage(s) && IsMainStage(t)
    requires GetStageStatus(current, s) == Active && GetStageStatus(current, t) == Active
    ensures s == t
  {
    StatusByRank(current, s);
    StatusByRank(current, t);
  }

  /** Statuses run down the stepper: a stage after a completed one may be
      anything, but a stage before an active or completed one is completed. */
  lemma StatusIsMonotone(current: PipelineStage, s: PipelineStage, t: PipelineStage)
    requires current != Error && IsMainStage(s) && IsMainStage(t) && Rank(s) < Rank(t)
    requires GetStageStatus(current, t) == Finished || GetStageStatus(current, t) == Active
    ensures GetStageStatus(current, s) == Finished
  {
    StatusByRank(current, s);
    StatusByRank(current, t);
  }

  // ---------------------------------------------------------------------------
  // The sub-task table.
  // ---------------------------------------------------------------------------

  datatype SubTask = SubTask(caption: string, stage: PipelineStage)

  const StructureTasks: seq<SubTask> := [
    SubTask("Anforderungsanalyse", Structure),
    SubTask("Entitäten-Extraktion", Structure),
    SubTask("Beziehungs-Mapping", Structure)]

  const ArchitectureTasks: seq<SubTask> := [
    SubTask("Stack-Orchestrierung", Architecture),
    SubTask("API-Blueprint", Architecture),
    SubTask("Filesystem-Template", Architecture)]

  const SynthesisTasks: seq<SubTask> := [
    SubTask("Context Compilation", MasterPrompt),
    SubTask("Syntaktische Optimierung", MasterPrompt),
    SubTask("Markdown Rendering", MasterPrompt)]

  /** `SUB_TASKS` */
  const SubTasks: seq<SubTask> := StructureTasks + ArchitectureTasks + SynthesisTasks

  /** `tasks.filter(t => t.stage === stage)` */
  function TasksOf(tasks: seq<SubTask>, stage: PipelineStage): seq<SubTask>
    decreases |tasks|
  {
    if tasks == [] then []
    else (if tasks[0].stage == stage then [tasks[0]] else []) + TasksOf(tasks[1..], stage)
  }

  lemma {:induction false} TasksOfAppend(a: seq<SubTask>, b: seq<SubTask>, stage: PipelineStage)
    ensures TasksOf(a + b, stage) == TasksOf(a, stage) + TasksOf(b, stage)
    decreases |a|
  {
    if a == [] {
      assert a + b == b;
    } else {
      assert (a + b)[0] == a[0];
      assert (a + b)[1..] == a[1..] + b;
      TasksOfAppend(a[1..], b, stage);
    }
  }

  /** Filtering a block whose tasks all belong to one stage keeps all of it
      or none of it. */
  lemma {:induction false} TasksOfUniform(block: seq<SubTask>, owner: PipelineStage, stage: PipelineStage)
    requires forall i :: 0 <= i < |block| ==> block[i].stage == owner
    ensures TasksOf(block, stage) == if owner == stage then block else []
    decreases |block|
  {
    if block != [] {
      TasksOfUniform(block[1..], owner, stage);
    }
  }

  /** The tasks of one stage, in table order. */
  function StageTasks(stage: PipelineStage): seq<SubTask> {
    TasksOf(SubTasks, stage)
  }

  lemma StructureTasksOf(stage: PipelineStage)
    ensures TasksOf(StructureTasks, stage) == if stage == Structure then StructureTasks else []
  {
    TasksOfUniform(StructureTasks, Structure, stage);
  }

  lemma ArchitectureTasksOf(stage: PipelineStage)
    ensures TasksOf(ArchitectureTasks, stage) == if stage == Architecture then ArchitectureTasks else []
  {
    TasksOfUniform(ArchitectureTasks, Architecture, stage);
  }

  lemma SynthesisTasksOf(stage: PipelineStage)
    ensures TasksOf(SynthesisTasks, stage) == if stage == MasterPrompt then SynthesisTasks else []
  {
    TasksOfUniform(SynthesisTasks, MasterPrompt, stage);
  }

  /** The table is the concatenation of the stages' rows, so a stage's rows
      are what each block contributes. */
  lemma StageTasksByBlock(stage: PipelineStage)
    ensures StageTasks(stage)
            == TasksOf(StructureTasks, stage) + TasksOf(ArchitectureTasks, stage) + TasksOf(SynthesisTasks, stage)
  {
    TasksOfAppend(StructureTasks + ArchitectureTasks, SynthesisTasks, stage);
    TasksOfAppend(StructureTasks, ArchitectureTasks, stage);
  }

  lemma StageTasksOfMain(stage: PipelineStage)
    requires IsMainStage(stage)
    ensures StageTasks(stage) ==
            if stage == Structure then StructureTasks
            else if stage == Architecture then ArchitectureTasks
            else SynthesisTasks
  {
    StageTasksByBlock(stage);
    StructureTasksOf(stage);
    ArchitectureTasksOf(stage);
    SynthesisTasksOf(stage);
  }

  lemma StageTasksOfOther(stage: PipelineStage)
    requires !IsMainStage(stage)
    ensures StageTasks(stage) == []
  {
    StageTasksByBlock(stage);
    StructureTasksOf(stage);
    ArchitectureTasksOf(stage);
    SynthesisTasksOf(stage);
  }

  /** Each main stage owns exactly its three consecutive rows of the table,
      and no other stage owns any row. */
  lemma StageTasksOfEachStage(stage: PipelineStage)
    ensures StageTasks(stage) ==
            match stage
            case Structure => StructureTasks
            case Architecture => ArchitectureTasks
            case MasterPrompt => SynthesisTasks
            case _ => []
    ensures IsMainStage(stage) <==> |StageTasks(stage)| == 3
    ensures !IsMainStage(stage) <==> StageTasks(stage) == []
  {
    if IsMainStage(stage) {
      StageTasksOfMain(stage);
    } else {
      StageTasksOfOther(stage);
    }
  }

  /** Rows 0-2 belong to STRUCTURE, rows 3-5 to ARCHITECTURE and rows 6-8 to
      MASTER_PROMPT; row `k` is the `k % 3`-th row of its stage. */
  lemma SubTaskStage(k: int)
    requires 0 <= k < |SubTasks|
    ensures |SubTasks| == 9
    ensures SubTasks[k].stage == if k < 3 then Structure else if k < 6 then Architecture else MasterPrompt
    ensures |StageTasks(SubTasks[k].stage)| == 3
    ensures SubTasks[k] == StageTasks(SubTasks[k].stage)[k % 3]
  {
    StageTasksOfEachStage(SubTasks[k].stage);
  }

  /** `stageTasks.indexOf(task)`: the position of row `k` among its stage's rows. */
  function IndexInStage(k: int): int
    requires 0 <= k < |SubTasks|
  {
    IndexOf(StageTasks(SubTasks[k].stage), SubTasks[k])
  }

  /** The three rows of a stage carry distinct captions. */
  lemma StageRowsDistinct(stage: PipelineStage, i: int, j: int)
    requires IsMainStage(stage) && 0 <= i < 3 && 0 <= j < 3 && i != j
    ensures |StageTasks(stage)| == 3 && StageTasks(stage)[i] != StageTasks(stage)[j]
  {
    StageTasksOfEachStage(stage);
  }

  /** The rows carry distinct captions, so the position within the stage of
      row `k` is `k % 3`. */
  lemma IndexInStageIsRemainder(k: int)
    requires 0 <= k < |SubTasks|
    ensures IndexInStage(k) == k % 3
  {
    SubTaskStage(k);
    var i := IndexInStage(k);
    if i < k % 3 {
      StageRowsDistinct(SubTasks[k].stage, i, k % 3);
    }
  }

  /** `isSubTaskActive`: its stage is active and the cursor is on it. */
  function SubTaskActive(current: PipelineStage, cursor: int, k: int): bool
    requires 0 <= k < |SubTasks|
  {
    GetStageStatus(current, SubTasks[k].stage) == Active && IndexInStage(k) == cursor
  }

  /** `isSubTaskDone`: its stage is completed, or its stage is active and
      the cursor has gone past it. */
  function SubTaskDone(current: PipelineStage, cursor: int, k: int): bool
    requires 0 <= k < |SubTasks|
  {
    GetStageStatus(current, SubTasks[k].stage) == Finished
    || (GetStageStatus(current, SubTasks[k].stage) == Active && IndexInStage(k) < cursor)
  }

  /** A row is done exactly when the run has gone past its stage, or is in
      its stage with the cursor past the row; it is active exactly when the
      run is in its stage with the cursor on the row; never both. */
  lemma SubTaskFlags(current: PipelineStage, cursor: int, k: int)
    requires 0 <= k < |SubTasks|
    ensures SubTaskDone(current, cursor, k) <==>
              || (current != Error && Rank(SubTasks[k].stage) < Rank(current))
              || (current == SubTasks[k].stage && k % 3 < cursor)
    ensures SubTaskActive(current, cursor, k) <==> current == SubTasks[k].stage && k % 3 == cursor
    ensures !(SubTaskDone(current, cursor, k) && SubTaskActive(current, cursor, k))
  {
    SubTaskStage(k);
    IndexInStageIsRemainder(k);
    if current == Error {
      ErrorFailsEveryStage(SubTasks[k].stage);
    } else {
      StatusByRank(current, SubTasks[k].stage);
    }
  }

  /** `stageOrder.indexOf(currentStage)` over the three main stages. */
  function MainIndex(s: PipelineStage): int {
    IndexOf([Structure, Architecture, MasterPrompt], s)
  }

  /** Whether row `k` is left out of the console: its stage is more than one
      step from the current one, unless the run is complete. */
  function SubTaskHidden(current: PipelineStage, k: int): bool
    requires 0 <= k < |SubTasks|
  {
    var distance := MainIndex(current) - MainIndex(SubTasks[k].stage);
    (if distance < 0 then -distance else distance) > 1 && current != Completed
  }

  lemma MainIndexIsRank(s: PipelineStage)
    ensures MainIndex(s) == if IsMainStage(s) then Rank(s) else -1
  {
    var order := [Structure, Architecture, MasterPrompt];
    assert order[1..] == [Architecture, MasterPrompt];
    assert order[1..][1..] == [MasterPrompt];
    assert order[1..][1..][1..] == [];
  }

  /** Which rows are hidden: while STRUCTURE runs, the synthesis rows; while
      MASTER_PROMPT runs, the structure rows; while ARCHITECTURE runs or
      after completion, none; and in IDLE, ONBOARDING and ERROR (which the
      three-stage order does not contain) every row but the structure rows. */
  lemma SubTaskHiddenIff(current: PipelineStage, k: int)
    requires 0 <= k < |SubTasks|
    ensures SubTaskHidden(current, k) <==>
              || (current == Structure && SubTasks[k].stage == MasterPrompt)
              || (current == MasterPrompt && SubTasks[k].stage == Structure)
              || (!IsMainStage(current) && current != Completed && SubTasks[k].stage != Structure)
  {
    SubTaskStage(k);
    MainIndexIsRank(current);
    MainIndexIsRank(SubTasks[k].stage);
  }

  // ---------------------------------------------------------------------------
  // The sub-task cursor.
  // ---------------------------------------------------------------------------

  /** The cursor `activeSubTaskIndex`, the stage it follows, and the pending
      timer: `Some(i)` when a timer will move the cursor to `i`. */
  class SubTaskCursor {
    var activeSubTaskIndex: int
    var stage: PipelineStage
    var pending: Option<int>

    /** The cursor stays within a stage's three rows, and a pending timer
        always moves it one row on, to a row of the current stage. */
    ghost predicate Valid()
      reads this
    {
      && 0 <= activeSubTaskIndex < 3
      && (pending.Some? ==>
            && pending.value == activeSubTaskIndex + 1
            && pending.value < |StageTasks(stage)|)
    }

    /** Mounting with a stage: the cursor starts at 0, then the effect runs. */
    constructor (initial: PipelineStage)
      ensures Valid()
      ensures stage == initial
      ensures activeSubTaskIndex == 0
      ensures pending == (if IsMainStage(initial) then Some(1) else None)
    {
      activeSubTaskIndex := 0;
      stage := initial;
      pending := None;
      StageTasksOfEachStage(initial);
      new;
      Begin();
    }

    /** The effect body for the current stage: nothing for COMPLETED, ERROR
        or a stage without rows; otherwise the cursor goes to row 0 and a
        timer is set for row 1 when there is one. */
    method Begin()
      requires pending.None? && 0 <= activeSubTaskIndex < 3
      modifies this
      ensures Valid()
      ensures stage == old(stage)
      ensures IsMainStage(stage) ==> activeSubTaskIndex == 0 && pending == Some(1)
      ensures !IsMainStage(stage) ==> activeSubTaskIndex == old(activeSubTaskIndex) && pending.None?
    {
      StageTasksOfEachStage(stage);
      if stage == Completed || stage == Error {
        return;
      }
      var currentSubTasks := StageTasks(stage);
      if |currentSubTasks| == 0 {
        return;
      }
      Iterate(0);
    }

    /** `iterateSubTasks(index)`: move the cursor, and set the next timer
        unless this is the stage's last row. */
    method Iterate(index: int)
      requires 0 <= index < |StageTasks(stage)|
      modifies this
      ensures Valid()
      ensures stage == old(stage) && activeSubTaskIndex == index
      ensures pending == if index < |StageTasks(stage)| - 1 then Some(index + 1) else None
    {
      StageTasksOfEachStage(stage);
      activeSubTaskIndex := index;
      if index < |StageTasks(stage)| - 1 {
        pending := Some(index + 1);
      } else {
        pending := None;
      }
    }

    /** The stage changes: the previous timer is cleared, then the effect
        runs for the new stage. */
    method StageChanged(next: PipelineStage)
      requires Valid()
      modifies this
      ensures Valid()
      ensures stage == next
      ensures IsMainStage(next) ==> activeSubTaskIndex == 0 && pending == Some(1)
      ensures !IsMainStage(next) ==> activeSubTaskIndex == old(activeSubTaskIndex) && pending.None?
    {
      pending := None;
      stage := next;
      Begin();
    }

    /** The timer fires: the cursor moves on by one row, never past the
        stage's last row; without a pending timer nothing happens. */
    method TimerFired()
      requires Valid()
      modifies this
      ensures Valid()
      ensures stage == old(stage)
      ensures old(pending).None? ==> activeSubTaskIndex == old(activeSubTaskIndex) && pending.None?
      ensures old(pending).Some? ==>
                && activeSubTaskIndex == old(activeSubTaskIndex) + 1
                && activeSubTaskIndex <= |StageTasks(stage)| - 1
      ensures pending.Some? <==> activeSubTaskIndex < |StageTasks(stage)| - 1 && old(pending).Some?
    {
      if pending.Some? {
        Iterate(pending.value);
      }
    }
  }

  /** Walking the cursor: from a fresh stage, the timer fires exactly twice,
      visiting rows 1 and 2, and then stops with the cursor on the last row. */
  method WalkStage(next: PipelineStage, cursor: SubTaskCursor)
    requires cursor.Valid() && IsMainStage(next)
    modifies cursor
    ensures cursor.Valid() && cursor.stage == next
    ensures cursor.activeSubTaskIndex == 2 && cursor.pending.None?
  {
    StageTasksOfEachStage(next);
    cursor.StageChanged(next);
    cursor.TimerFired();
    assert cursor.activeSubTaskIndex == 1;
    cursor.TimerFired();
    assert cursor.activeSubTaskIndex == 2 && cursor.pending.None?;
  }
}
