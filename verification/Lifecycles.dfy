/** The state machines of runs, tasks and graph executions, as transition tables. */
module Lifecycles {

  datatype RunStatus =
    | RunPending | RunPlanning | RunExecuting | RunWaitingForApproval | RunWaitingForMemory
    | RunCompleted | RunFailed | RunCancelled

  function RunTargets(s: RunStatus): set<RunStatus> {
    match s
    case RunPending => {RunPlanning, RunCancelled}
    case RunPlanning => {RunExecuting, RunFailed, RunCancelled}
    case RunExecuting => {RunWaitingForApproval, RunWaitingForMemory, RunCompleted, RunFailed, RunCancelled}
    case RunWaitingForApproval => {RunWaitingForMemory, RunCompleted, RunFailed, RunCancelled}
    case RunWaitingForMemory => {RunCompleted, RunFailed, RunCancelled}
    case RunCompleted => {}
    case RunFailed => {}
    case RunCancelled => {}
  }

  predicate RunTerminal(s: RunStatus) {
    s in {RunCompleted, RunFailed, RunCancelled}
  }

  datatype TaskStatus =
    | TaskPending | TaskReady | TaskLeased | TaskRunning | TaskBlocked | TaskCompleted | TaskFailed | TaskCancelled

  function TaskTargets(s: TaskStatus): set<TaskStatus> {
    match s
    case TaskPending => {TaskReady, TaskCancelled}
    case TaskReady => {TaskLeased, TaskBlocked, TaskFailed, TaskCancelled}
    case TaskLeased => {TaskRunning, TaskReady, TaskFailed, TaskCancelled}
    case TaskRunning => {TaskReady, TaskBlocked, TaskCompleted, TaskFailed, TaskCancelled}
    case TaskBlocked => {TaskReady, TaskFailed, TaskCancelled}
    case TaskCompleted => {}
    case TaskFailed => {}
    case TaskCancelled => {}
  }

  datatype GraphState =
    | NotStarted | Running | WaitingForTool | WaitingForApproval | WaitingForMemory | Paused
    | Completed | Failed | Cancelled | NeedsReconciliation

  function GraphTargets(s: GraphState): set<GraphState> {
    match s
    case NotStarted => {Running, Cancelled}
    case Running =>
      {WaitingForTool, WaitingForApproval, WaitingForMemory, Paused, Completed, Failed, Cancelled, NeedsReconciliation}
    case WaitingForTool => {Running, Failed, Cancelled, NeedsReconciliation}
    case WaitingForApproval => {Running, Failed, Cancelled}
    case WaitingForMemory => {Running, Failed, Cancelled}
    case Paused => {Running, Failed, Cancelled}
    case Completed => {}
    case Failed => {}
    case Cancelled => {}
    case NeedsReconciliation => {Running, Completed, Failed, Cancelled}
  }
}
