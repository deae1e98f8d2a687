/**
 * The records the agents exchange (src/agents/message_protocol.py): plan
 * steps, plans, per-step results, the per-round execution result (an object
 * whose `mark_failure` updates it in place) and the graph state.
 */
module MessageProtocol {
  import opened Wrappers
  import opened Json

  /** One planned browser action. Only `action` is required; keys beyond the known ones are kept in `extra`. */
  datatype ActionStep = ActionStep(
    action: string,
    url: Option<string>,
    selector: Option<string>,
    value: Option<string>,
    name: Option<string>,
    apiEndpoint: Option<string>,
    apiMethod: Option<string>,
    payload: Option<seq<(string, Json)>>,
    extra: seq<(string, Json)>)

  /** An `ActionStep` built from `action` alone: every optional field takes its default. */
  function NewActionStep(action: string): (s: ActionStep)
    ensures s.action == action
    ensures s.url.None? && s.selector.None? && s.value.None? && s.name.None?
    ensures s.apiEndpoint.None? && s.apiMethod.None? && s.payload.None? && s.extra == []
  {
    ActionStep(action, None, None, None, None, None, None, None, [])
  }

  datatype Plan = Plan(
    steps: seq<ActionStep>,
    rawLlmOutput: Option<string>,
    modelUsed: Option<string>,
    planningSuccess: bool)

  /** A `Plan` built from its steps alone: no raw output, no model, planning marked successful. */
  function NewPlan(steps: seq<ActionStep>): (p: Plan)
    ensures p.steps == steps && p.rawLlmOutput.None? && p.modelUsed.None? && p.planningSuccess
  {
    Plan(steps, None, None, true)
  }

  /** The record of one executed step. */
  datatype StepExecutionResult = StepExecutionResult(
    stepIndex: int,
    action: string,
    success: bool,
    stateChanged: bool,
    screenshotPath: Option<string>,
    pageUrl: Option<string>,
    error: Option<string>,
    details: seq<(string, Json)>)

  /** A step record built from its three required fields: no state change, no screenshot, URL or error, empty details. */
  function NewStepResult(stepIndex: int, action: string, success: bool): (r: StepExecutionResult)
    ensures r.stepIndex == stepIndex && r.action == action && r.success == success
    ensures !r.stateChanged && r.screenshotPath.None? && r.pageUrl.None? && r.error.None? && r.details == []
  {
    StepExecutionResult(stepIndex, action, success, false, None, None, None, [])
  }

  /** The outcome of one round of execution; the executor fills it in place. */
  class ExecutionResult {
    var task: string
    var steps: seq<StepExecutionResult>
    var success: bool
    var error: Option<string>
    var datasetPath: Option<string>

    /** A fresh result: no steps, successful, no error, no dataset path. */
    constructor (task: string)
      ensures this.task == task && steps == [] && success && error.None? && datasetPath.None?
    {
      this.task := task;
      steps := [];
      success := true;
      error := None;
      datasetPath := None;
    }

    /** `mark_failure`: records the failure and its message; nothing else changes. */
    method MarkFailure(message: string)
      modifies this
      ensures !success && error == Some(message)
      ensures task == old(task) && steps == old(steps) && datasetPath == old(datasetPath)
    {
      success := false;
      error := Some(message);
    }
  }

  /** The graph state. Copies share the `ExecutionResult` object, as Pydantic's shallow `model_copy` does. */
  datatype AgentState = AgentState(
    task: string,
    plan: Option<Plan>,
    execution: Option<ExecutionResult>,
    retryCount: int,
    final: bool,
    keepOpen: bool,
    observation: Option<string>,
    isComplete: bool)

  /** The state a run starts from: no plan, execution or observation, no retries, not final. */
  function NewAgentState(task: string, keepOpen: bool): (s: AgentState)
    ensures s.task == task && s.keepOpen == keepOpen
    ensures s.plan.None? && s.execution.None? && s.observation.None?
    ensures s.retryCount == 0 && !s.final && !s.isComplete
  {
    AgentState(task, None, None, 0, false, keepOpen, None, false)
  }
}
