/**
 * The plan → execute → observe loop: `planner_node` and `executor_node`
 * (src/main.py) and the graph of src/graph/langgraph_builder.py, whose entry
 * is the planner, whose planner is always followed by the executor, and
 * whose executor hands back to the planner while `should_continue` holds.
 */
module ControlLoop {
  import opened Wrappers
  import opened MessageProtocol
  import opened LlmClient
  import opened Orchestrator
  import opened DatasetWriter
  import opened ExecutorAgent

  /** The steps accumulated so far: those of the state's execution, or none. */
  function History(state: AgentState): (h: seq<StepExecutionResult>)
    reads if state.execution.Some? then {state.execution.value} else {}
    ensures state.execution.None? ==> h == []
    ensures state.execution.Some? ==> h == state.execution.value.steps
  {
    if state.execution.Some? && state.execution.value.steps != [] then state.execution.value.steps else []
  }

  /**
   * `OrchestratorAgent.create_plan` as the nodes call it: from the task, the
   * last observation and the history to a plan, or Err(i) for the validation
   * error it raises for planner step i. `Orchestrator.PlanFor` models it;
   * the loop's properties hold for any planner.
   */
  type Planner = (string, Option<string>, seq<StepExecutionResult>) -> Result<Plan, nat>

  /** The planner `main.py` wires in: the orchestrator with its language-model client. */
  function OrchestratorPlanner(client: Client): Planner {
    (task, observation, history) => PlanFor(client, task, observation, history)
  }

  /**
   * `planner_node`: asks the planner for a plan from the task, the last
   * observation and the history, and marks the state final exactly when the
   * plan is empty. A planner error ends the run.
   */
  function PlannerNode(planner: Planner, state: AgentState): (r: Result<AgentState, nat>)
    reads if state.execution.Some? then {state.execution.value} else {}
    ensures var p := planner(state.task, state.observation, History(state));
      && (p.Err? ==> r == Err(p.error))
      && (p.Ok? ==> r.Ok? && r.value.plan == Some(p.value))
    ensures r.Ok? ==> (r.value.final <==> |r.value.plan.value.steps| == 0)
    ensures r.Ok? ==> r.value.(plan := state.plan, final := state.final) == state
  {
    var p := planner(state.task, state.observation, History(state));
    if p.Err? then Err(p.error)
    else Ok(state.(plan := Some(p.value), final := |p.value.steps| == 0))
  }

  /** Python's truthiness of an execution error: a non-empty message. */
  predicate Failed(error: Option<string>) {
    error.Some? && error.value != []
  }

  predicate HasError(e: ExecutionResult)
    reads e
  {
    Failed(e.error)
  }

  /** The test of `should_continue` on the state's `final`, its execution's error and its retry count. */
  predicate Continues(final: bool, failed: bool, retryCount: int) {
    if final then false
    else if failed && retryCount >= 3 then false
    else true
  }

  /** `should_continue`: go back to the planner unless the state is final or a third retry has failed. */
  predicate ShouldContinue(state: AgentState)
    reads if state.execution.Some? then {state.execution.value} else {}
  {
    Continues(state.final, state.execution.Some? && HasError(state.execution.value), state.retryCount)
  }

  /**
   * `executor_node`: runs the plan with step numbers continuing the history,
   * counts a failed round as one more retry and a clean one as none, appends
   * the round's records to the history and takes the round's observation.
   */
  method ExecutorNode(state: AgentState, b: Browser, log: RunDir, now: string) returns (s: AgentState)
    modifies log
    requires state.plan.Some? && log.Valid()
    ensures log.Valid()
    ensures s.execution.Some? && fresh(s.execution.value)
    ensures var steps := state.plan.value.steps;
      var start := |old(History(state))|;
      var e := s.execution.value;
      && e.steps == old(History(state)) + Records(b, start, steps, Executed(b, start, steps))
      && (e.success <==> FirstFailure(b, start, steps).None?)
      && e.error == RoundError(b, start, steps)
      && e.datasetPath == Observation(b, start, steps)
      && s == state.(execution := Some(e), retryCount := if HasError(e) then state.retryCount + 1 else 0,
                     observation := e.datasetPath)
  {
    var history := History(state);
    var execution := Execute(state.task, state.plan.value.steps, |history|, b, log, now);
    var observation := execution.datasetPath;
    var retryCount := state.retryCount;
    if HasError(execution) {
      retryCount := retryCount + 1;
    } else {
      retryCount := 0;
    }
    execution.steps := history + execution.steps;
    s := state.(execution := Some(execution), retryCount := retryCount, observation := observation);
  }

  /** The step numbers of a history run 1, 2, 3, ... without gaps. */
  predicate Gapless(h: seq<StepExecutionResult>) {
    forall k :: 0 <= k < |h| ==> h[k].stepIndex == k + 1
  }

  /** A round numbered on from a gapless history keeps it gapless. */
  lemma RoundKeepsGapless(h: seq<StepExecutionResult>, b: Browser, steps: seq<ActionStep>)
    requires Gapless(h)
    ensures Gapless(h + Records(b, |h|, steps, Executed(b, |h|, steps)))
  {
    RoundRecords(b, |h|, steps);
  }

  /** How a run of the graph ends. */
  datatype Ending =
    | Stopped            // `should_continue` sent the executor to END
    | PlanRejected(step: nat)  // `create_plan` raised for this planner step
    | OutOfRounds        // every available round was used; stands for the graph's recursion limit

  /**
   * One pass through the graph as values: the state it starts from, the
   * history that state carries, the state the executor hands back, and the
   * steps, success, error and dataset path of the new execution.
   */
  datatype Pass = Pass(
    before: AgentState,
    history: seq<StepExecutionResult>,
    after: AgentState,
    steps: seq<StepExecutionResult>,
    success: bool,
    error: Option<string>,
    datasetPath: Option<string>)

  /** The pass that took `state` to `s`, read off the two states' executions. */
  function PassOf(state: AgentState, s: AgentState): (p: Pass)
    requires s.execution.Some?
    reads if state.execution.Some? then {state.execution.value} else {}
    reads s.execution.value
    ensures p.before == state && p.after == s && p.history == History(state)
    ensures p.steps == s.execution.value.steps && p.success == s.execution.value.success
    ensures p.error == s.execution.value.error && p.datasetPath == s.execution.value.datasetPath
  {
    var e := s.execution.value;
    Pass(state, History(state), s, e.steps, e.success, e.error, e.datasetPath)
  }

  /**
   * What one pass through the graph does: the planner node turns the task,
   * the observation and the history into a plan, and the executor node runs
   * that plan against `b`, numbering on from the history. The new state has
   * the plan, is final exactly when the plan is empty, holds the new
   * execution, counts the retry, and observes the round's dataset path.
   */
  ghost predicate PassSpec(planner: Planner, b: Browser, p: Pass) {
    var planned := planner(p.before.task, p.before.observation, p.history);
    && planned.Ok? && p.after.execution.Some?
    && var steps := planned.value.steps;
      var start := |p.history|;
      && p.steps == p.history + Records(b, start, steps, Executed(b, start, steps))
      && (p.success <==> FirstFailure(b, start, steps).None?)
      && p.error == RoundError(b, start, steps)
      && p.datasetPath == Observation(b, start, steps)
      && p.after == p.before.(plan := Some(planned.value), final := |steps| == 0, execution := p.after.execution,
                              retryCount := if Failed(p.error) then p.before.retryCount + 1 else 0,
                              observation := p.datasetPath)
  }

  /**
   * One pass through the graph: the planner, then always the executor. The
   * new state is the executor's over the planner's plan; the history stays
   * gapless, and a planner error ends the pass.
   */
  method Round(planner: Planner, state: AgentState, b: Browser, log: RunDir, now: string)
    returns (r: Result<AgentState, nat>)
    modifies log
    requires log.Valid() && Gapless(History(state))
    ensures log.Valid()
    ensures old(PlannerNode(planner, state)).Err? ==> r == Err(old(PlannerNode(planner, state)).error)
    ensures old(PlannerNode(planner, state)).Ok? ==> r.Ok?
    ensures r.Ok? ==> var s := r.value;
      && s.execution.Some? && fresh(s.execution.value)
      && PassSpec(planner, b, PassOf(state, s))
      && Gapless(History(s))
      && old(History(state)) <= History(s)
  {
    var planned := PlannerNode(planner, state);
    if planned.Err? {
      return Err(planned.error);
    }
    var p := planned.value;
    ghost var h := History(p);
    var s := ExecutorNode(p, b, log, now);
    RoundKeepsGapless(h, b, p.plan.value.steps);
    return Ok(s);
  }

  /** The pass relation of the graph with this planner, as a value. */
  ghost function GraphPass(planner: Planner): (Browser, Pass) -> bool {
    (b, p) => PassSpec(planner, b, p)
  }

  /** `p` is a pass against `b` under the relation `pass`. */
  ghost predicate Holds(pass: (Browser, Pass) -> bool, b: Browser, p: Pass) {
    pass(b, p)
  }

  /**
   * A run of passes under the relation `pass`, the last one added last: the
   * first starts from the fresh state with no history; each is a pass
   * against its round's browser, whose error is recorded in `errors`; each
   * later one starts where the one before ended, with that one's steps as
   * history, and only because `should_continue` held there.
   */
  ghost predicate Run(pass: (Browser, Pass) -> bool, browsers: seq<Browser>, task: string, keepOpen: bool,
                      passes: seq<Pass>, errors: seq<bool>)
    requires |passes| == |errors| <= |browsers|
    decreases |passes|
  {
    if passes == [] then true
    else
      var n := |passes| - 1;
      var p := passes[n];
      && Run(pass, browsers, task, keepOpen, passes[..n], errors[..n])
      && Holds(pass, browsers[n], p) && errors[n] == Failed(p.error)
      && if n == 0 then p.before == NewAgentState(task, keepOpen) && p.history == []
         else Follows(passes[n - 1], p)
  }

  /** `p` starts where `q` ended, with its steps as history, because `should_continue` held there. */
  predicate Follows(q: Pass, p: Pass) {
    p.before == q.after && p.history == q.steps && Continues(p.before.final, Failed(q.error), p.before.retryCount)
  }

  /** The state `s` is where the run `passes` leaves the agent: the fresh state, or the last pass's. */
  predicate EndsIn(s: AgentState, task: string, keepOpen: bool, passes: seq<Pass>)
    reads if s.execution.Some? then {s.execution.value} else {}
  {
    if passes == [] then s == NewAgentState(task, keepOpen)
    else
      var q := passes[|passes| - 1];
      && s == q.after && s.execution.Some?
      && s.execution.value.steps == q.steps && s.execution.value.success == q.success
      && s.execution.value.error == q.error && s.execution.value.datasetPath == q.datasetPath
  }

  /** A run extended by one more pass from where it ended. */
  lemma RunSnoc(pass: (Browser, Pass) -> bool, browsers: seq<Browser>, task: string, keepOpen: bool,
                passes: seq<Pass>, errors: seq<bool>, p: Pass)
    requires |passes| == |errors| < |browsers|
    requires Run(pass, browsers, task, keepOpen, passes, errors)
    requires Holds(pass, browsers[|passes|], p)
    requires passes == [] ==> p.before == NewAgentState(task, keepOpen) && p.history == []
    requires passes != [] ==> Follows(passes[|passes| - 1], p)
    ensures Run(pass, browsers, task, keepOpen, passes + [p], errors + [Failed(p.error)])
  {
    assert (passes + [p])[..|passes|] == passes;
    assert (errors + [Failed(p.error)])[..|passes|] == errors;
  }

  /** The first `m` passes of a run are a run. */
  lemma {:induction false} RunPrefix(pass: (Browser, Pass) -> bool, browsers: seq<Browser>, task: string, keepOpen: bool,
                                     passes: seq<Pass>, errors: seq<bool>, m: nat)
    requires |passes| == |errors| <= |browsers| && m <= |passes|
    requires Run(pass, browsers, task, keepOpen, passes, errors)
    ensures Run(pass, browsers, task, keepOpen, passes[..m], errors[..m])
    decreases |passes|
  {
    var n := |passes| - 1;
    if m == |passes| {
      assert passes[..m] == passes && errors[..m] == errors;
    } else {
      RunPrefix(pass, browsers, task, keepOpen, passes[..n], errors[..n], m);
      assert passes[..n][..m] == passes[..m] && errors[..n][..m] == errors[..m];
    }
  }

  /**
   * The rounds of a run one by one: round r is a pass against `browsers[r]`
   * whose error `errors[r]` records, the first starts afresh, and every later
   * one follows the one before.
   */
  lemma {:induction false} RunRounds(pass: (Browser, Pass) -> bool, browsers: seq<Browser>, task: string, keepOpen: bool,
                                     passes: seq<Pass>, errors: seq<bool>)
    requires |passes| == |errors| <= |browsers|
    requires Run(pass, browsers, task, keepOpen, passes, errors)
    ensures passes != [] ==> passes[0].before == NewAgentState(task, keepOpen) && passes[0].history == []
    ensures forall r :: 0 <= r < |passes| ==> Holds(pass, browsers[r], passes[r]) && errors[r] == Failed(passes[r].error)
    ensures forall r :: 0 < r < |passes| ==> Follows(passes[r - 1], passes[r])
    decreases |passes|
  {
    if passes != [] {
      var n := |passes| - 1;
      var init, einit := passes[..n], errors[..n];
      RunRounds(pass, browsers, task, keepOpen, init, einit);
      forall r | 0 <= r < |passes|
        ensures Holds(pass, browsers[r], passes[r]) && errors[r] == Failed(passes[r].error)
      {
        if r < n {
          assert init[r] == passes[r] && einit[r] == errors[r];
        }
      }
      forall r | 0 < r < |passes|
        ensures Follows(passes[r - 1], passes[r])
      {
        if r < n {
          assert init[r] == passes[r] && init[r - 1] == passes[r - 1];
        }
      }
      if n > 0 {
        assert init[0] == passes[0];
      }
    }
  }

  /** What a pass keeps and changes of the state: task and keep-open stay, the retry count moves, the history stays gapless. */
  predicate Keeps(p: Pass) {
    && p.after.task == p.before.task && p.after.keepOpen == p.before.keepOpen && p.after.execution.Some?
    && p.after.retryCount == (if Failed(p.error) then p.before.retryCount + 1 else 0)
    && (Gapless(p.history) ==> Gapless(p.steps))
  }

  /** Every pass of the graph keeps what `Keeps` says. */
  lemma PassKeeps(planner: Planner, b: Browser, p: Pass)
    requires Holds(GraphPass(planner), b, p)
    ensures Keeps(p)
  {
    var planned := planner(p.before.task, p.before.observation, p.history);
    if Gapless(p.history) {
      RoundKeepsGapless(p.history, b, planned.value.steps);
    }
  }

  /**
   * The state a run leaves when each of its passes keeps what `Keeps` says:
   * the run's task and keep-open flag, a gapless history, a retry count
   * equal to the number of failed rounds at the end, and the last round's
   * error.
   */
  lemma {:induction false} RunState(pass: (Browser, Pass) -> bool, browsers: seq<Browser>, task: string, keepOpen: bool,
                                    passes: seq<Pass>, errors: seq<bool>)
    requires |passes| == |errors| <= |browsers| && passes != []
    requires Run(pass, browsers, task, keepOpen, passes, errors)
    requires forall r :: 0 <= r < |passes| ==> Keeps(passes[r])
    ensures var q := passes[|passes| - 1];
      && q.after.task == task && q.after.keepOpen == keepOpen && q.after.execution.Some?
      && Gapless(q.steps) && q.after.retryCount == Streak(errors)
      && errors[|errors| - 1] == Failed(q.error)
    decreases |passes|
  {
    var n := |passes| - 1;
    assert Keeps(passes[n]);
    assert errors[..n] == errors[..|errors| - 1];
    if n > 0 {
      var init := passes[..n];
      forall r | 0 <= r < |init|
        ensures Keeps(init[r])
      {
        assert init[r] == passes[r];
      }
      RunState(pass, browsers, task, keepOpen, init, errors[..n]);
      assert init[n - 1] == passes[n - 1];
    }
  }

  /** Every pass of a run of the graph keeps what `Keeps` says. */
  lemma RunKeeps(planner: Planner, browsers: seq<Browser>, task: string, keepOpen: bool,
                 passes: seq<Pass>, errors: seq<bool>)
    requires |passes| == |errors| <= |browsers|
    requires Run(GraphPass(planner), browsers, task, keepOpen, passes, errors)
    ensures forall r :: 0 <= r < |passes| ==> Keeps(passes[r])
  {
    RunRounds(GraphPass(planner), browsers, task, keepOpen, passes, errors);
    forall r | 0 <= r < |passes|
      ensures Keeps(passes[r])
    {
      PassKeeps(planner, browsers[r], passes[r]);
    }
  }

  /** Round `k` of a run follows round `k - 1`. */
  lemma {:induction false} RunFollows(pass: (Browser, Pass) -> bool, browsers: seq<Browser>, task: string, keepOpen: bool,
                                      passes: seq<Pass>, errors: seq<bool>, k: nat)
    requires |passes| == |errors| <= |browsers| && 0 < k < |passes|
    requires Run(pass, browsers, task, keepOpen, passes, errors)
    ensures Follows(passes[k - 1], passes[k])
    decreases |passes|
  {
    var n := |passes| - 1;
    if k < n {
      var init := passes[..n];
      RunFollows(pass, browsers, task, keepOpen, init, errors[..n], k);
      assert init[k - 1] == passes[k - 1] && init[k] == passes[k];
    }
  }

  /** In a run whose passes keep what `Keeps` says, the three rounds before round `k` did not all fail. */
  lemma TripleBreaks(pass: (Browser, Pass) -> bool, browsers: seq<Browser>, task: string, keepOpen: bool,
                     passes: seq<Pass>, errors: seq<bool>, k: nat)
    requires |passes| == |errors| <= |browsers| && 3 <= k < |passes|
    requires Run(pass, browsers, task, keepOpen, passes, errors)
    requires forall r :: 0 <= r < |passes| ==> Keeps(passes[r])
    ensures !(errors[k - 3] && errors[k - 2] && errors[k - 1])
  {
    RunPrefix(pass, browsers, task, keepOpen, passes, errors, k);
    var qs, es := passes[..k], errors[..k];
    forall i | 0 <= i < |qs|
      ensures Keeps(qs[i])
    {
      assert qs[i] == passes[i];
    }
    RunState(pass, browsers, task, keepOpen, qs, es);
    var q := passes[k - 1];
    assert qs[k - 1] == q;
    RunFollows(pass, browsers, task, keepOpen, passes, errors, k);
    assert Continues(q.after.final, es[k - 1], Streak(es));
    if errors[k - 3] && errors[k - 2] && errors[k - 1] {
      assert es[k - 1] && es[k - 2] && es[k - 3];
      ThreeFailuresStreak(es);
    }
  }

  /** In a run whose passes keep what `Keeps` says, three failed rounds in a row can only be its last three. */
  lemma TripleAtEnd(pass: (Browser, Pass) -> bool, browsers: seq<Browser>, task: string, keepOpen: bool,
                    passes: seq<Pass>, errors: seq<bool>)
    requires |passes| == |errors| <= |browsers|
    requires Run(pass, browsers, task, keepOpen, passes, errors)
    requires forall r :: 0 <= r < |passes| ==> Keeps(passes[r])
    ensures forall r :: 0 <= r && r + 3 <= |errors| && errors[r] && errors[r + 1] && errors[r + 2] ==> r + 3 == |errors|
  {
    forall r | 0 <= r && r + 3 < |errors|
      ensures !(errors[r] && errors[r + 1] && errors[r + 2])
    {
      TripleBreaks(pass, browsers, task, keepOpen, passes, errors, r + 3);
    }
  }

  /**
   * Where a run whose passes keep what `Keeps` says leaves the agent: the
   * run's task and keep-open flag, a gapless history, a retry count equal to
   * the number of failed rounds at the end, and an execution exactly when a
   * round took place, with the last round's error.
   */
  lemma RunOutcome(pass: (Browser, Pass) -> bool, browsers: seq<Browser>, task: string, keepOpen: bool,
                   s: AgentState, passes: seq<Pass>, errors: seq<bool>)
    requires |passes| == |errors| <= |browsers|
    requires Run(pass, browsers, task, keepOpen, passes, errors)
    requires forall r :: 0 <= r < |passes| ==> Keeps(passes[r])
    requires EndsIn(s, task, keepOpen, passes)
    ensures s.task == task && s.keepOpen == keepOpen
    ensures Gapless(History(s))
    ensures s.retryCount == Streak(errors)
    ensures s.execution.Some? <==> errors != []
    ensures errors != [] ==> (HasError(s.execution.value) <==> errors[|errors| - 1])
  {
    if passes != [] {
      RunState(pass, browsers, task, keepOpen, passes, errors);
    }
  }

  /**
   * What stops such a run: three failed rounds in a row are its last three
   * and leave `should_continue` false, and so does a final state.
   */
  lemma RunStops(pass: (Browser, Pass) -> bool, browsers: seq<Browser>, task: string, keepOpen: bool,
                 s: AgentState, passes: seq<Pass>, errors: seq<bool>)
    requires |passes| == |errors| <= |browsers|
    requires Run(pass, browsers, task, keepOpen, passes, errors)
    requires forall r :: 0 <= r < |passes| ==> Keeps(passes[r])
    requires EndsIn(s, task, keepOpen, passes)
    ensures forall r :: 0 <= r && r + 3 <= |errors| && errors[r] && errors[r + 1] && errors[r + 2] ==>
              r + 3 == |errors| && !ShouldContinue(s)
    ensures s.final ==> !ShouldContinue(s)
  {
    TripleAtEnd(pass, browsers, task, keepOpen, passes, errors);
    RunOutcome(pass, browsers, task, keepOpen, s, passes, errors);
    var n := |errors|;
    if n >= 3 && errors[n - 1] && errors[n - 2] && errors[n - 3] {
      ThreeFailuresStreak(errors);
    }
  }

  /**
   * Where a run of the graph leaves the agent, by `RunKeeps`, `RunOutcome`
   * and `RunStops`: the run's task and keep-open flag, a gapless history, a
   * retry count equal to the number of failed rounds at the end; three
   * failed rounds in a row are its last three and stop it, and so does a
   * final state.
   */
  lemma GraphOutcome(planner: Planner, browsers: seq<Browser>, task: string, keepOpen: bool,
                     s: AgentState, passes: seq<Pass>, errors: seq<bool>)
    requires |passes| == |errors| <= |browsers|
    requires Run(GraphPass(planner), browsers, task, keepOpen, passes, errors)
    requires EndsIn(s, task, keepOpen, passes)
    ensures s.task == task && s.keepOpen == keepOpen
    ensures Gapless(History(s))
    ensures s.retryCount == Streak(errors)
    ensures forall r :: 0 <= r && r + 3 <= |errors| && errors[r] && errors[r + 1] && errors[r + 2] ==>
              r + 3 == |errors| && !ShouldContinue(s)
    ensures s.final ==> !ShouldContinue(s)
  {
    RunKeeps(planner, browsers, task, keepOpen, passes, errors);
    RunOutcome(GraphPass(planner), browsers, task, keepOpen, s, passes, errors);
    RunStops(GraphPass(planner), browsers, task, keepOpen, s, passes, errors);
  }

  /** A run of the graph leaves a gapless history, the executor's precondition for the next round. */
  lemma GraphGapless(planner: Planner, browsers: seq<Browser>, task: string, keepOpen: bool,
                     s: AgentState, passes: seq<Pass>, errors: seq<bool>)
    requires |passes| == |errors| <= |browsers|
    requires Run(GraphPass(planner), browsers, task, keepOpen, passes, errors)
    requires EndsIn(s, task, keepOpen, passes)
    ensures Gapless(History(s))
  {
    RunKeeps(planner, browsers, task, keepOpen, passes, errors);
    RunOutcome(GraphPass(planner), browsers, task, keepOpen, s, passes, errors);
  }

  /** A run extended by the pass from `s` to `t` ends in `t`. */
  lemma EndsInPass(s: AgentState, t: AgentState, task: string, keepOpen: bool, passes: seq<Pass>)
    requires t.execution.Some?
    ensures EndsIn(t, task, keepOpen, passes + [PassOf(s, t)])
  {
  }

  /**
   * One pass of the graph loop from `s`, where the run `passes` left the
   * agent: the round, read off as the pass that extends the run.
   */
  method GraphStep(planner: Planner, task: string, keepOpen: bool, browsers: seq<Browser>, round: nat,
                   s: AgentState, ghost passes: seq<Pass>, ghost errors: seq<bool>, log: RunDir, now: string)
    returns (next: Result<AgentState, nat>)
    modifies log
    requires log.Valid() && round == |passes| == |errors| < |browsers|
    requires Run(GraphPass(planner), browsers, task, keepOpen, passes, errors)
    requires EndsIn(s, task, keepOpen, passes) && ShouldContinue(s)
    ensures log.Valid()
    ensures next.Err? ==> PlannerNode(planner, s) == Err(next.error)
    ensures next.Ok? ==> var t := next.value;
      && t.execution.Some?
      && var p := PassOf(s, t);
      && Run(GraphPass(planner), browsers, task, keepOpen, passes + [p], errors + [Failed(p.error)])
      && EndsIn(t, task, keepOpen, passes + [p])
  {
    GraphGapless(planner, browsers, task, keepOpen, s, passes, errors);
    next := Round(planner, s, browsers[round], log, now);
    if next.Ok? {
      RunSnoc(GraphPass(planner), browsers, task, keepOpen, passes, errors, PassOf(s, next.value));
      EndsInPass(s, next.value, task, keepOpen, passes);
    }
  }

  /**
   * The compiled graph run from `AgentState(task, keep_open)`: planner, then
   * executor, then planner again while `should_continue` holds. Round r
   * meets the browser `browsers[r]`. `passes` holds each round as values and
   * `errors` records whether each round's execution ended with an error.
   */
  method RunGraph(planner: Planner, task: string, keepOpen: bool, browsers: seq<Browser>, log: RunDir, now: string)
    returns (s: AgentState, ending: Ending, ghost errors: seq<bool>, ghost passes: seq<Pass>)
    modifies log
    requires log.Valid()
    ensures log.Valid()
    ensures |passes| == |errors| <= |browsers|
    ensures Run(GraphPass(planner), browsers, task, keepOpen, passes, errors)
    ensures EndsIn(s, task, keepOpen, passes)
    ensures ending == Stopped <==> !ShouldContinue(s)
    ensures ending.PlanRejected? ==> PlannerNode(planner, s) == Err(ending.step)
    ensures ending == OutOfRounds ==> |passes| == |browsers|
    ensures s.final ==> ending == Stopped
  {
    s := NewAgentState(task, keepOpen);
    errors := [];
    passes := [];
    var round := 0;
    while round < |browsers|
      invariant round == |passes| == |errors| <= |browsers|
      invariant log.Valid()
      invariant Run(GraphPass(planner), browsers, task, keepOpen, passes, errors)
      invariant EndsIn(s, task, keepOpen, passes) && ShouldContinue(s)
      decreases |browsers| - round
    {
      var next := GraphStep(planner, task, keepOpen, browsers, round, s, passes, errors, log, now);
      if next.Err? {
        return s, PlanRejected(next.error), errors, passes;
      }
      ghost var p := PassOf(s, next.value);
      s := next.value;
      passes := passes + [p];
      errors := errors + [Failed(p.error)];
      round := round + 1;
      if !ShouldContinue(s) {
        return s, Stopped, errors, passes;
      }
    }
    return s, OutOfRounds, errors, passes;
  }

  /** Three failed rounds in a row leave a retry count of at least three. */
  lemma ThreeFailuresStreak(errors: seq<bool>)
    requires |errors| >= 3 && errors[|errors| - 1] && errors[|errors| - 2] && errors[|errors| - 3]
    ensures Streak(errors) >= 3
  {
    var n := |errors|;
    var e1 := errors[..n - 1];
    var e2 := e1[..n - 2];
    assert e1[n - 2] == errors[n - 2];
    assert e2[n - 3] == errors[n - 3];
    assert Streak(errors) == Streak(e1) + 1;
    assert Streak(e1) == Streak(e2) + 1;
  }

  /** The number of failed rounds at the end of `errors`: the retry count it leaves. */
  function Streak(errors: seq<bool>): nat {
    if errors == [] || !errors[|errors| - 1] then 0 else Streak(errors[..|errors| - 1]) + 1
  }
}
