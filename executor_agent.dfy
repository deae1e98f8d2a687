/**
 * `ExecutorAgent.execute` (src/agents/executor_agent.py): one round of plan
 * execution. Steps are numbered on from the index the caller passes, one
 * record is kept and written per executed step, and the first failing step
 * ends the round. The browser is a `Browser` value fixing the outcome of
 * every call the round makes; the run directory is a `RunDir`.
 */
module ExecutorAgent {
  import opened Wrappers
  import opened Text
  import opened Json
  import opened Paths
  import opened MessageProtocol
  import opened ScreenshotManager
  import opened DatasetWriter

  /** What `find_active_modal` and the modal's `inner_text` report at the end of a round. */
  datatype ModalProbe = NoModal | ModalText(text: string) | ModalUnreadable

  /** The page title, URL and accessibility tree read after a failed step. */
  datatype FailView = FailView(title: string, url: string, tree: string)

  /** The page title, URL, focused-element summary, modal probe and tree read at the end of a round. */
  datatype EndView = EndView(title: string, url: string, focused: string, modal: ModalProbe, tree: string)

  /**
   * The browser as one round sees it:
   * - `run(i, step)` is `ActionEngine.run_step` on step number `i`: its success flag and message;
   * - `capture(i, settled)` is the `capture` call for step `i`, right after the step or, when
   *   `settled`, after the pause that follows a success: its metadata, or None when it raised;
   * - `url(i)` is `page.url` right after step `i`;
   * - `failView(i)` is the observation read after step `i` failed, None when any of its calls raised;
   * - `endView` is the observation read after the loop, None when any of its calls raised.
   */
  datatype Browser = Browser(
    run: (int, ActionStep) -> (bool, Option<string>),
    capture: (nat, bool) -> Option<ShotMeta>,
    url: int -> string,
    failView: int -> Option<FailView>,
    endView: Option<EndView>)

  /** The actions whose success is followed by a screenshot of the settled page. */
  predicate IsCaptured(action: string) {
    action in ["navigate", "click", "type", "screenshot"]
  }

  /** `step.name or f"step_{i}"`, the step name the executor passes to `capture`. */
  function StepName(step: ActionStep, i: nat): string {
    if step.name.Some? && step.name.value != [] then step.name.value else "step_" + NatToString(i)
  }

  /** `f"{i:04d}.png"`, the file name the executor passes to `capture` for step `i`. */
  function ShotFile(i: nat): string {
    ZeroPad4(i) + ".png"
  }

  /**
   * The call the executor makes for step `i`: a full-page capture with the
   * step's name and file name. Whatever the clock and the random id, a
   * successful capture is the file `000i.png` of the run directory.
   */
  lemma StepShotPath(dir: string, step: ActionStep, i: nat, timestamp: string, uid: string,
                     screenshot: (string, bool) -> Option<string>, url: Option<string>)
    requires Capture(dir, StepName(step, i), true, None, Some(ShotFile(i)), timestamp, uid, screenshot, url).Ok?
    ensures var m := Capture(dir, StepName(step, i), true, None, Some(ShotFile(i)), timestamp, uid, screenshot, url).value;
      m.path == PathJoin(dir, ShotFile(i)) && m.filename == ShotFile(i) && m.stepName == StepName(step, i)
  {
    assert ShotFile(i)[0] == ZeroPad4(i)[0];
  }

  /** `{"error": msg}` when the message is truthy, `{}` otherwise. */
  function Details(msg: Option<string>): (d: seq<(string, Json)>)
    ensures msg.Some? && msg.value != [] ==> d == [("error", JStr(msg.value))]
    ensures msg.None? || msg.value == [] ==> d == []
  {
    if msg.Some? && msg.value != [] then [("error", JStr(msg.value))] else []
  }

  /** The record of step `i` as first built and written. */
  function FirstRecord(b: Browser, i: nat, step: ActionStep): StepExecutionResult {
    var outcome := b.run(i, step);
    var shot := if outcome.0 then None else b.capture(i, false);
    StepExecutionResult(i, step.action, outcome.0, outcome.0,
      if shot.Some? then Some(shot.value.path) else None,
      if shot.Some? then shot.value.pageUrl else Some(b.url(i)),
      outcome.1, Details(outcome.1))
  }

  /** The screenshot taken after the pause that follows a successful captured action. */
  function SettledShot(b: Browser, i: nat, step: ActionStep): Option<ShotMeta> {
    if b.run(i, step).0 && IsCaptured(step.action) then b.capture(i, true) else None
  }

  /** The record of step `i` as the round leaves it: the settled screenshot, when taken, replaces path and URL. */
  function FinalRecord(b: Browser, i: nat, step: ActionStep): StepExecutionResult {
    var r := FirstRecord(b, i, step);
    var s := SettledShot(b, i, step);
    if s.Some? then r.(screenshotPath := Some(s.value.path), pageUrl := s.value.pageUrl) else r
  }

  /** What `write_step` receives for step `i`: the first record, then the updated one again when a settled screenshot was taken. */
  function Written(b: Browser, i: nat, step: ActionStep): seq<StepExecutionResult> {
    [FirstRecord(b, i, step)] + (if SettledShot(b, i, step).Some? then [FinalRecord(b, i, step)] else [])
  }

  /** Step `k` of the round (number `start + k + 1`) fails. */
  predicate Fails(b: Browser, start: nat, steps: seq<ActionStep>, k: nat)
    requires k < |steps|
  {
    !b.run(start + k + 1, steps[k]).0
  }

  function FirstFailureFrom(b: Browser, start: nat, steps: seq<ActionStep>, k: nat): (r: Option<nat>)
    requires k <= |steps|
    decreases |steps| - k
    ensures r.Some? ==> k <= r.value < |steps| && Fails(b, start, steps, r.value)
    ensures r.Some? ==> forall j :: k <= j < r.value ==> !Fails(b, start, steps, j)
    ensures r.None? ==> forall j :: k <= j < |steps| ==> !Fails(b, start, steps, j)
  {
    if k == |steps| then None
    else if Fails(b, start, steps, k) then Some(k)
    else FirstFailureFrom(b, start, steps, k + 1)
  }

  /** The position of the first failing step of the round, if any. */
  function FirstFailure(b: Browser, start: nat, steps: seq<ActionStep>): (r: Option<nat>)
    ensures r.Some? ==> r.value < |steps| && Fails(b, start, steps, r.value)
    ensures r.Some? ==> forall j :: 0 <= j < r.value ==> !Fails(b, start, steps, j)
    ensures r.None? ==> forall j :: 0 <= j < |steps| ==> !Fails(b, start, steps, j)
  {
    FirstFailureFrom(b, start, steps, 0)
  }

  /** How many steps the round runs: up to and including the first failure, or all of them. */
  function Executed(b: Browser, start: nat, steps: seq<ActionStep>): (n: nat)
    ensures n <= |steps|
  {
    var f := FirstFailure(b, start, steps);
    if f.Some? then f.value + 1 else |steps|
  }

  /** The records of the first `n` steps. */
  function Records(b: Browser, start: nat, steps: seq<ActionStep>, n: nat): (r: seq<StepExecutionResult>)
    requires n <= |steps|
    ensures |r| == n
  {
    if n == 0 then [] else Records(b, start, steps, n - 1) + [FinalRecord(b, start + n, steps[n - 1])]
  }

  /** Everything written to `steps.json` for the first `n` steps, in order. */
  function Log(b: Browser, start: nat, steps: seq<ActionStep>, n: nat): seq<StepExecutionResult>
    requires n <= |steps|
  {
    if n == 0 then [] else Log(b, start, steps, n - 1) + Written(b, start + n, steps[n - 1])
  }

  /** The round's error: `Step i failed.` for the first failing step number `i`. */
  function RoundError(b: Browser, start: nat, steps: seq<ActionStep>): Option<string> {
    var f := FirstFailure(b, start, steps);
    if f.Some? then Some("Step " + IntToString(start + f.value + 1) + " failed.") else None
  }

  function FailObservation(v: FailView): string {
    "Current Page: " + v.title + " (" + v.url + ")\nInteractive Elements:\n" + v.tree
  }

  /** The modal line of the end-of-round observation; the modal text is cut to 100 characters. */
  function ModalInfo(m: ModalProbe): string {
    match m
    case NoModal => "None"
    case ModalText(t) => "Visible (Text: " + (if |t| <= 100 then t else t[..100]) + "...)"
    case ModalUnreadable => "Visible (Text unavailable)"
  }

  function EndObservation(v: EndView): string {
    "Current Page: " + v.title + " (" + v.url + ")\nActive Modal: " + ModalInfo(v.modal)
      + "\nFocused Element: " + v.focused + "\nInteractive Elements:\n" + v.tree
  }

  /**
   * The observation the round leaves in `dataset_path`: after a failure, the
   * failure view when it could be read; after a complete round of at least
   * one step, the end view when it could be read. An empty round leaves
   * None: the end-of-round block reads the unbound `success` and its
   * exception is swallowed.
   */
  function Observation(b: Browser, start: nat, steps: seq<ActionStep>): Option<string> {
    var f := FirstFailure(b, start, steps);
    if f.Some? then
      var v := b.failView(start + f.value + 1);
      if v.Some? then Some(FailObservation(v.value)) else None
    else if steps == [] || b.endView.None? then None
    else Some(EndObservation(b.endView.value))
  }

  /** A round whose step `k` is the first to fail runs `k + 1` steps and reports step number `start + k + 1`. */
  lemma FailedAt(b: Browser, start: nat, steps: seq<ActionStep>, k: nat)
    requires k < |steps| && Fails(b, start, steps, k)
    requires forall j :: 0 <= j < k ==> !Fails(b, start, steps, j)
    ensures FirstFailure(b, start, steps) == Some(k)
    ensures Executed(b, start, steps) == k + 1
    ensures RoundError(b, start, steps) == Some("Step " + IntToString(start + k + 1) + " failed.")
    ensures var v := b.failView(start + k + 1);
      Observation(b, start, steps) == if v.Some? then Some(FailObservation(v.value)) else None
  {
  }

  /** A round with no failing step runs every step, reports no error and ends with the end view. */
  lemma Completed(b: Browser, start: nat, steps: seq<ActionStep>)
    requires forall j :: 0 <= j < |steps| ==> !Fails(b, start, steps, j)
    ensures FirstFailure(b, start, steps).None?
    ensures Executed(b, start, steps) == |steps|
    ensures RoundError(b, start, steps).None?
    ensures Observation(b, start, steps) ==
      if steps == [] || b.endView.None? then None else Some(EndObservation(b.endView.value))
  {
  }

  /** Runs step `i`, builds its record (with a screenshot when it failed) and writes it. */
  method RecordStep(task: string, step: ActionStep, i: nat, b: Browser, log: RunDir, now: string)
    returns (success: bool, record: StepExecutionResult)
    modifies log
    requires log.Valid()
    ensures log.Valid()
    ensures success == b.run(i, step).0
    ensures record == FirstRecord(b, i, step)
    ensures log.Records() == old(log.Records()) + [record]
  {
    var outcome := b.run(i, step);
    var errorMsg := outcome.1;
    success := outcome.0;
    var shot: Option<ShotMeta> := None;
    if !success {
      shot := b.capture(i, false);
    }
    record := StepExecutionResult(i, step.action, success, success,
      if shot.Some? then Some(shot.value.path) else None,
      if shot.Some? then shot.value.pageUrl else Some(b.url(i)),
      errorMsg, if errorMsg.Some? && errorMsg.value != [] then [("error", JStr(errorMsg.value))] else []);
    log.WriteStep(task, record, now);
  }

  /**
   * After a successful captured action: the settled screenshot, when taken,
   * updates the record's path and URL, and the updated record is written again.
   */
  method SettleStep(task: string, step: ActionStep, i: nat, b: Browser, log: RunDir, now: string, record: StepExecutionResult)
    returns (updated: StepExecutionResult)
    modifies log
    requires log.Valid() && b.run(i, step).0
    requires record == FirstRecord(b, i, step)
    ensures log.Valid()
    ensures updated == FinalRecord(b, i, step)
    ensures log.Records() == old(log.Records()) + Written(b, i, step)[1..]
  {
    updated := record;
    if IsCaptured(step.action) {
      var settled := b.capture(i, true);
      if settled.Some? {
        updated := record.(screenshotPath := Some(settled.value.path), pageUrl := settled.value.pageUrl);
        log.WriteStep(task, updated, now);
      }
    }
  }

  /**
   * The state of a round that has recorded its first `n` steps and not yet
   * ended: their records are in the result and what was written for them
   * follows `base` in the log.
   */
  ghost predicate Recorded(task: string, steps: seq<ActionStep>, start: nat, b: Browser, n: nat,
                           result: ExecutionResult, log: RunDir, base: seq<StepExecutionResult>)
    requires n <= |steps|
    reads result, log
  {
    && log.Valid()
    && result.task == task && result.success && result.error.None? && result.datasetPath.None?
    && result.steps == Records(b, start, steps, n)
    && log.Records() == base + Log(b, start, steps, n)
  }

  /** The state of a round after its first `k` steps, none of which failed. */
  ghost predicate Progress(task: string, steps: seq<ActionStep>, start: nat, b: Browser, k: nat,
                           result: ExecutionResult, log: RunDir, base: seq<StepExecutionResult>)
    requires k <= |steps|
    reads result, log
  {
    && Recorded(task, steps, start, b, k, result, log, base)
    && (forall j :: 0 <= j < k ==> !Fails(b, start, steps, j))
  }

  /**
   * The state a round ends in, after `n` steps: the records of the steps run,
   * the round's flags, error and observation, and the log extended by what
   * was written for them.
   */
  ghost predicate Finished(task: string, steps: seq<ActionStep>, start: nat, b: Browser,
                           result: ExecutionResult, log: RunDir, base: seq<StepExecutionResult>)
    reads result, log
  {
    && log.Valid()
    && result.task == task
    && result.steps == Records(b, start, steps, Executed(b, start, steps))
    && (result.success <==> FirstFailure(b, start, steps).None?)
    && result.error == RoundError(b, start, steps)
    && result.datasetPath == Observation(b, start, steps)
    && log.Records() == base + Log(b, start, steps, Executed(b, start, steps))
  }

  /** A failed step `k` ends the round: the result is marked failed and the failure view, when read, becomes the observation. */
  method FailRound(task: string, steps: seq<ActionStep>, start: nat, b: Browser, k: nat,
                   result: ExecutionResult, log: RunDir, ghost base: seq<StepExecutionResult>)
    modifies result
    requires k < |steps| && Fails(b, start, steps, k)
    requires forall j :: 0 <= j < k ==> !Fails(b, start, steps, j)
    requires Recorded(task, steps, start, b, k + 1, result, log, base)
    ensures Finished(task, steps, start, b, result, log, base)
  {
    var stepIndex := start + k + 1;
    result.MarkFailure("Step " + IntToString(stepIndex) + " failed.");
    var view := b.failView(stepIndex);
    if view.Some? {
      result.datasetPath := Some(FailObservation(view.value));
    }
    FailedAt(b, start, steps, k);
  }

  /**
   * One pass of the loop body for step `k` (number `start + k + 1`): run and
   * record the step; on failure end the round; on success take the settled
   * screenshot.
   */
  method ExecuteStep(task: string, steps: seq<ActionStep>, start: nat, b: Browser, k: nat,
                     result: ExecutionResult, log: RunDir, now: string, ghost base: seq<StepExecutionResult>)
    returns (stop: bool)
    modifies result, log
    requires k < |steps|
    requires Progress(task, steps, start, b, k, result, log, base)
    ensures !stop ==> Progress(task, steps, start, b, k + 1, result, log, base)
    ensures stop ==> Finished(task, steps, start, b, result, log, base)
  {
    var stepIndex := start + k + 1;
    var success, record := RecordStep(task, steps[k], stepIndex, b, log, now);
    result.steps := result.steps + [record];
    RoundStep(b, start, steps, k, base);
    if !success {
      FailRound(task, steps, start, b, k, result, log, base);
      return true;
    }
    record := SettleStep(task, steps[k], stepIndex, b, log, now, record);
    result.steps := result.steps[..k] + [record];
    return false;
  }

  /** `ExecutorAgent.execute` from the point where the page, engine and run directory are set up. */
  method Execute(task: string, steps: seq<ActionStep>, start: nat, b: Browser, log: RunDir, now: string)
    returns (result: ExecutionResult)
    modifies log
    requires log.Valid()
    ensures fresh(result)
    ensures Finished(task, steps, start, b, result, log, old(log.Records()))
  {
    result := new ExecutionResult(task);
    ghost var base := log.Records();
    for k := 0 to |steps|
      invariant fresh(result)
      invariant Progress(task, steps, start, b, k, result, log, base)
    {
      var stop := ExecuteStep(task, steps, start, b, k, result, log, now, base);
      if stop {
        return;
      }
    }
    if steps != [] && b.endView.Some? {
      result.datasetPath := Some(EndObservation(b.endView.value));
    }
    Completed(b, start, steps);
  }

  /** One more step: its final record joins the records, and what it wrote joins the log. */
  lemma RoundStep(b: Browser, start: nat, steps: seq<ActionStep>, k: nat, base: seq<StepExecutionResult>)
    requires k < |steps|
    ensures Records(b, start, steps, k + 1) == Records(b, start, steps, k) + [FinalRecord(b, start + k + 1, steps[k])]
    ensures var w := Written(b, start + k + 1, steps[k]);
      base + Log(b, start, steps, k + 1) == base + Log(b, start, steps, k) + [w[0]] + w[1..]
  {
    var w := Written(b, start + k + 1, steps[k]);
    assert w == [w[0]] + w[1..];
  }

  /**
   * The records of a round: the k-th carries step number `start + k + 1` and
   * its step's action; its success and state-changed flags are the run flag,
   * its error is the run message and its details hold that message when it
   * is non-empty. Every record but the last is a success, and the last is a
   * failure exactly when the round had one.
   */
  lemma {:induction false} RoundRecords(b: Browser, start: nat, steps: seq<ActionStep>)
    ensures var n := Executed(b, start, steps);
      var recs := Records(b, start, steps, n);
      && (forall k :: 0 <= k < n ==>
            var outcome := b.run(start + k + 1, steps[k]);
            && recs[k].stepIndex == start + k + 1
            && recs[k].action == steps[k].action
            && recs[k].success == recs[k].stateChanged == outcome.0
            && recs[k].error == outcome.1
            && recs[k].details == Details(outcome.1))
      && (forall k :: 0 <= k < n - 1 ==> recs[k].success)
      && (n > 0 ==> (!recs[n - 1].success <==> FirstFailure(b, start, steps).Some?))
  {
    var n := Executed(b, start, steps);
    forall k | 0 <= k < n
      ensures Records(b, start, steps, n)[k] == FinalRecord(b, start + k + 1, steps[k])
      ensures Records(b, start, steps, n)[k].success == !Fails(b, start, steps, k)
    {
      RecordAt(b, start, steps, n, k);
    }
    assert forall k :: 0 <= k && k + 1 < n ==> !Fails(b, start, steps, k);
  }

  lemma {:induction false} RecordAt(b: Browser, start: nat, steps: seq<ActionStep>, n: nat, k: nat)
    requires k < n <= |steps|
    ensures Records(b, start, steps, n)[k] == FinalRecord(b, start + k + 1, steps[k])
    decreases n
  {
    if k < n - 1 {
      RecordAt(b, start, steps, n - 1, k);
    }
  }

  /**
   * Screenshots and observations never change the outcome of a round: two
   * browsers whose steps run alike give the same failing step, the same
   * number of records with the same indices, actions, flags, errors and
   * details, and the same round error.
   */
  lemma CapturesDoNotDecide(b1: Browser, b2: Browser, start: nat, steps: seq<ActionStep>)
    requires forall i, step :: b1.run(i, step) == b2.run(i, step)
    ensures FirstFailure(b1, start, steps) == FirstFailure(b2, start, steps)
    ensures Executed(b1, start, steps) == Executed(b2, start, steps)
    ensures RoundError(b1, start, steps) == RoundError(b2, start, steps)
    ensures var n := Executed(b1, start, steps);
      forall k :: 0 <= k < n ==>
        var r1 := Records(b1, start, steps, n)[k];
        var r2 := Records(b2, start, steps, n)[k];
        r1.(screenshotPath := None, pageUrl := None) == r2.(screenshotPath := None, pageUrl := None)
  {
    SameFailures(b1, b2, start, steps, 0);
    var n := Executed(b1, start, steps);
    forall k | 0 <= k < n
      ensures var r1 := Records(b1, start, steps, n)[k];
        var r2 := Records(b2, start, steps, n)[k];
        r1.(screenshotPath := None, pageUrl := None) == r2.(screenshotPath := None, pageUrl := None)
    {
      RecordAt(b1, start, steps, n, k);
      RecordAt(b2, start, steps, n, k);
      SameRecord(b1, b2, start + k + 1, steps[k]);
    }
  }

  lemma SameRecord(b1: Browser, b2: Browser, i: nat, step: ActionStep)
    requires b1.run(i, step) == b2.run(i, step)
    ensures FinalRecord(b1, i, step).(screenshotPath := None, pageUrl := None)
         == FinalRecord(b2, i, step).(screenshotPath := None, pageUrl := None)
  {
  }

  lemma {:induction false} SameFailures(b1: Browser, b2: Browser, start: nat, steps: seq<ActionStep>, k: nat)
    requires k <= |steps|
    requires forall i, step :: b1.run(i, step) == b2.run(i, step)
    ensures FirstFailureFrom(b1, start, steps, k) == FirstFailureFrom(b2, start, steps, k)
    decreases |steps| - k
  {
    if k < |steps| {
      assert Fails(b1, start, steps, k) == Fails(b2, start, steps, k);
      SameFailures(b1, b2, start, steps, k + 1);
    }
  }

  /** A round with no steps runs nothing, writes nothing, succeeds and leaves no observation. */
  lemma EmptyRound(b: Browser, start: nat)
    ensures FirstFailure(b, start, []).None? && Executed(b, start, []) == 0
    ensures Records(b, start, [], 0) == [] && Log(b, start, [], 0) == []
    ensures RoundError(b, start, []).None? && Observation(b, start, []).None?
  {
    assert FirstFailureFrom(b, start, [], 0).None?;
  }

  /**
   * Each executed step is written once, or twice when its settled screenshot
   * was taken; the first write of step k carries its number.
   */
  lemma {:induction false} LogLength(b: Browser, start: nat, steps: seq<ActionStep>, n: nat)
    requires n <= |steps|
    ensures n <= |Log(b, start, steps, n)| <= 2 * n
  {
    if n > 0 {
      LogLength(b, start, steps, n - 1);
    }
  }
}
