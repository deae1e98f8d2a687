# Softlight-Assessment in Dafny

This project models the core of Softlight-Assessment, a browser agent that runs a
plan → execute → observe loop, and proves properties of that model. A planner (an LLM
behind `LLMClient` and `OrchestratorAgent`) turns a task into a list of `ActionStep`s.
The executor runs the steps one by one through `ActionEngine` and records a
`StepExecutionResult` per step. It then hands back an observation of the page, which is
the accessibility tree built by `dom_tree.py`. The LangGraph loop goes back to the
planner until the plan is empty or three rounds in a row have failed.

The model has one Dafny module per source file, plus a few shared modules:

- `Wrappers`: `Option` and `Result`.
- `Text`: string operations of Python and JavaScript restricted to ASCII, such as
  `strip`, `trim`, `lower`, `title`, `isalnum` and `in`.
- `Json`: JSON values, Python's truthiness, and Python's `str` / `repr` of them.
- `Trials`: trying candidates in order until one works.
- `Paths`: `os.path.join`.

The modules that model source files are these:

- `JsonPostprocessor` (`src/llm/json_postprocessor.py`) covers the repair of almost-JSON
  planner text.
  - The three character scanners (`_remove_comments`, `extract_first_json`,
    `_fix_broken_quoted_strings`) are methods with loops. Each is proved against a
    function of its input.
  - The regular-expression helpers are functions.
  - `parse_json_from_llm` tries its three stages in order and keeps a record of each
    failed attempt.
  - `json.loads` is a parameter: a function that either parses a string or fails with a
    message.
- `Orchestrator` (`src/agents/orchestrator_agent.py`) covers:
  - `normalize_selector` and `clean_selector`;
  - the media-playback guardrail;
  - the per-step loop of `create_plan`.
- `LlmClient` (`src/llm/llm_client.py`) covers the prompt assembly, the step-cleaning
  loop and `_fallback`. The model call is a parameter.
- `MessageProtocol` (`src/agents/message_protocol.py`) holds the records with their
  defaults. `ExecutionResult` is a class, because `mark_failure` changes it in place.
- `ControlLoop` covers `planner_node` and `executor_node` (`src/main.py`), plus
  `should_continue` and the graph's edges (`src/graph/langgraph_builder.py`).
- `ExecutorAgent` (`src/agents/executor_agent.py`) covers the step loop of `execute`.
  The browser is a value of oracles, which give each step's `run_step` outcome, the
  screenshot captures and the page views.
- `Actions` (`src/automation/action_engine.py`) models `ActionEngine` as a class.
  - The class has the `active_modal` field and the list of page calls made so far.
  - Each Playwright call is an `Attempt`. A `Page` oracle says whether the n-th call
    succeeds, and with what message it fails.
  - The strategy chains are proved to try their candidates in order and to stop at the
    first success.
- `DomTree` (`src/automation/dom_tree.py`) models the embedded script over a DOM given
  as a flat array of nodes in document order, each with its parent's index. It covers:
  - `getSafeText`, `isInteresting` and the line format;
  - the `TreeWalker` loop with its ancestor loop;
  - the choice of the modal root;
  - the Python wrapper's truncation and error text.
- `ScreenshotManager` (`src/automation/screenshot_manager.py`) and `DatasetWriter`
  (`src/storage/dataset_writer.py`) model the naming rules and the append-and-count of
  `write_step`.

## Model

| member | source | states |
|---|---|---|
| MessageProtocol.NewActionStep | src/agents/message_protocol.py:5-21 | an `ActionStep` built from `action` alone has every optional field None and no extra keys |
| MessageProtocol.NewPlan | src/agents/message_protocol.py:24-28 | a `Plan` built from its steps has no raw output, no model, and `planning_success` true |
| MessageProtocol.NewStepResult | src/agents/message_protocol.py:30-38 | a step record built from index, action and success has `state_changed` false, no screenshot, URL or error, and empty details |
| MessageProtocol.ExecutionResult.constructor | src/agents/message_protocol.py:41-46 | a fresh result has no steps, `success` true, no error and no dataset path |
| MessageProtocol.ExecutionResult.MarkFailure | src/agents/message_protocol.py:48-50 | `success` becomes false and `error` the message; task, steps and dataset path are unchanged |
| MessageProtocol.NewAgentState | src/agents/message_protocol.py:53-63 | a fresh state has no plan, execution or observation, `retry_count` 0, and `final` and `is_complete` false |
| ControlLoop.History | src/main.py:22-25 | the history is the steps of the state's execution, or empty when there is no execution |
| ControlLoop.PlannerNode | src/main.py:19-36 | the planner gets the task, the observation and the history. `final` is true exactly when the new plan has no steps. Nothing but `plan` and `final` changes, and a planner error is passed on |
| ControlLoop.ExecutorNode | src/main.py:39-85 | the round is numbered from the length of the history. The new execution's steps are the old history followed by this round's records. `retry_count` goes up by one when the round has an error and is 0 otherwise. The observation is the round's `dataset_path`, and no other field changes |
| ControlLoop.RoundKeepsGapless | src/main.py:45-47 | when numbering starts from the history's length, a history whose step indices are 1, 2, 3, … stays gapless after a round |
| ControlLoop.PassOf | src/main.py:22-25 | a pass read off two states starts at the first and ends at the second. Its history is the first state's steps, and its steps and error are the new execution's |
| ControlLoop.Round | src/graph/langgraph_builder.py:49 | a pass through the graph is the planner and then always the executor, even for an empty plan. The new state holds the planner's plan for this task, observation and history, and is final exactly when that plan is empty. Its execution is the executor's round over that plan, numbered from the history. The retry count and observation are updated as `executor_node` does. A planner error ends the pass. The history only grows and stays gapless |
| ControlLoop.RunSnoc | src/graph/langgraph_builder.py:49-58 | a run extended by a pass that starts where it ended, while `should_continue` held, is still a run |
| ControlLoop.RunPrefix | src/graph/langgraph_builder.py:33-58 | the first rounds of a run form a run |
| ControlLoop.RunRounds | src/graph/langgraph_builder.py:33-58 | round by round, a run starts from the fresh state with no history. Every round is a pass against its browser, its error is the recorded one, and every later round starts where the one before ended, with its steps as history |
| ControlLoop.RunFollows | src/graph/langgraph_builder.py:51-58 | each round after the first starts where the one before ended, and only because `should_continue` held there |
| ControlLoop.PassKeeps | src/main.py:62-83 | a pass of the graph keeps the task and keep-open flag, and adds one to the retry count after an error or resets it to 0. A gapless history stays gapless |
| ControlLoop.RunKeeps | src/main.py:62-83 | every pass of a run of the graph keeps what `PassKeeps` states |
| ControlLoop.RunState | src/main.py:62-68 | the last state of a run has the run's task and keep-open flag and a gapless history. Its retry count is the number of failed rounds at the end of the run, and its error is the last recorded one |
| ControlLoop.TripleBreaks | src/graph/langgraph_builder.py:43-44 | a round that was started cannot follow three failed rounds in a row |
| ControlLoop.TripleAtEnd | src/graph/langgraph_builder.py:43-44 | three failed rounds in a row can only be the last three rounds of a run |
| ControlLoop.RunOutcome | src/main.py:62-83 | where a run leaves the agent: the run's task and keep-open flag, a gapless history, and a retry count equal to the number of failed rounds at the end. There is an execution exactly when a round took place, and it has the last round's error |
| ControlLoop.RunStops | src/graph/langgraph_builder.py:35-47 | three failed rounds in a row leave `should_continue` false and are the last three, and a final state leaves it false too |
| ControlLoop.GraphOutcome | src/graph/langgraph_builder.py:35-47 | for a run of the graph: task and keep-open are kept, the history is gapless, and the retry count is the trailing failure streak. Three failures in a row, or a final state, leave `should_continue` false |
| ControlLoop.GraphStep | src/graph/langgraph_builder.py:49-58 | one more round from where the run left the agent, with `should_continue` true there, extends the run by that round's pass and leaves the agent where the longer run ends. A planner error is passed on |
| ControlLoop.RunGraph | src/graph/langgraph_builder.py:27-60 | the run is a trace of passes starting at the planner. Each round is the planner's plan executed against that round's browser, the recorded errors are the rounds' errors, and a round only starts while `should_continue` held after the one before. The final state is where the trace ends: the last pass's state, with its steps, success flag, error and dataset path in the execution result. The run stops exactly when `should_continue` is false, and a final state always stops it. A planner error ends it with that error, and running out of rounds means every round was used |
| ControlLoop.ThreeFailuresStreak | src/main.py:63-68 | three failed rounds in a row leave a retry count of at least three |
| ExecutorAgent.StepShotPath | src/agents/executor_agent.py:68-77 | a step's screenshot is `NNNN.png` in the run directory, named after the step |
| ExecutorAgent.Details | src/agents/executor_agent.py:90 | details are `{"error": msg}` for a non-empty message and `{}` otherwise |
| ExecutorAgent.FirstFailureFrom | src/agents/executor_agent.py:98-118 | the first failing step from `k` on: every step before it succeeds, or none fails |
| ExecutorAgent.FirstFailure | src/agents/executor_agent.py:98-118 | the first failing step of the round, or none when every step succeeds |
| ExecutorAgent.FailedAt | src/agents/executor_agent.py:98-118 | when step `k` is the first to fail, `k + 1` steps run, the error is `Step i failed.` with `i = start + k + 1`, and the observation is the failure view |
| ExecutorAgent.Completed | src/agents/executor_agent.py:56-167 | when no step fails, every step runs, there is no error, and the observation is the end view, or None for an empty plan |
| ExecutorAgent.RecordStep | src/agents/executor_agent.py:60-96 | the step runs once. Its record goes to the run directory and is returned, and success is the `run_step` flag |
| ExecutorAgent.SettleStep | src/agents/executor_agent.py:120-136 | after a successful captured step, the record gets the new screenshot path and URL and is written a second time |
| ExecutorAgent.FailRound | src/agents/executor_agent.py:98-118 | at the first failure the result is marked failed with `Step i failed.` and the round ends |
| ExecutorAgent.ExecuteStep | src/agents/executor_agent.py:59-136 | one pass of the step loop keeps the loop invariant, or ends the round at a failure |
| ExecutorAgent.Execute | src/agents/executor_agent.py:43-171 | the round's result holds one record per executed step in plan order. Step indices continue from `start_step_index`. Success, error and observation follow the first failure, and the run directory gets every record written |
| ExecutorAgent.RoundStep | src/agents/executor_agent.py:59-96 | one more executed step adds exactly one record and its writes, after the earlier ones |
| ExecutorAgent.RoundRecords | src/agents/executor_agent.py:82-91 | record `k` has index `start + k + 1`, the step's action, `success` and `state_changed` equal to the `run_step` flag, its message as `error`, and the matching details. Every record but the last succeeds, and the last fails exactly when some step failed |
| ExecutorAgent.RecordAt | src/agents/executor_agent.py:82-96 | record `k` of the round is the final record of step `k` |
| ExecutorAgent.CapturesDoNotDecide | src/agents/executor_agent.py:70-136 | two browsers whose steps have the same outcomes agree on the first failure, the steps run, the error, and every record apart from screenshot path and URL |
| ExecutorAgent.SameRecord | src/agents/executor_agent.py:82-91 | a record apart from its screenshot path and URL depends only on the step's outcome |
| ExecutorAgent.SameFailures | src/agents/executor_agent.py:98-118 | the first failure depends only on the steps' outcomes |
| ExecutorAgent.EmptyRound | src/agents/executor_agent.py:59-167 | an empty plan runs no step, makes no record, has no error and no observation |
| ExecutorAgent.LogLength | src/agents/executor_agent.py:95-134 | each executed step is written once or twice |
| ExecutorAgent.Executed | src/agents/executor_agent.py:98-118 | the number of steps run is at most the number of steps |
| ExecutorAgent.Records | src/agents/executor_agent.py:96 | one record per executed step |
| LlmClient.Lines | src/llm/llm_client.py:43-45 | one history line per history step, in order |
| LlmClient.ConcatAppend | src/llm/llm_client.py:43-45 | appending lines for more steps appends their text |
| LlmClient.HistoryLinesAppend | src/llm/llm_client.py:43-45 | the history lines of two runs of steps are the lines of the first followed by those of the second |
| LlmClient.BuildPrompt | src/llm/llm_client.py:39-48 | the prompt built with `+=` is the system prompt, the task, the history section when there is history, and the observation section when there is an observation |
| LlmClient.JoinHistory | src/llm/llm_client.py:43-45 | the loop over the history appends one `- Step i: action details -> status` line per step |
| LlmClient.PromptWithoutContext | src/llm/llm_client.py:39-48 | with no history and no observation the prompt is the system prompt and the task |
| LlmClient.PromptEndsWithObservation | src/llm/llm_client.py:47-48 | with an observation, the prompt ends with the observation section |
| LlmClient.CleanSelectorValue | src/llm/llm_client.py:74-81 | None stays None, a string is stripped, and any other value becomes its `str` |
| LlmClient.CleanEntry | src/llm/llm_client.py:62-83 | an entry without `action` is dropped. A `navigate` without a truthy value is dropped, and a kept one gets selector None. Any other entry is kept with its selector cleaned and every other field unchanged |
| LlmClient.KeptOf | src/llm/llm_client.py:62-83 | each entry gives at most one cleaned step |
| LlmClient.Kept | src/llm/llm_client.py:60-83 | cleaning keeps at most as many steps as there were entries |
| LlmClient.KeptAppend | src/llm/llm_client.py:60-83 | the kept steps of two runs of entries are those of the first followed by those of the second, so the order is preserved |
| LlmClient.KeptAreClean | src/llm/llm_client.py:60-83 | every kept step has an `action` and a selector that is None or a string |
| LlmClient.CollectShorter | src/llm/llm_client.py:60-83 | the loop keeps no more steps than it reads |
| LlmClient.Cleaned | src/llm/llm_client.py:60-86 | the cleaning loop fails exactly when some entry raises in it: a str containing `action` or a list holding `"action"` fails at `s["action"]`, and a number, bool or None fails at `in` |
| LlmClient.CleanEntries | src/llm/llm_client.py:60-83 | the cleaning loop gives the kept steps, or fails on the first entry that raises |
| LlmClient.CleanRunIsCleaned | src/llm/llm_client.py:60-83 | the loop from any point on agrees with the cleaning function |
| LlmClient.CleanedRaises | src/llm/llm_client.py:62-97 | one entry that raises (a str containing `action` or a list holding `"action"` fails at `s["action"]`; a number, bool or None fails at `in`) makes the result fail |
| LlmClient.CleanedKeeps | src/llm/llm_client.py:60-83 | when no entry raises, the result is the kept steps in order |
| LlmClient.PlanStepsFor | src/llm/llm_client.py:33-97 | `plan` returns `[]` with no client and `[]` when the model call fails. Otherwise it returns the cleaned steps of the parsed answer |
| LlmClient.StepsFromAnswer | src/llm/llm_client.py:56-97 | the stripped answer is parsed and cleaned. No kept step, a parse error or a non-list answer gives `[]` |
| LlmClient.Fallback | src/llm/llm_client.py:99-111 | `_fallback` is the empty plan |
| LlmClient.AnswerStepsAreClean | src/llm/llm_client.py:60-91 | every step returned from an answer has an `action` and a selector that is None or a string |
| LlmClient.PlanStepsAreClean | src/llm/llm_client.py:33-97 | every step `plan` returns has an `action` and a selector that is None or a string |
| Paths.PathJoin | src/automation/screenshot_manager.py:38 | `os.path.join(a, b)`: an absolute `b` wins; otherwise one `/` goes between them unless `a` is empty or ends with `/` |
| Paths.JoinEndsWith | src/automation/screenshot_manager.py:38 | the joined path ends with its second part |
| ScreenshotManager.SafeChar | src/automation/screenshot_manager.py:9 | an allowed character is kept and any other becomes `_`; the result is always allowed |
| ScreenshotManager.SafeName | src/automation/screenshot_manager.py:8-10 | the length is the input's, cut to 80. Position `i` is input character `i` when that is alphanumeric or one of `.-_`, and `_` otherwise, so every output character is allowed |
| ScreenshotManager.SafeNameKeepsSafe | src/automation/screenshot_manager.py:8-10 | a name of allowed characters no longer than 80 comes back unchanged |
| ScreenshotManager.SafeNameIdempotent | src/automation/screenshot_manager.py:8-10 | `_safe_name` is idempotent |
| ScreenshotManager.StepLabel | src/automation/screenshot_manager.py:26 | an empty step name becomes `step`, and any other is passed through `_safe_name` |
| ScreenshotManager.Folder | src/automation/screenshot_manager.py:30-33 | the base directory, or a sanitised sub-directory of it for a non-empty `custom_subdir` |
| ScreenshotManager.FileName | src/automation/screenshot_manager.py:35-36 | a non-empty file name is used verbatim; otherwise it is `{timestamp}_{safe_step}_{uid}.png` |
| ScreenshotManager.Capture | src/automation/screenshot_manager.py:18-79 | the capture succeeds when the full-page screenshot or the viewport retry succeeds, and returns the path, file name, step name and URL. Otherwise it fails with `Screenshot failed: ` and the second message |
| ScreenshotManager.DefaultPathShape | src/automation/screenshot_manager.py:35-38 | with no file name, the file lands directly in the folder and its name carries the sanitised step label |
| ScreenshotManager.UnrootedName | src/automation/screenshot_manager.py:36 | a default file name is never an absolute path |
| DatasetWriter.Slug | src/storage/dataset_writer.py:6-7 | the length is preserved. Each alphanumeric character is lower-cased and any other becomes `_`, so the result has only lower-case letters, digits and `_` |
| DatasetWriter.ExistingRuns | src/storage/dataset_writer.py:15 | the existing runs are exactly the listed names that are all digits and are directories |
| DatasetWriter.MaxRunId | src/storage/dataset_writer.py:17 | the largest numeric value among the runs, or 0 for none |
| DatasetWriter.NextRunId | src/storage/dataset_writer.py:15-19 | the next id is 1 when there is no run. Otherwise it is one more than the largest run number, so it exceeds every existing run |
| DatasetWriter.NatToStringValue | src/storage/dataset_writer.py:21 | the decimal digits of `n` read back as `n` |
| DatasetWriter.LeadingZerosValue | src/storage/dataset_writer.py:21 | leading zeros do not change a number's value |
| DatasetWriter.ZeroPad4RoundTrip | src/storage/dataset_writer.py:21 | the zero-padded name `{id:04d}` reads back as the id |
| DatasetWriter.NewRunIsFresh | src/storage/dataset_writer.py:15-22 | the new run directory's name differs from every existing run's name |
| DatasetWriter.RunDir.constructor | src/storage/dataset_writer.py:14-23 | a new run directory has neither `steps.json` nor `manifest.json` |
| DatasetWriter.RunDir.Records | src/storage/dataset_writer.py:28-31 | a missing `steps.json` reads as no records |
| DatasetWriter.RunDir.WriteStep | src/storage/dataset_writer.py:25-46 | exactly one record is appended after the existing ones, and the manifest's `num_steps` is the new count |
| DatasetWriter.WriteAll | src/storage/dataset_writer.py:25-46 | writing records one by one leaves exactly those records in order, and a manifest that counts them |
| Json.Get | src/llm/llm_client.py:68-74 | `d.get(key)` of a missing key is None |
| Json.GetIsFirst | src/llm/llm_client.py:68-74 | `d.get(key)` of a present key is the value of the entry with that key (the first, when a key is repeated) |
| Json.HasKeyIff | src/llm/llm_client.py:63 | `"action" in s` holds exactly when some entry of the dict has that key |
| Json.Truthy | src/llm/llm_client.py:68 | Python truthiness: the falsy values are exactly None, False, 0, the empty string, `[]` and `{}` |
| Json.ReprQuote | src/llm/llm_client.py:45 | `repr` quotes a string with `"` exactly when it holds `'` and no `"`, and with `'` otherwise |
| Json.QuoteRepr | src/llm/llm_client.py:45 | `repr` of a string starts and ends with the chosen quote, and its body reads back (unescaped) as the string |
| Json.UnescapeEscape | src/llm/llm_client.py:45 | reading an escaped body back as a Python literal gives the original string: a backslash goes before the quote and the backslash, and `\t`, `\n`, `\r`, `\xhh` stand for the controls |
| Json.EscapeHidesQuote | src/llm/llm_client.py:45 | inside the quotes, the chosen quote only appears right after a backslash, so the literal is not cut short |
| Json.ReprExamples | src/agents/executor_agent.py:90 | `repr("a'b")` is `"a'b"`, `repr("ab")` is `'ab'`, and a line feed is written as `\n` |
| Json.PyRepr | src/agents/orchestrator_agent.py:102 | `repr` of a string is quoted and reads back as the string; `repr` of any other value is its `str` |
| Json.PyStr | src/agents/orchestrator_agent.py:102 | `str` of a string is the string itself, a list prints in brackets and a dict in braces |
| Json.OneEntryDict | src/llm/llm_client.py:45 | the details `{"error": msg}` of a failed step print as `{'error': "msg"}` when the message holds `'` and no `"` (for example `Could not click button:has-text('Save')`) |
| Json.Set | src/llm/llm_client.py:70-81 | `d[key] = v` sets that key, appends a new key at the end, and leaves every other key as it was |
| Orchestrator.NonNullPairsAppend | src/agents/orchestrator_agent.py:22 | the `k="v"` parts of a concatenation of fields are the parts of each half, in order |
| Orchestrator.NullEntryLeftOut | src/agents/orchestrator_agent.py:22 | a field whose value is None contributes no part |
| Orchestrator.NonNullPairsAll | src/agents/orchestrator_agent.py:22 | with no None value, there is one `k="v"` part per field, in order |
| Orchestrator.NormalizeSelector | src/agents/orchestrator_agent.py:9-25 | a falsy selector gives None and a non-empty string is returned as is. A one-entry dict gives `k="v"`, or None when its value is None. A larger dict gives its non-None `k="v"` parts joined by a space, and any other type gives None |
| Orchestrator.LineEnd | src/agents/orchestrator_agent.py:69 | the first line feed at or after `from`, or the end of the text: where `.*` stops |
| Orchestrator.LastCloseBracket | src/agents/orchestrator_agent.py:37 | the last `]` in a range, or None when there is none: where the greedy `(.*)\]` ends its group |
| Orchestrator.InputValueGroup | src/agents/orchestrator_agent.py:37-38 | `re.match(r"input\[value=(.*)\]")` matches only a selector that starts with `input[value=` |
| Orchestrator.InputValueGroupMatches | src/agents/orchestrator_agent.py:37-38 | the pattern matches exactly when the selector starts with `input[value=` and a `]` follows on the same line, and the group runs to the last `]` before the first line feed |
| Orchestrator.InputValueGroupAt | src/agents/orchestrator_agent.py:37-38 | when `j` is the last `]` of the first line, the group is the text from after `input[value=` up to `j` |
| Orchestrator.LastCloseBracketIs | src/agents/orchestrator_agent.py:37 | the greedy group ends at the `]` with no `]` after it in the range |
| Orchestrator.XPathMatch | src/agents/orchestrator_agent.py:43-44 | a match of an XPath-text pattern at `i`: the head is there, and a quoted non-empty run of non-quotes is followed by `]` |
| Orchestrator.FindXPath | src/agents/orchestrator_agent.py:48 | `re.search` finds the first position with a match, and no position from `from` on matches when it finds none |
| Orchestrator.CleanSelector | src/agents/orchestrator_agent.py:28-54 | None and the empty selector come back unchanged, and a selector is never invented from None |
| Orchestrator.CleanTextSelector | src/agents/orchestrator_agent.py:32-35 | `text=v` becomes `text="v"` with `v` stripped of spaces, then of `"` and of `'` |
| Orchestrator.CleanInputValueSelector | src/agents/orchestrator_agent.py:37-40 | `input[value=X]...` becomes `input[value='X']`, X stripped of blanks, then `"`, then `'`, where X runs to the last `]` of the first line and may itself hold `]` (`input[value=a]b]` gives `a]b`); text after that `]` is dropped |
| Orchestrator.CleanPlainSelector | src/agents/orchestrator_agent.py:47-54 | a selector without `[` that does not start with `text=` comes back unchanged |
| Orchestrator.XPathMatchAt | src/agents/orchestrator_agent.py:43-44 | a quoted run of `n` non-quote characters closed by `]` right after the head is a match, with the group in between the quotes |
| Orchestrator.QuotedXPathMatch | src/agents/orchestrator_agent.py:43-44 | `pre + head + "='x']" + post` matches at the end of `pre`, and the group is `x` |
| Orchestrator.CleanTextCallSelector | src/agents/orchestrator_agent.py:43-52 | `[text()='x']` inside a selector is rewritten to `:has-text("x")` and the rest is kept |
| Orchestrator.CleanTextAttributeSelector | src/agents/orchestrator_agent.py:44-52 | `[text='x']` inside a selector is rewritten to `:has-text("x")` and the rest is kept |
| Orchestrator.XPathRewritten | src/agents/orchestrator_agent.py:42-52 | either XPath-text form with one bracket is rewritten to `:has-text("x")`, in the order the patterns are tried |
| Orchestrator.RewriteWhole | src/agents/orchestrator_agent.py:49 | `re.sub` replaces the one match and copies the text before and after it |
| Orchestrator.ReplaceCopiesPlain | src/agents/orchestrator_agent.py:49 | `re.sub` copies text without `[` unchanged |
| Orchestrator.ReplaceAtMatch | src/agents/orchestrator_agent.py:49 | at a match, `re.sub` emits `:has-text("group")` and goes on after the match |
| Orchestrator.NoTextCallMatch | src/agents/orchestrator_agent.py:43-48 | a selector of the `[text=` form has no `[text()` match, so the second pattern is the one that fires |
| Orchestrator.SchemeLength | src/agents/orchestrator_agent.py:69 | `https?://` matches with 8 characters for `https://`, 7 for `http://`, and not at all otherwise |
| Orchestrator.UrlGroupEnd | src/agents/orchestrator_agent.py:69 | ` (` followed by a scheme and a run of non-`)` characters closed by `)`: the URL group of the pattern |
| Orchestrator.LastUrlMatch | src/agents/orchestrator_agent.py:69 | the last URL group that starts within the line, which is the one the greedy `.*` leaves for the group |
| Orchestrator.UrlOnLineIs | src/agents/orchestrator_agent.py:69-71 | the URL read from a line is the last URL group on that line |
| Orchestrator.LastUrlSkip | src/agents/orchestrator_agent.py:69 | positions without a URL group do not change the last match |
| Orchestrator.ObservedPageUrl | src/agents/orchestrator_agent.py:69-71 | on an observation `Current Page: title (url)`, the pattern reads back exactly `url` |
| Orchestrator.PageUrlFound | src/agents/orchestrator_agent.py:69-71 | `re.search` gives the URL of the first line that has a match |
| Orchestrator.GuardrailOnWatchPage | src/agents/orchestrator_agent.py:64-79 | for a media task on a page whose URL contains `youtube.com/watch`, the guardrail fires |
| Orchestrator.GuardrailNeedsMediaAndObservation | src/agents/orchestrator_agent.py:64-68 | without an observation, or for a task that names no media word, the guardrail does not fire |
| Orchestrator.ProcessedSelector | src/agents/orchestrator_agent.py:89-90 | a normalised and cleaned selector is None or a string |
| Orchestrator.ProcessStep | src/agents/orchestrator_agent.py:85-92 | the copied step keeps every key but `selector`. A truthy selector is normalised and cleaned, and a step with a falsy or missing selector is unchanged |
| Orchestrator.Extras | src/agents/orchestrator_agent.py:94 | the extra keyword arguments are fields of the step that `ActionStep` does not declare |
| Orchestrator.AsOptStr | src/agents/orchestrator_agent.py:94 | a string field is kept and anything else reads as None |
| Orchestrator.ToActionStep | src/agents/orchestrator_agent.py:94 | `ActionStep(**s)` takes action, selector, url and value from the step's fields. It succeeds for a dict with a string `action`, string-or-None text fields and a dict-or-None payload |
| Orchestrator.BuildSteps | src/agents/orchestrator_agent.py:94 | the comprehension builds one step per item in order, or stops at the first item whose `ActionStep(**s)` raises |
| Orchestrator.AllAcceptedBuild | src/agents/orchestrator_agent.py:94 | when every item is accepted, the plan is built |
| Orchestrator.FirstRejectedStep | src/agents/orchestrator_agent.py:94 | the first rejected item is the one reported |
| Orchestrator.Processed | src/agents/orchestrator_agent.py:84-92 | one processed step per raw step, in order |
| Orchestrator.ProcessSteps | src/agents/orchestrator_agent.py:84-92 | the loop's `processed_steps` is each raw step processed, in order |
| Orchestrator.ValidateSteps | src/agents/orchestrator_agent.py:94 | the loop builds the steps, or reports the first item that fails |
| Orchestrator.CreatePlan | src/agents/orchestrator_agent.py:62-105 | `create_plan` returns the guardrail plan when it fires. Otherwise it returns the processed planner steps with `str(raw_steps)` as raw output and `gemini-2.5-flash` as model, or the index of the step `ActionStep(**s)` rejects |
| Orchestrator.GuardrailSkipsPlanner | src/agents/orchestrator_agent.py:64-79 | when the guardrail fires, the planner and the history play no part, and the plan is empty and successful |
| Orchestrator.PlanFollowsPlanner | src/agents/orchestrator_agent.py:81-105 | without the guardrail, the plan has one step per planner step, in order. Each keeps the planner's action, URL and value, and the processed selector |
| Orchestrator.BuiltStepsFollow | src/agents/orchestrator_agent.py:84-94 | built steps follow the raw steps one for one |
| Orchestrator.FalsySelectorUntouched | src/agents/orchestrator_agent.py:88 | a step with a falsy selector passes through unchanged |
| Orchestrator.StringSelectorOnlyCleaned | src/agents/orchestrator_agent.py:88-90 | a non-empty string selector is only cleaned, because normalising returns it as is |
| JsonPostprocessor.StateAfterStep | src/llm/json_postprocessor.py:53-71 | the string and escape state after one more character is the scanner's update for that character |
| JsonPostprocessor.LineCommentEnd | src/llm/json_postprocessor.py:77-79 | a line comment is skipped up to the first `\n` or `\r`, which is kept, or to the end of the text |
| JsonPostprocessor.BlockCommentEnd | src/llm/json_postprocessor.py:84-89 | a block comment is skipped past its `*/`, never beyond the end of the text |
| JsonPostprocessor.RemoveComments | src/llm/json_postprocessor.py:35-96 | the scanning loop gives exactly the comment-free text of its input |
| JsonPostprocessor.SkipLineComment | src/llm/json_postprocessor.py:77-79 | the inner loop stops at the end of the line comment |
| JsonPostprocessor.SkipBlockComment | src/llm/json_postprocessor.py:84-89 | the inner loop stops past the block comment, or at the text's last character when it is not closed |
| JsonPostprocessor.CommentFreeIsSubsequence | src/llm/json_postprocessor.py:50-94 | the scan from any point only drops characters, keeping the rest in order |
| JsonPostprocessor.StripCommentsIsSubsequence | src/llm/json_postprocessor.py:35-96 | removing comments only deletes characters and never adds or reorders any |
| JsonPostprocessor.CommentFreeIdentityFrom | src/llm/json_postprocessor.py:50-94 | with no `//` or `/*` outside a string, the scan from any point copies the rest |
| JsonPostprocessor.StripCommentsIdentity | src/llm/json_postprocessor.py:35-40 | a text whose `//` and `/*` all lie inside strings, such as a URL value, is left unchanged |
| JsonPostprocessor.StringContentsKept | src/llm/json_postprocessor.py:66-73 | inside a string, characters that are neither `"` nor `\` are copied even when they spell `//` |
| JsonPostprocessor.LineCommentDropped | src/llm/json_postprocessor.py:75-81 | a line comment outside strings is dropped, and the newline that ends it is kept |
| JsonPostprocessor.UnterminatedBlockCommentKeepsLastChar | src/llm/json_postprocessor.py:84-90 | a `/*` that is never closed drops the rest of the text except its last character |
| JsonPostprocessor.BlockCommentRunsOut | src/llm/json_postprocessor.py:85-89 | without a `*/`, the skip loop stops one short of the end |
| JsonPostprocessor.FirstOpener | src/llm/json_postprocessor.py:126-132 | the position of the first `{` or `[`, or None when there is none |
| JsonPostprocessor.BracketEnd | src/llm/json_postprocessor.py:134-169 | the bracket scan ends at or after its starting position and never past the end |
| JsonPostprocessor.FirstJson | src/llm/json_postprocessor.py:122-169 | an extracted block is a slice of the text that starts with `{` or `[`, and there is none without an opener |
| JsonPostprocessor.FirstJsonFrom | src/llm/json_postprocessor.py:131-169 | the result is the text from the first opener to where the bracket scan ends |
| JsonPostprocessor.ExtractFirstJson | src/llm/json_postprocessor.py:122-169 | the two loops give exactly the first balanced block, the truncated rest, or None |
| JsonPostprocessor.TokenSkipped | src/llm/json_postprocessor.py:137-167 | inside an open group, a well-formed value, string or nested group leaves the bracket scan where it was |
| JsonPostprocessor.ItemsSkipped | src/llm/json_postprocessor.py:137-167 | inside an open group, a run of well-formed items leaves the bracket scan where it was |
| JsonPostprocessor.QuotedBodySkipped | src/llm/json_postprocessor.py:145-149 | brackets inside a string do not count |
| JsonPostprocessor.ExtractsFirstGroup | src/llm/json_postprocessor.py:122-169 | prose without brackets, then a well-formed group, then anything: the extracted block is exactly the group |
| JsonPostprocessor.GroupCloses | src/llm/json_postprocessor.py:150-167 | a well-formed group closes where its rendering ends |
| JsonPostprocessor.CloserEnds | src/llm/json_postprocessor.py:152-167 | the matching closer of the only open bracket ends the block just after it |
| JsonPostprocessor.MismatchedCloserFails | src/llm/json_postprocessor.py:155-165 | a closer that does not match the innermost opener gives None, as in `[}` |
| JsonPostprocessor.FirstOpenerAfterProse | src/llm/json_postprocessor.py:126-130 | the block starts at the first opener after prose without brackets |
| JsonPostprocessor.ScanRunsOut | src/llm/json_postprocessor.py:168-169 | a scan that reaches the end returns the rest of the text |
| JsonPostprocessor.GroupRunsOut | src/llm/json_postprocessor.py:168-169 | a group that is never closed runs to the end of the text |
| JsonPostprocessor.TruncatedKeepsRest | src/llm/json_postprocessor.py:168-169 | truncated JSON after prose is returned from its opener to the end |
| JsonPostprocessor.JoinPrefix | src/llm/json_postprocessor.py:184-206 | after a prefix, the joiner is in the same string state as the comment scanner, and it never lengthens the text |
| JsonPostprocessor.JoinBrokenStrings | src/llm/json_postprocessor.py:175-208 | joining broken strings never lengthens the text |
| JsonPostprocessor.FixBrokenQuotedStrings | src/llm/json_postprocessor.py:175-208 | the loop gives exactly the joined text |
| JsonPostprocessor.AppendKeepsUnbroken | src/llm/json_postprocessor.py:184-206 | appending a character that is not a raw newline inside a string keeps the text free of broken strings |
| JsonPostprocessor.JoinPrefixUnbroken | src/llm/json_postprocessor.py:184-206 | the joined prefix has no raw newline inside a string, and ends in the input's string state |
| JsonPostprocessor.JoinedHasNoBrokenStrings | src/llm/json_postprocessor.py:175-208 | after the fix, no string contains a raw `\n` or `\r` |
| JsonPostprocessor.JoinPrefixIdentity | src/llm/json_postprocessor.py:184-206 | on a text with no broken string, each prefix is copied unchanged |
| JsonPostprocessor.JoinIdentity | src/llm/json_postprocessor.py:175-208 | a text with no broken string is unchanged |
| JsonPostprocessor.JoinIdempotent | src/llm/json_postprocessor.py:175-208 | fixing broken strings twice is the same as once |
| JsonPostprocessor.MapChar | src/llm/json_postprocessor.py:100 | replacing one character by another keeps the length and changes only that character |
| JsonPostprocessor.ReplaceOneChar | src/llm/json_postprocessor.py:100 | `str.replace` of one character by one character maps it position by position |
| JsonPostprocessor.SmartQuotesStraightened | src/llm/json_postprocessor.py:99-100 | the length is kept and no curly quote is left. Curly double quotes become `"`, curly single quotes become `'`, and every other character is unchanged |
| JsonPostprocessor.DropTrailingCommas | src/llm/json_postprocessor.py:103-104 | removing trailing commas never lengthens the text |
| JsonPostprocessor.TrailingCommasKeepContent | src/llm/json_postprocessor.py:103-104 | only commas and blanks are removed; every other character is kept in order |
| JsonPostprocessor.NoTrailingCommaIdentity | src/llm/json_postprocessor.py:103-104 | a text without a comma before blanks and a closer is unchanged |
| JsonPostprocessor.TrailingCommaRemoved | src/llm/json_postprocessor.py:104 | `,` then blanks then `}` or `]` loses the comma and the blanks, and the closer is kept |
| JsonPostprocessor.KeyMatch | src/llm/json_postprocessor.py:113 | a key match needs an opener or a blank before a quoted key, closed by a quote, blanks and `:` |
| JsonPostprocessor.ValueMatch | src/llm/json_postprocessor.py:115 | a value match is `:`, blanks and a single-quoted body, followed by blanks and a comma or closer |
| JsonPostprocessor.QuoteKeysIdentity | src/llm/json_postprocessor.py:113 | without single quotes, the key rewrite changes nothing |
| JsonPostprocessor.QuoteValuesIdentity | src/llm/json_postprocessor.py:115 | without single quotes, the value rewrite changes nothing |
| JsonPostprocessor.SingleQuotesIdentity | src/llm/json_postprocessor.py:107-116 | valid JSON without single quotes is left alone |
| JsonPostprocessor.KeysAtMatch | src/llm/json_postprocessor.py:113 | at a match, the key is re-emitted as `"key":` and the scan goes on after the match |
| JsonPostprocessor.ValuesAtMatch | src/llm/json_postprocessor.py:115 | at a match, the value is re-emitted as `: "value"` and the scan goes on after it |
| JsonPostprocessor.QuoteKeysKeepContent | src/llm/json_postprocessor.py:113 | the key rewrite changes only quotes and blanks, so every other character is kept in order |
| JsonPostprocessor.QuoteValuesKeepContent | src/llm/json_postprocessor.py:115 | the value rewrite changes only quotes and blanks |
| JsonPostprocessor.SingleQuotesKeepContent | src/llm/json_postprocessor.py:107-116 | the conservative rewrite changes only quotes and blanks: keys, values and punctuation are kept in order |
| JsonPostprocessor.KeyMatchContent | src/llm/json_postprocessor.py:113 | the matched text and its replacement agree apart from quotes and blanks |
| JsonPostprocessor.ValueMatchContent | src/llm/json_postprocessor.py:115 | the matched text and its replacement agree apart from quotes and blanks |
| JsonPostprocessor.RemoveFences | src/llm/json_postprocessor.py:27-32 | the fence-free text is stripped: it is empty, or it starts and ends with a non-blank |
| JsonPostprocessor.OpeningFencesIdentity | src/llm/json_postprocessor.py:28-30 | a text without the fence's first character has no opening fence to drop |
| JsonPostprocessor.ClosingFencesIdentity | src/llm/json_postprocessor.py:29-31 | a text without the fence's first character has no closing fence to drop |
| JsonPostprocessor.FencedBlockUnwrapped | src/llm/json_postprocessor.py:27-32 | a block fenced as ```` ```json ```` on its own lines comes back as exactly its body |
| JsonPostprocessor.OpeningFenceDropped | src/llm/json_postprocessor.py:28 | the opening fence with its `json` tag and the following blanks is removed |
| JsonPostprocessor.CleanJsonText | src/llm/json_postprocessor.py:214-237 | None gives the empty text, and any result is stripped |
| JsonPostprocessor.ReplaceUnescapedSingleQuotes | src/llm/json_postprocessor.py:266 | the length is kept. Each `'` not after a backslash becomes `"`, other characters are unchanged, and any `'` left follows a backslash |
| JsonPostprocessor.ParseJsonFromLlm | src/llm/json_postprocessor.py:243-279 | the first of the raw, cleaned and aggressive texts that `loads` accepts gives the value. It fails exactly when all three fail, with the message and a record of the three errors and the texts tried |
| Actions.After | src/automation/action_engine.py:160-191 | a reply reached after earlier attempts carries those attempts first, with the same outcome |
| Actions.Attempted | src/automation/action_engine.py:62-67 | a single Playwright call succeeds exactly when the page oracle says so, and on failure reports the prefix followed by the exception text |
| Actions.FirstEquals | src/automation/action_engine.py:74 | in a selector that starts with `text=` or `label=`, the first `=` is the prefix's own |
| Actions.ValueAfterEquals | src/automation/action_engine.py:74 | `split("=", 1)[1]` of such a selector, stripped of blanks and then of `"` and `'` |
| Actions.ExtractText | src/automation/action_engine.py:70-75 | `_extract_text` gives text exactly for a non-empty selector starting with `text=`, and the text is its stripped value |
| Actions.TextCaption | src/automation/action_engine.py:74 | the caption of a `text=` selector is its value stripped of blanks and quotes |
| Actions.CloseAt | src/automation/action_engine.py:85 | the lazy `(.*?)\1\]` ends at the first matching quote followed by `]` |
| Actions.FrontMatch | src/automation/action_engine.py:85 | a `[text=` match at the front ends within the text, at least one character after the opening quote |
| Actions.CloseAfterValue | src/automation/action_engine.py:85 | a quoted value with neither its quote nor a newline closes right after the value |
| Actions.SanitizeQuoted | src/automation/action_engine.py:83-86 | `[text='w']` becomes `:has-text('w')` with the same quote, and the rest is sanitised in turn |
| Actions.QuotedMatch | src/automation/action_engine.py:85 | on `[text='w']` the match group is the quoted value and the scan goes on after `]` |
| Actions.QuotedShape | src/automation/action_engine.py:85 | the pieces of `[text='w']rest` sit at the positions the pattern reads |
| Actions.SanitizeFront | src/automation/action_engine.py:85 | at a front match, the match is replaced by `:has-text(...)` and the rest is sanitised |
| Actions.FirstVisible | src/automation/ui_state_detector.py:38-46 | the first visible selector of the list: it is visible, every earlier one is not, and there is none exactly when none is visible |
| Actions.FindActiveModal | src/automation/ui_state_detector.py:23-49 | `find_active_modal` returns a visible selector of the five modal selectors, or None exactly when none is visible |
| Actions.ModalFirst | src/automation/action_engine.py:143-203 | the active modal, when there is one, is tried before the other contexts |
| Actions.VariantAttempts | src/automation/action_engine.py:101-141 | each text variant gives nine attempts: six roles, exact text, fuzzy text, generic element |
| Actions.TextGroups | src/automation/action_engine.py:103 | one group of attempts per variant |
| Actions.ClickContexts | src/automation/action_engine.py:143-158 | eight contexts with a modal, which comes first, and seven with the page first otherwise |
| Actions.ClickPass | src/automation/action_engine.py:162-189 | one raw-selector click per context, in order |
| Actions.ClickReply | src/automation/action_engine.py:78-193 | a click succeeds exactly when it reports no error |
| Actions.ClickWith | src/automation/action_engine.py:88-191 | a click over its candidate groups succeeds exactly when it reports no error |
| Actions.ClickStopsAtFirstSuccess | src/automation/action_engine.py:78-193 | the calls made are a prefix of the candidates: text variants, three plain passes and a forced pass over the contexts. Only the last call may succeed, and it does exactly when the click succeeds. A failed click tries every candidate and reports `Could not click` with the sanitised selector |
| Actions.TextCandidates | src/automation/action_engine.py:103-141 | variant `i` owns candidates `9i` to `9i + 8` |
| Actions.RawPasses | src/automation/action_engine.py:160-191 | the raw candidates are three plain passes over the contexts and then one forced pass |
| Actions.DistinctCount | src/automation/action_engine.py:92-99 | an order of a set without repeats has one entry per element |
| Actions.VariantCount | src/automation/action_engine.py:92-99 | the set of variations has at most six names |
| Actions.ClickCandidateCount | src/automation/action_engine.py:101-191 | there are nine candidates per variant when the selector names text, plus four per context |
| Actions.GroupsCount | src/automation/action_engine.py:101-191 | the text groups contribute nine attempts each and the raw groups four per context |
| Actions.ClickAttemptBound | src/automation/action_engine.py:78-193 | one click makes at most 86 page calls |
| Actions.RightClickAttempts | src/automation/action_engine.py:205-213 | one right click per context, in order |
| Actions.RightClickReply | src/automation/action_engine.py:195-215 | a right click succeeds exactly when it reports no error |
| Actions.TypeContexts | src/automation/action_engine.py:223-225 | the page, preceded by the active modal when there is one |
| Actions.Fallback | src/automation/action_engine.py:260-299 | the fallbacks are tried in order and stop at the first that works. A typing that fails them all reports `Could not type into` and the selector |
| Actions.LabelCaption | src/automation/action_engine.py:238 | the label of a `label=` selector, stripped of blanks and quotes |
| Actions.PlanFor | src/automation/action_engine.py:235-256 | no fill without a selector, `get_by_label` for `label=`, and otherwise the selector, which is complex exactly when it names `div`, `role='textbox'` or `contenteditable` |
| Actions.FillAt | src/automation/action_engine.py:235-256 | there is a fill in a context exactly when there is a selector |
| Actions.Behind | src/automation/action_engine.py:235-258 | attempts made earlier come first, and the pass ends the same way |
| Actions.ContextPass | src/automation/action_engine.py:235-258 | a pass that ends the typing succeeds exactly when it reports no error |
| Actions.TypeReply | src/automation/action_engine.py:217-299 | typing succeeds exactly when it reports no error |
| Actions.TypeInContexts | src/automation/action_engine.py:235-299 | typing over the contexts and fallbacks succeeds exactly when it reports no error |
| Actions.PassFirst | src/automation/action_engine.py:235-258 | in one context: without a selector, nothing is tried. A working fill ends the typing, and a failed complex fill ends it with click-and-type. Any other failure moves on to the next context |
| Actions.BehindBehind | src/automation/action_engine.py:235-258 | attempts made in two stretches read as one stretch |
| Actions.PassAdvance | src/automation/action_engine.py:235-258 | one more context either ends the pass with everything tried so far, or adds its attempt and moves on |
| Actions.TypeInExhausted | src/automation/action_engine.py:260-299 | when no context works, the fallbacks run after the context attempts |
| Actions.NavigateReply | src/automation/action_engine.py:56-67 | navigation succeeds exactly when it reports no error |
| Actions.PressReply | src/automation/action_engine.py:311-324 | a key press succeeds exactly when it reports no error |
| Actions.WaitForReply | src/automation/action_engine.py:336-354 | a wait succeeds exactly when it reports no error |
| Actions.StepReply | src/automation/action_engine.py:15-53 | any step succeeds exactly when it reports no error |
| Actions.FixedReplies | src/automation/action_engine.py:25-49 | missing fields give the source's messages without a page call. `wait_for_user` and `screenshot` succeed at once, and any other action is `Unknown action: ...` |
| Actions.ModalChanges | src/automation/action_engine.py:64-209 | the active modal changes only after a successful navigate, click or right click, and navigating clears it |
| Actions.Fills | src/automation/action_engine.py:235-256 | one fill per context when there is a selector, and none otherwise |
| Actions.RunCons | src/automation/action_engine.py:235-299 | trying candidates stops at the first that works, and otherwise goes on with the rest |
| Actions.ContextPassRuns | src/automation/action_engine.py:235-258 | without a complex selector, the pass over the contexts is trying their fills in order |
| Actions.PassThenRun | src/automation/action_engine.py:235-299 | the pass over the contexts, then the fallbacks, is one run over both lists |
| Actions.TypeInContextsRuns | src/automation/action_engine.py:235-299 | typing without a complex selector tries the context fills and then the fallbacks in order. It stops at the first that works, and otherwise fails with `Could not type into` and the selector |
| Actions.TypeTriesInOrder | src/automation/action_engine.py:217-299 | typing a value with a non-complex selector is one ordered run over the fills and the fallbacks |
| Actions.ComplexTypeStops | src/automation/action_engine.py:245-253 | with a complex selector, a failed fill in the first context goes straight to click-and-type, whose outcome is final |
| Actions.TypeAttemptBound | src/automation/action_engine.py:217-299 | typing makes at most nine page calls |
| Actions.ActionEngine.constructor | src/automation/action_engine.py:8-11 | a new engine has no active modal and has made no page call |
| Actions.ActionEngine.Perform | src/automation/action_engine.py:164 | one page call is appended, its outcome is the oracle's for that call, and the modal is unchanged |
| Actions.ActionEngine.TryAll | src/automation/action_engine.py:162-171 | the loop makes exactly the calls of an ordered run that stops at the first success |
| Actions.ActionEngine.TryGroups | src/automation/action_engine.py:103-191 | the nested loops make exactly the calls of one run over the flattened groups |
| Actions.ActionEngine.TryGroupsThen | src/automation/action_engine.py:101-191 | running the text groups and then the raw groups is one run over both |
| Actions.ActionEngine.Click | src/automation/action_engine.py:78-193 | the calls, the outcome and the error are those of the click reply. The active modal is looked up again after a success and is unchanged otherwise |
| Actions.ActionEngine.RightClick | src/automation/action_engine.py:195-215 | the calls, the outcome and the error are those of the right-click reply, and the modal is looked up again after a success |
| Actions.ActionEngine.TypeInto | src/automation/action_engine.py:217-299 | the calls, the outcome and the error are those of the type reply, and the modal is unchanged |
| Actions.ActionEngine.TypeIn | src/automation/action_engine.py:235-299 | the context loop and then the fallbacks match the reply for those contexts |
| Actions.ActionEngine.FillOne | src/automation/action_engine.py:236-258 | one pass of the context loop either ends the typing or adds its attempt and moves on |
| Actions.ActionEngine.FillFrom | src/automation/action_engine.py:235-258 | the context loop makes the calls of the pass, and says whether it ended the typing |
| Actions.ActionEngine.FallBack | src/automation/action_engine.py:260-299 | the fallback chain makes the calls of the fallback reply |
| Actions.ActionEngine.Single | src/automation/action_engine.py:229-233 | one page call whose outcome is the oracle's |
| Actions.ActionEngine.Navigate | src/automation/action_engine.py:56-67 | the calls and outcome of the navigate reply; a success clears the active modal |
| Actions.ActionEngine.Press | src/automation/action_engine.py:311-324 | the calls and outcome of the press reply |
| Actions.ActionEngine.WaitFor | src/automation/action_engine.py:336-354 | the calls and outcome of the wait reply |
| Actions.ActionEngine.RunStep | src/automation/action_engine.py:15-53 | dispatching a step makes the calls of its reply, and the modal follows the action's rule |
| DomTree.ListedShape | src/automation/dom_tree.py:143-191 | the elements `traverse` lists come after the root, in document order without repeats, and each one is listed by the walker's rules |
| DomTree.LinesAre | src/automation/dom_tree.py:184 | an output holding the line of each listed element, in order, is the list of those lines |
| DomTree.Lines | src/automation/dom_tree.py:184 | one output line per listed element |
| DomTree.FirstTagged | src/automation/dom_tree.py:39 | `querySelector(tag)` finds the first descendant with that tag in document order, or none |
| DomTree.Parts | src/automation/dom_tree.py:49-66 | every text part the walker collects passes its filter: non-empty, not a timestamp and not a generic prefix |
| DomTree.LongestAt | src/automation/dom_tree.py:70 | the `reduce` keeps a longest part, and on ties the last one |
| DomTree.ModifierMatch | src/automation/dom_tree.py:103 | a match of `(Ctrl\|Alt\|Shift\|Cmd) [A-Z]` at the start: the first modifier followed by a space and a capital letter, with its length; 0 exactly when none is |
| DomTree.MatchLength | src/automation/dom_tree.py:102-103 | a match of `P then [A-Z]` (8 characters) or of a modifier and a capital letter at the start, and 0 exactly when neither pattern matches there |
| DomTree.Strike | src/automation/dom_tree.py:102-103 | removing shortcut hints never lengthens the text |
| DomTree.StrikeNoMatch | src/automation/dom_tree.py:102-103 | a text in which the pattern matches nowhere is unchanged |
| DomTree.StrikeAround | src/automation/dom_tree.py:102-103 | the text before the first match is copied, the match is deleted, and the deletion goes on after it |
| DomTree.DropIcons | src/automation/dom_tree.py:101 | no `▶` or `⇧` is left, the text does not grow, and a text without icons is unchanged |
| DomTree.DropIconsAppend | src/automation/dom_tree.py:101 | deleting icons from two texts in a row deletes them from each, so every other character is kept in order |
| DomTree.Squash | src/automation/dom_tree.py:104 | `replace(/\s+/g, ' ')`: no longer than the input, empty only for empty input, starting with a blank exactly when the input does, and leaving no blank other than a plain space and no two blanks side by side |
| DomTree.SquashBlank | src/automation/dom_tree.py:104 | a non-empty run made only of whitespace becomes exactly one space |
| DomTree.SquashSplit | src/automation/dom_tree.py:104 | the replacement works piece by piece wherever two pieces do not meet inside a whitespace run; with `SquashBlank`, each maximal whitespace run becomes one space and the text between runs is unchanged |
| DomTree.InkSkipsSpaces | src/automation/dom_tree.py:104 | leading blanks carry no visible characters |
| DomTree.SquashKeepsInk | src/automation/dom_tree.py:104 | collapsing blanks keeps every non-blank character, in order |
| DomTree.Label | src/automation/dom_tree.py:100-104 | the cleaned text is at most 50 characters, has single spaces only, and does not start with a blank |
| DomTree.LabelKeepsClean | src/automation/dom_tree.py:100-104 | a label that is already collapsed, trimmed, at most 50 characters, without icons and without shortcut hints comes through unchanged |
| DomTree.SquashCollapsed | src/automation/dom_tree.py:104 | collapsing whitespace in a text with single spaces only changes nothing |
| DomTree.Clip | src/automation/dom_tree.py:104 | `trim().slice(0, 50)`: the first 50 characters of the trimmed text, or all of it when shorter; still collapsed and without a leading blank |
| DomTree.CollapsedSlice | src/automation/dom_tree.py:104 | a slice of collapsed text is collapsed |
| DomTree.Prefix | src/automation/dom_tree.py:181 | `slice(0, n)` is the first `n` characters, or the whole text when it is shorter |
| DomTree.JoinStartsWithFirst | src/automation/dom_tree.py:184 | a joined line starts with its first part |
| DomTree.LineShape | src/automation/dom_tree.py:169-184 | a line starts with `[tag]`, a non-empty text comes second in quotes, and an `a` with an `href` ends with `href="`, the first 30 characters of the `href` (all of it when shorter) and `..."` |
| DomTree.JoinEndsWithLast | src/automation/dom_tree.py:186 | `parts.join(' ')` ends with the last part |
| DomTree.FirstWhere | src/automation/dom_tree.py:208-215 | the first index in a range that passes the test, or none |
| DomTree.FirstCandidateIs | src/automation/dom_tree.py:208-215 | the first element matching a modal selector that is visible and has text, or none |
| DomTree.RootFromChoice | src/automation/dom_tree.py:207-217 | from any selector on, the root leaves the body only for a first candidate that is not the body, and then the banner is set. A body candidate sets the banner and keeps the body as root |
| DomTree.RootChoice | src/automation/dom_tree.py:195-217 | the chosen root is the body, or the first non-body modal candidate with the banner set. With the body as root, the banner is set exactly when some selector's first candidate is the body |
| DomTree.PyHead | src/automation/dom_tree.py:227 | `tree[:n]` is a prefix, and of length `n` when `0 <= n <= len(tree)` |
| DomTree.Truncate | src/automation/dom_tree.py:226-228 | a tree within `max_length` is unchanged. A longer one is a prefix followed by `... (truncated)`, and for a non-negative `max_length` it is exactly `max_length` characters and the mark |
| DomTree.TreeText | src/automation/dom_tree.py:224-230 | a failed evaluation gives `Error generating accessibility tree: ` and the message, and otherwise the truncated script output |
| DomTree.DefaultBound | src/automation/dom_tree.py:224-228 | with the default limit of 50000, the text is at most the limit plus the mark, and is the whole tree when that fits |
| DomTree.ReachedAfterRoot | src/automation/dom_tree.py:132-143 | every element the walker reaches comes after the root and lies below it |
| DomTree.ReachedAbove | src/automation/dom_tree.py:132-143 | the ancestors between a reached element and the root are reached too |
| DomTree.HiddenHidesSubtree | src/automation/dom_tree.py:137 | a listed element and its ancestors up to the root are visible elements, since a rejected node hides its subtree |
| DomTree.NotCoveredMeansNoListedControl | src/automation/dom_tree.py:147-157 | an element that is not covered has no listed link or button between it and the root |
| DomTree.CoveredWitness | src/automation/dom_tree.py:147-157 | a covered element has a listed link or button between it and the root |
| DomTree.ListedNotInsideListedControl | src/automation/dom_tree.py:157-189 | nothing inside a listed link or button is listed |
| DomTree.ListedWhenUncovered | src/automation/dom_tree.py:157-159 | a reached, interesting element with no listed link or button above it is listed |
| DomTree.NoPartsNoDirect | src/automation/dom_tree.py:75-85 | with no kept text parts, the direct-text fallback is empty |
| DomTree.LinkTextIsLongestPart | src/automation/dom_tree.py:35-85 | for a link or button without semantic text, the label comes from the longest kept text part, the last one on ties, or is empty |
| DomTree.TimestampShape | src/automation/dom_tree.py:24-26 | digits, optional blanks and one of `min`, `h`, `d`, `w`, `mo`, `y` form a timestamp |
| DomTree.TimestampSplit | src/automation/dom_tree.py:25 | in such a text the digit run is exactly the digits and the unit follows the blanks |
| DomTree.CountThenRest | src/automation/dom_tree.py:25 | a leading run is counted up to the first character outside it |
| DomTree.FirstSemantic | src/automation/dom_tree.py:37-44 | the loop takes the selectors in the order `strong, b, em, h1`…`h6`; for each it looks only at the first match, and it stops at the first selector whose first match has non-empty trimmed text |
| DomTree.CollectParts | src/automation/dom_tree.py:49-66 | the loop collects exactly the kept trimmed text parts in document order |
| DomTree.JoinKeptChildren | src/automation/dom_tree.py:76-84 | the loop joins the kept direct text children with a space |
| DomTree.JoinChildren | src/automation/dom_tree.py:88-92 | the loop concatenates the direct text children |
| DomTree.GetSafeText | src/automation/dom_tree.py:19-105 | `getSafeText` gives the safe text of the element: at most 50 characters, with single spaces only |
| DomTree.HasOutputAncestor | src/automation/dom_tree.py:147-155 | the ancestor loop finds a listed link or button between the element and the root exactly when the element is covered |
| DomTree.VisitedHas | src/automation/dom_tree.py:132-143 | the elements accepted before `j` are exactly those after the root and before `j` that the walker reaches |
| DomTree.ListedControlsHas | src/automation/dom_tree.py:130-189 | `outputElements` before `j` holds exactly the listed links and buttons between the root and `j` |
| DomTree.VisitedStep | src/automation/dom_tree.py:143 | one more element adds itself to the accepted set exactly when it is reached |
| DomTree.ListedControlsStep | src/automation/dom_tree.py:186-189 | one more element joins `outputElements` exactly when it is a listed link or button |
| DomTree.WalkerTest | src/automation/dom_tree.py:136-139 | the walker reaches an element exactly when it is a visible element whose parent is the root or an accepted element |
| DomTree.Describe | src/automation/dom_tree.py:160-184 | the line for an element is its tag, its text and its attributes |
| DomTree.LinesSnoc | src/automation/dom_tree.py:184 | appending an element's line keeps the output matched to the listed elements |
| DomTree.ListIfInteresting | src/automation/dom_tree.py:159-190 | an interesting element adds its line, and a link or button is marked. Output and marks stay those of the listed elements |
| DomTree.Visit | src/automation/dom_tree.py:143-191 | one pass of the walker loop keeps the accepted set, the marks and the output in step with the walker's rules |
| DomTree.Traverse | src/automation/dom_tree.py:128-193 | `traverse` outputs exactly the lines of the listed elements, in document order |
| DomTree.FirstModal | src/automation/dom_tree.py:208-215 | the inner loop finds the first candidate of a selector |
| DomTree.SelectorRound | src/automation/dom_tree.py:208-216 | one selector either settles the root on a non-body candidate, or passes on to the next selector |
| DomTree.SelectorLoop | src/automation/dom_tree.py:204-217 | the loop over the selectors gives the chosen root and banner |
| DomTree.PickRoot | src/automation/dom_tree.py:195-217 | the modal search gives exactly the chosen root and banner |
| DomTree.RunScript | src/automation/dom_tree.py:195-220 | the script returns the banner and the joined lines of the chosen root |
| DomTree.GetPageAccessibilityTree | src/automation/dom_tree.py:3-230 | `get_page_accessibility_tree` gives the error text or the truncated tree |
| Trials.First | src/automation/action_engine.py:162-171 | the index of the first candidate that works, when there is one |
| Trials.FirstFromIs | src/automation/action_engine.py:162-171 | the search from `i` finds `r` exactly when `r` works and every candidate before it fails, or when none works and `r` is None |
| Trials.FirstWorks | src/automation/action_engine.py:162-171 | the first success found is a working candidate with only failures before it |
| Trials.Run | src/automation/action_engine.py:162-171 | a run that succeeds made at least one call, and a run that fails made every call |
| Trials.RunFirstSuccess | src/automation/action_engine.py:162-171 | in a run, a call works exactly when it is the last one and the run succeeded |
| Trials.RunPrefix | src/automation/action_engine.py:162-171 | a run makes a prefix of the candidates, in order |
| Trials.Then | src/automation/action_engine.py:160-191 | a second stage runs only when the first failed, after its calls |
| Trials.RunConcat | src/automation/action_engine.py:160-191 | running two lists one after the other is one run over their concatenation |
| Trials.ConcatFirstInA | src/automation/action_engine.py:160-191 | a success in the first list is the first success of the whole |
| Trials.ConcatFirstInB | src/automation/action_engine.py:160-191 | with no success in the first list, the first success of the whole is the second list's, shifted |
| Trials.RunSnoc | src/automation/action_engine.py:160-191 | after a failed run, one more candidate decides the outcome |
| Trials.FlattenAppend | src/automation/action_engine.py:101-191 | flattening two group lists one after the other concatenates them |
| Trials.FlattenUniform | src/automation/action_engine.py:101-141 | groups of equal size `n` flatten to `n` times their number |
| Trials.GroupStep | src/automation/action_engine.py:103-141 | after failed groups, the next group runs after their calls |
| Trials.GroupsStop | src/automation/action_engine.py:103-141 | once a group succeeds, the later groups are not tried |
| Trials.GroupAdvance | src/automation/action_engine.py:103-141 | one more group either ends the whole run with success or adds its failed calls |
| Trials.RunGroupsConcat | src/automation/action_engine.py:101-191 | the text groups and then the raw groups run as one list |
| Text.Lower | src/agents/orchestrator_agent.py:67 | `lower()` keeps the length and lower-cases each letter |
| Text.IndexOf | src/agents/orchestrator_agent.py:33 | the first occurrence of a pattern, or none at all |
| Text.AfterFirst | src/automation/action_engine.py:342 | `split(sep, 1)[1]` exists exactly when the separator occurs, and is the text after its first occurrence |
| Text.LeadingCount | src/automation/dom_tree.py:25 | the length of the leading run of characters with the property |
| Text.SpanEnd | src/llm/json_postprocessor.py:113 | the end of the run of characters with the property from `i` |
| Text.TrimBy | src/agents/orchestrator_agent.py:34 | `strip(chars)` removes only characters of the set, and only from the two ends; the result has none at either end, and a text without one at its ends is unchanged |
| Text.TrimByIs | src/agents/orchestrator_agent.py:34 | stripping `a + m + b`, where `a` and `b` hold only stripped characters and `m` has none at its ends, gives exactly `m` |
| Text.Strip | src/agents/orchestrator_agent.py:34 | `strip()` removes only leading and trailing whitespace (Python's, with `\x1c`–`\x1f`) and leaves none at either end |
| Text.Trim | src/automation/dom_tree.py:104 | JavaScript's `trim()` removes only leading and trailing whitespace (without `\x1c`–`\x1f`) and leaves none at either end |
| Text.StripQuotes | src/agents/orchestrator_agent.py:34 | `strip().strip('"').strip("'")` removes only blanks and quotes, and only from the ends, and leaves no `'` at either end |
| Text.StripQuotesUnquotes | src/agents/orchestrator_agent.py:34 | a value without outer blanks or quotes is kept, and the same value in `"` quotes loses exactly its quotes |
| Text.Replace | src/llm/json_postprocessor.py:100 | `str.replace` of a text that does not occur changes nothing |
| Text.ReplaceAtFirst | src/llm/json_postprocessor.py:100 | at the first occurrence, `str.replace` copies the text before it, puts the replacement in its place and goes on after it |
| Text.Title | src/automation/action_engine.py:98 | `title()` keeps the length |
| Text.TitleWords | src/automation/action_engine.py:98 | `title()` changes only letters, keeps each letter the same letter, and makes it upper-case exactly when it starts a run of letters |
| Text.NatToString | src/storage/dataset_writer.py:21 | a decimal rendering is one or more digits |
| Text.ZeroPad4 | src/storage/dataset_writer.py:21 | `{:04d}` has at least four digits |

## Left out

- Text: strings are sequences of characters with ASCII rules for `isalnum`, `lower`, `title`, `strip`, `trim` and `\s`. Unicode case mapping and Unicode whitespace are not modelled. Python's whitespace (`Text.IsSpace`) includes `\x1c`–`\x1f`; JavaScript's (`Text.IsJsSpace`) does not.
- Json.PyRepr: non-printable characters outside ASCII, which Python writes as `\x`, `\u` or `\U` escapes, are kept as they are.
- Json: numbers are integers only. Floats from `json.loads` and their `repr` are not modelled.
- Json.Get: a dict from `json.loads` never repeats a key (the last value wins). The model's objects may repeat one, and then `Get` returns the first value. The `loads` parameter is taken to return objects without repeated keys.
- I/O and the environment become parameters:
  - The clock's timestamp and the random `uid` are inputs.
  - The directory listing and the `is_dir` test of `_get_next_id` are inputs.
  - The run directory is a `RunDir` object whose two files are fields.
- The LLM call of `LLMClient.plan` and `json.loads` are function parameters. Their failures are `Err` values, since the model does not re-create Python exceptions.
- The Playwright page is an oracle. `Page.works(n, a)` says whether the `n`-th page call `a` of the engine succeeds, and `failure(n, a)` gives its exception text. `visible(n, s)` answers `is_visible` for a modal selector. The page's own state and the DOM effects of a call are not modelled.
- Actions: sleeps (`asyncio.sleep`) and Playwright timeouts are left out. A call that times out is a failing attempt.
- Actions: each composite call is one attempt, since its parts cannot fail separately in the model. This covers `_click_and_type`, and the click then `keyboard.type` of the aria-label fallback.
- Actions: `wait_for_user` succeeds without a page call. The terminal prompt and `input()` are I/O.
- Actions.StepReply: the `except` arm of `run_step` (src/automation/action_engine.py:51-53) is not modelled. Every handler catches its own page errors, so no exception reaches it in the model.
- Actions.ClickContexts: the overlay selector `div[data-overlay-container']` (src/automation/action_engine.py:156) has an unmatched quote. It is kept as written, as one more context whose calls fail or succeed by the oracle.
- Actions.Click: the iteration order of Python's `set` of text variations is the `order` parameter. It is required to list the set without repeats, and is not derived from string hashing.
- ScreenshotManager.Capture: the `viewport` entry of the metadata (src/automation/screenshot_manager.py:55-68, 76) is not modelled. It comes from a `page.evaluate` probe of the window size and scroll position, and nothing in the core reads it. The screenshot outcome is a function of the path and the full-page flag, so a viewport retry after a failed viewport capture fails again in the model, whereas a transient failure can clear on retry in the source; the core's callers always ask for a full-page capture.
- ExecutorAgent: `run_step`, the screenshots and the page reads of a round come from the `Browser` oracle. The round is not linked to `Actions.ActionEngine` in the model.
- ExecutorAgent: `BrowserController` (start, stop, `keep_open` and `existing_page`) is not modelled. The round always reuses one browser and one run directory.
- ExecutorAgent.Execute: the observation's `!!! LAST ACTION FAILED` prefix at src/agents/executor_agent.py:162-163 is dead code. A failed step has already ended the round with the failure view, so a round that reaches the end block has `success` true. For an empty plan, that block reads an unbound `success`, and the swallowed exception leaves the observation None, as in the model.
- ExecutorAgent.LogLength: a successful captured step is written to `steps.json` twice (src/agents/executor_agent.py:95 and 134). Its record appears twice and `num_steps` counts both. This is modelled as written.
- ExecutorAgent: `detect_state_change` is not called by the executor. `state_changed` is the step's success flag, as in the source.
- ControlLoop.RunGraph: LangGraph's `recursion_limit` of 100 is represented by the length of the `browsers` sequence. A run that uses every entry ends as `OutOfRounds` instead of raising `GraphRecursionError`.
- ControlLoop: `run`'s printing of the final state and its wait for Enter when `keep_open` is set are I/O and are left out.
- LlmClient.CleanSelectorValue: a dict selector from the model becomes its `str()` in `plan` (src/llm/llm_client.py:78-81). `normalize_selector`'s dict branch therefore only sees a dict when a planner other than `LLMClient` supplies one. Both are modelled as written.
- JsonPostprocessor: the regular expressions are written as the functions they compute on these inputs. The `re` engine itself is not modelled.
- JsonPostprocessor.UnterminatedBlockCommentKeepsLastChar: an unterminated `/*` drops the rest of the text except its last character, because the skip loop stops at `i + 1 < n`. This is modelled as written.
- DomTree: layout is an input. `isVisible` (bounding box and computed style) and `innerText` are fields of each node.
  - Tags are stored lower-cased.
  - Attributes absent or empty are the empty string.
  - `onclick` is a flag.
- DomTree.Traverse: the DOM is a flat array in document order with parent indices. The walker loop scans every index after the root and skips the nodes it does not reach, which gives the `TreeWalker` order.
- DomTree.ChooseRoot: a visible modal candidate that is the body sets the `ACTIVE MODAL` banner and keeps the body as root. The search then goes on to the next selector.
- DomTree.SafeText: strategy 3 of `getSafeText` (src/automation/dom_tree.py:75-85) can only run when strategy 2 found no part. Then its direct-text parts are empty too (`NoPartsNoDirect`), so it always yields the empty text.
- DomTree.TreeText: a failing `page.evaluate` is an `Err` input with its message.
- The test and context files (`test/test_dynamic_plan.py`, `dom_retriever.py`, `browser_controller.py`, `logger.py`) are not part of this model. Logging is left out everywhere.
