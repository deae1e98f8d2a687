/**
 * The planner client (src/llm/llm_client.py): the prompt built from the
 * task, the step history and the observation; the call to the model; and
 * the cleaning of the parsed step list.
 */
module LlmClient {
  import opened Wrappers
  import opened Text
  import opened Json
  import opened JsonPostprocessor
  import opened MessageProtocol

  /**
   * The client as configured: whether an API key was found, the system
   * prompt, the model call (None when it raises or returns no text) and the
   * JSON decoder.
   */
  datatype Client = Client(
    configured: bool,
    systemPrompt: string,
    generate: string -> Option<string>,
    loads: string -> Result<Json, string>)

  /** `f"{x}"` of an optional string. */
  function OptText(o: Option<string>): string {
    match o
    case None => "None"
    case Some(s) => s
  }

  /** The status a history line ends with. */
  function Status(step: StepExecutionResult): string {
    if step.success then "Success" else "Failed: " + OptText(step.error)
  }

  /** The line one history step contributes to the prompt. */
  function HistoryLine(step: StepExecutionResult): string {
    "- Step " + IntToString(step.stepIndex) + ": " + step.action + " " + PyStr(JObj(step.details)) + " -> " + Status(step) + "\n"
  }

  /** The strings of `parts`, concatenated in order. */
  function Concat(parts: seq<string>): string
    decreases |parts|
  {
    if parts == [] then [] else Concat(parts[..|parts| - 1]) + parts[|parts| - 1]
  }

  lemma {:induction false} ConcatAppend(a: seq<string>, b: seq<string>)
    ensures Concat(a + b) == Concat(a) + Concat(b)
    decreases |b|
  {
    if b == [] {
      assert a + b == a;
    } else {
      var b0 := b[..|b| - 1];
      assert (a + b)[..|a + b| - 1] == a + b0;
      ConcatAppend(a, b0);
    }
  }

  /** One line per history step, oldest first. */
  function Lines(history: seq<StepExecutionResult>): (r: seq<string>)
    ensures |r| == |history|
    ensures forall i :: 0 <= i < |history| ==> r[i] == HistoryLine(history[i])
  {
    seq(|history|, i requires 0 <= i < |history| => HistoryLine(history[i]))
  }

  /** The lines of the whole history, oldest first. */
  function HistoryLines(history: seq<StepExecutionResult>): string {
    Concat(Lines(history))
  }

  const HistoryHeader := "\n\nPREVIOUS ACTIONS (HISTORY):\n"
  const ObservationHeader := "\n\nCURRENT PAGE OBSERVATION:\n"
  const ObservationFooter := "\n\nBased on this observation, what are the NEXT steps? If the task is complete, return an empty list []."

  /** The history section of the prompt: empty without history. */
  function HistorySection(history: seq<StepExecutionResult>): string {
    if history != [] then HistoryHeader + HistoryLines(history) else []
  }

  /** The observation section of the prompt: empty unless an observation is given. */
  function ObservationSection(observation: Option<string>): string {
    if observation.Some? && observation.value != [] then ObservationHeader + observation.value + ObservationFooter else []
  }

  /** The prompt `plan` sends for these inputs. */
  function Prompt(system: string, task: string, observation: Option<string>, history: seq<StepExecutionResult>): string {
    system + "\nUser task: " + task + HistorySection(history) + ObservationSection(observation)
  }

  /** Prompt assembly: the task line, one line per history step, then the observation section when there is one. */
  method BuildPrompt(system: string, task: string, observation: Option<string>, history: seq<StepExecutionResult>)
    returns (prompt: string)
    ensures prompt == Prompt(system, task, observation, history)
  {
    var head := system + "\nUser task: " + task;
    var historyPart: string := [];
    if history != [] {
      var lines := JoinHistory(history);
      historyPart := HistoryHeader + lines;
    }
    var observationPart: string := [];
    if observation.Some? && observation.value != [] {
      observationPart := ObservationHeader + observation.value + ObservationFooter;
    }
    prompt := head + historyPart + observationPart;
  }

  /** The history loop of prompt assembly: one line per step, appended in order. */
  method JoinHistory(history: seq<StepExecutionResult>) returns (lines: string)
    ensures lines == HistoryLines(history)
  {
    lines := [];
    ghost var each := Lines(history);
    for i := 0 to |history|
      invariant lines == Concat(each[..i])
    {
      assert each[..i + 1][..i] == each[..i];
      lines := lines + HistoryLine(history[i]);
    }
    assert each[..|history|] == each;
  }

  /** Each history step contributes its own line, in order: the lines of a longer history extend those of a shorter one. */
  lemma HistoryLinesAppend(a: seq<StepExecutionResult>, b: seq<StepExecutionResult>)
    ensures HistoryLines(a + b) == HistoryLines(a) + HistoryLines(b)
  {
    assert Lines(a + b) == Lines(a) + Lines(b);
    ConcatAppend(Lines(a), Lines(b));
  }

  /** Without history and observation the prompt is the system prompt and the task line. */
  lemma PromptWithoutContext(system: string, task: string, observation: Option<string>)
    requires observation.None? || observation == Some([])
    ensures Prompt(system, task, observation, []) == system + "\nUser task: " + task
  {
  }

  /** With an observation, the prompt ends with the observation section. */
  lemma PromptEndsWithObservation(system: string, task: string, obs: string, history: seq<StepExecutionResult>)
    requires obs != []
    ensures var p := Prompt(system, task, Some(obs), history);
      var tail := ObservationHeader + obs + ObservationFooter;
      |tail| <= |p| && p[|p| - |tail|..] == tail
  {
    var head := system + "\nUser task: " + task + HistorySection(history);
    var tail := ObservationHeader + obs + ObservationFooter;
    assert Prompt(system, task, Some(obs), history) == head + tail;
    assert (head + tail)[|head + tail| - |tail|..] == tail;
  }

  // ---------------------------------------------------------------------
  // The post-parse cleaning loop
  // ---------------------------------------------------------------------

  /** The entry makes the cleaning loop raise: `"action" in s` or `s["action"]` fails on it. */
  predicate RaisesInCleaning(e: Json) {
    match e
    case JObj(_) => false
    case JStr(t) => Contains(t, "action")
    case JArr(xs) => JStr("action") in xs
    case _ => true
  }

  /** The selector a non-navigate step keeps: None stays None, a string is stripped, anything else becomes its `str`. */
  function CleanSelectorValue(sel: Json): (r: Json)
    ensures r.JNull? || r.JStr?
    ensures sel.JNull? ==> r.JNull?
    ensures sel.JStr? ==> r == JStr(Strip(sel.s))
    ensures !sel.JNull? && !sel.JStr? ==> r == JStr(PyStr(sel))
  {
    match sel
    case JNull => JNull
    case JStr(s) => JStr(Strip(s))
    case _ => JStr(PyStr(sel))
  }

  predicate IsNavigate(f: seq<(string, Json)>) {
    Get(f, "action") == JStr("navigate")
  }

  /** What the loop keeps of one entry: None when it is skipped (an entry that raises is never kept). */
  function CleanEntry(e: Json): (r: Option<Json>)
    ensures r.Some? ==> e.JObj? && r.value.JObj? && HasKey(e.fields, "action")
    ensures r.Some? ==> HasKey(r.value.fields, "action") && HasKey(r.value.fields, "selector")
    ensures r.Some? ==> forall k {:trigger Get(r.value.fields, k)} :: k != "selector" ==> Get(r.value.fields, k) == Get(e.fields, k)
    ensures r.Some? && IsNavigate(e.fields) ==> Truthy(Get(e.fields, "value")) && Get(r.value.fields, "selector") == JNull
    ensures r.Some? && !IsNavigate(e.fields) ==> Get(r.value.fields, "selector") == CleanSelectorValue(Get(e.fields, "selector"))
    ensures e.JObj? && HasKey(e.fields, "action") && !(IsNavigate(e.fields) && !Truthy(Get(e.fields, "value"))) ==> r.Some?
  {
    match e
    case JObj(f) =>
      if !HasKey(f, "action") then None
      else if IsNavigate(f) then
        if !Truthy(Get(f, "value")) then None else Some(JObj(Set(f, "selector", JNull)))
      else Some(JObj(Set(f, "selector", CleanSelectorValue(Get(f, "selector")))))
    case _ => None
  }

  /** The kept form of one entry, as a list of zero or one steps. */
  function KeptOf(e: Json): (r: seq<Json>)
    ensures |r| <= 1
    ensures forall x :: x in r ==> IsCleanStep(x)
  {
    match CleanEntry(e)
    case None => []
    case Some(v) => [v]
  }

  /** The kept entries, in their original order. */
  function Kept(items: seq<Json>): (r: seq<Json>)
    ensures |r| <= |items|
  {
    CollectShorter(items);
    Collect(items, KeptOf)
  }

  /** `f` applied to each item, the results concatenated in order. */
  function Collect<T, U>(items: seq<T>, f: T -> seq<U>): seq<U>
    decreases |items|
  {
    if items == [] then [] else Collect(items[..|items| - 1], f) + f(items[|items| - 1])
  }

  lemma {:induction false} CollectShorter(items: seq<Json>)
    ensures |Collect(items, KeptOf)| <= |items|
    decreases |items|
  {
    if items != [] {
      CollectShorter(items[..|items| - 1]);
    }
  }

  /** One more item adds what `f` makes of it. */
  lemma CollectStep<T, U>(items: seq<T>, i: nat, f: T -> seq<U>)
    requires i < |items|
    ensures Collect(items[..i + 1], f) == Collect(items[..i], f) + f(items[i])
  {
    assert items[..i + 1][..i] == items[..i];
  }

  /** Collecting over a concatenation concatenates the collections. */
  lemma {:induction false} CollectAppend<T, U>(a: seq<T>, b: seq<T>, f: T -> seq<U>)
    ensures Collect(a + b, f) == Collect(a, f) + Collect(b, f)
    decreases |b|
  {
    if b == [] {
      assert a + b == a;
    } else {
      var b0 := b[..|b| - 1];
      assert (a + b)[..|a + b| - 1] == a + b0;
      assert (a + b)[|a + b| - 1] == b[|b| - 1];
      CollectAppend(a, b0, f);
    }
  }

  predicate SomeEntryRaises(items: seq<Json>) {
    exists i :: 0 <= i < |items| && RaisesInCleaning(items[i])
  }

  /** The result of the cleaning loop: None when some entry raises, otherwise the kept entries. */
  function Cleaned(items: seq<Json>): (r: Option<seq<Json>>)
    ensures r.None? <==> SomeEntryRaises(items)
  {
    if SomeEntryRaises(items) then None else Some(Kept(items))
  }

  /** The cleaning loop of `plan`; None stands for the exception that sends `plan` to its fallback. */
  method CleanEntries(items: seq<Json>) returns (r: Option<seq<Json>>)
    ensures r == Cleaned(items)
  {
    CleanRunIsCleaned(items, 0, []);
    var cleaned: seq<Json> := [];
    for i := 0 to |items|
      invariant CleanRun(items, i, cleaned) == Cleaned(items)
    {
      if RaisesInCleaning(items[i]) {
        return None;
      }
      cleaned := cleaned + KeptOf(items[i]);
    }
    return Some(cleaned);
  }

  /** The loop from entry `i` on, with `acc` kept so far. */
  function CleanRun(items: seq<Json>, i: nat, acc: seq<Json>): Option<seq<Json>>
    requires i <= |items|
    decreases |items| - i
  {
    if i == |items| then Some(acc)
    else if RaisesInCleaning(items[i]) then None
    else CleanRun(items, i + 1, acc + KeptOf(items[i]))
  }

  /** Running the loop from any point it reaches finishes with the cleaning of the whole list. */
  lemma {:induction false} CleanRunIsCleaned(items: seq<Json>, i: nat, acc: seq<Json>)
    requires i <= |items|
    requires acc == Collect(items[..i], KeptOf)
    requires forall j :: 0 <= j < i ==> !RaisesInCleaning(items[j])
    ensures CleanRun(items, i, acc) == Cleaned(items)
    decreases |items| - i
  {
    if i == |items| {
      CleanedKeeps(items);
    } else if RaisesInCleaning(items[i]) {
      CleanedRaises(items, i);
    } else {
      var next := acc + KeptOf(items[i]);
      CollectStep(items, i, KeptOf);
      assert next == Collect(items[..i + 1], KeptOf);
      assert forall j :: 0 <= j < i + 1 ==> !RaisesInCleaning(items[j]) by {
        forall j | 0 <= j < i + 1 ensures !RaisesInCleaning(items[j]) {
          if j == i {}
        }
      }
      CleanRunIsCleaned(items, i + 1, next);
    }
  }

  lemma CleanedRaises(items: seq<Json>, i: nat)
    requires i < |items| && RaisesInCleaning(items[i])
    ensures Cleaned(items) == None
  {
    assert SomeEntryRaises(items);
  }

  lemma CleanedKeeps(items: seq<Json>)
    requires forall j :: 0 <= j < |items| ==> !RaisesInCleaning(items[j])
    ensures Cleaned(items) == Some(Collect(items[..|items|], KeptOf))
  {
    assert items[..|items|] == items;
  }

  /** Kept entries keep their relative order: cleaning a concatenation concatenates the cleanings. */
  lemma KeptAppend(a: seq<Json>, b: seq<Json>)
    ensures Kept(a + b) == Kept(a) + Kept(b)
  {
    CollectAppend(a, b, KeptOf);
  }

  /** Every kept entry is an object with an `action` and a selector that is None or a string. */
  lemma {:induction false} KeptAreClean(items: seq<Json>)
    ensures forall i :: 0 <= i < |Kept(items)| ==> IsCleanStep(Kept(items)[i])
    decreases |items|
  {
    if items != [] {
      var init := items[..|items| - 1];
      KeptAreClean(init);
      assert Kept(items) == Kept(init) + KeptOf(items[|items| - 1]);
    }
  }

  predicate IsCleanStep(s: Json) {
    s.JObj? && HasKey(s.fields, "action") && (Get(s.fields, "selector").JNull? || Get(s.fields, "selector").JStr?)
  }

  /** The steps a model answer yields: the kept entries of the list it parses to, or the fallback `[]`. */
  function AnswerSteps(text: string, loads: string -> Result<Json, string>): seq<Json> {
    ParsedSteps(ParseJsonFromLlm(Some(Strip(text)), loads))
  }

  /** The steps kept from a parsed answer: a list with some entry kept, or nothing. */
  function ParsedSteps(parsed: Result<Json, ParseError>): seq<Json> {
    match parsed
    case Ok(JArr(items)) => (match Cleaned(items) case Some(c) => c case None => [])
    case _ => []
  }

  /** What `plan` returns: the fallback `[]` unless the model answered with a list from which some entry was kept. */
  function PlanSteps(client: Client, task: string, observation: Option<string>, history: seq<StepExecutionResult>): seq<Json> {
    if !client.configured then []
    else match client.generate(Prompt(client.systemPrompt, task, observation, history))
      case None => []
      case Some(text) => AnswerSteps(text, client.loads)
  }

  /**
   * `LLMClient.plan`. A parse error, an answer that is not a list (iterating
   * it either raises or keeps nothing), an entry that raises, and an empty
   * cleaned list all end in the fallback `[]`.
   */
  method PlanStepsFor(client: Client, task: string, observation: Option<string>, history: seq<StepExecutionResult>)
    returns (steps: seq<Json>)
    ensures steps == PlanSteps(client, task, observation, history)
  {
    if !client.configured {
      return Fallback();
    }
    var prompt := BuildPrompt(client.systemPrompt, task, observation, history);
    var response := client.generate(prompt);
    if response.None? {
      return Fallback();
    }
    steps := StepsFromAnswer(response.value, client.loads);
  }

  /** The part of `plan` after the model answered: parse, then clean. */
  method StepsFromAnswer(text: string, loads: string -> Result<Json, string>) returns (steps: seq<Json>)
    ensures steps == AnswerSteps(text, loads)
  {
    var raw := Strip(text);
    var parsed := ParseJsonFromLlm(Some(raw), loads);
    steps := StepsFromParsed(parsed);
  }

  method StepsFromParsed(parsed: Result<Json, ParseError>) returns (steps: seq<Json>)
    ensures steps == ParsedSteps(parsed)
  {
    if !(parsed.Ok? && parsed.value.JArr?) {
      return Fallback();
    }
    var cleaned := CleanEntries(parsed.value.items);
    if cleaned.None? || cleaned.value == [] {
      return Fallback();
    }
    return cleaned.value;
  }

  /** `_fallback`: the empty plan. */
  function Fallback(): (r: seq<Json>)
    ensures r == []
  {
    []
  }

  /** Every step taken from a model answer is an object with an `action` and a cleaned `selector`. */
  lemma AnswerStepsAreClean(text: string, loads: string -> Result<Json, string>)
    ensures forall i :: 0 <= i < |AnswerSteps(text, loads)| ==> IsCleanStep(AnswerSteps(text, loads)[i])
  {
    var parsed := ParseJsonFromLlm(Some(Strip(text)), loads);
    if parsed.Ok? && parsed.value.JArr? {
      KeptAreClean(parsed.value.items);
    }
  }

  /** Every step `plan` returns is an object with an `action` and a cleaned `selector`. */
  lemma PlanStepsAreClean(client: Client, task: string, observation: Option<string>, history: seq<StepExecutionResult>)
    ensures forall i :: 0 <= i < |PlanSteps(client, task, observation, history)| ==>
      IsCleanStep(PlanSteps(client, task, observation, history)[i])
  {
    if client.configured {
      var answer := client.generate(Prompt(client.systemPrompt, task, observation, history));
      if answer.Some? {
        AnswerStepsAreClean(answer.value, client.loads);
      }
    }
  }
}
