/**
 * The step executor (src/automation/action_engine.py): an engine bound to
 * one page that runs a single planned action, trying fallback strategies in
 * a fixed order until one works, and tracks the active modal dialog.
 *
 * The page is an oracle. Every Playwright call the engine makes is an
 * `Attempt`, recorded in the engine's history; the oracle decides from the
 * number of calls made before it whether an attempt works or raises, and
 * with which message. A timeout is an attempt that raises. Each operation
 * is specified by a function that computes its `Reply` (the attempts made,
 * success, error) from the call count it starts at.
 */
module Actions {
  import opened Wrappers
  import opened Text
  import opened MessageProtocol
  import opened Trials

  /** Where a locator is resolved: the page, the active modal, or a container located by a selector. */
  datatype Ctx = PageCtx | ModalCtx(modal: string) | Within(container: string)

  /** One call into the page. Composite calls (click, then keyboard typing) are one attempt. */
  datatype Attempt =
    | Goto(url: string)
    | ClickRole(role: string, name: string)
    | ClickText(name: string, exact: bool)
    | ClickContainer(name: string)
    | ClickIn(ctx: Ctx, selector: string, force: bool)
    | RightClickIn(ctx: Ctx, selector: string)
    | KeyboardType(text: string)
    | FillLabel(ctx: Ctx, caption: string, text: string)
    | Fill(ctx: Ctx, selector: string, text: string)
    | ClickAndType(ctx: Ctx, selector: string, text: string)
    | FillFirst(ctx: Ctx, selector: string, text: string)
    | TextboxType(ctx: Ctx, caption: string, text: string)
    | PressOn(selector: string, key: string)
    | PressKey(key: string)
    | WaitUrl(fragment: string)
    | WaitLoad
    | WaitSelector(selector: string)

  /**
   * The page as seen by the engine, after `n` earlier calls into it: whether
   * an attempt works, the message of the exception it raises otherwise, and
   * whether a selector's first match is visible.
   */
  datatype Page = Page(
    works: (nat, Attempt) -> bool,
    failure: (nat, Attempt) -> string,
    visible: (nat, string) -> bool)

  /** What an operation did: the attempts made in order, whether it succeeded, and its error message. */
  datatype Reply = Reply(made: seq<Attempt>, ok: bool, error: Option<string>)

  /** A reply preceded by attempts that were made before it. */
  function After(earlier: seq<Attempt>, r: Reply): (r': Reply)
    ensures r'.made == earlier + r.made && r'.ok == r.ok && r'.error == r.error
  {
    Reply(earlier + r.made, r.ok, r.error)
  }

  /** One attempt whose exception message, behind `prefix`, becomes the error. */
  function Attempted(page: Page, time: nat, a: Attempt, prefix: string): (r: Reply)
    ensures r.made == [a]
    ensures r.ok <==> page.works(time, a)
    ensures r.ok <==> r.error.None?
    ensures !r.ok ==> r.error == Some(prefix + page.failure(time, a))
  {
    if page.works(time, a) then Reply([a], true, None) else Reply([a], false, Some(prefix + page.failure(time, a)))
  }

  // ---------------------------------------------------------------------
  // Selector helpers

  /** A field given and non-empty, Python's truthiness of an optional string. */
  predicate Given(field: Option<string>) {
    field.Some? && field.value != ""
  }

  /** `str(selector)` as it appears in an error message. */
  function Show(field: Option<string>): string {
    if field.None? then "None" else field.value
  }

  /** The first `=` of a selector that starts with `prefix` is the one that ends the prefix. */
  lemma FirstEquals(s: string, prefix: string)
    requires StartsWith(s, prefix) && |prefix| >= 1 && prefix[|prefix| - 1] == '='
    requires forall k :: 0 <= k < |prefix| - 1 ==> prefix[k] != '='
    ensures IndexOf(s, "=") == Some(|prefix| - 1)
  {
    assert s[|prefix| - 1] == prefix[|prefix| - 1];
    assert OccursAt(s, "=", |prefix| - 1);
    forall j | 0 <= j < |prefix| - 1
      ensures !OccursAt(s, "=", j)
    {
      assert s[j] == prefix[j];
    }
  }

  /** `selector.split("=", 1)[1]` stripped of whitespace and outer quotes, for a selector that starts with `prefix`. */
  function ValueAfterEquals(s: string, prefix: string): (r: string)
    requires StartsWith(s, prefix) && |prefix| >= 1 && prefix[|prefix| - 1] == '='
    requires forall k :: 0 <= k < |prefix| - 1 ==> prefix[k] != '='
    ensures r == StripQuotes(s[|prefix|..])
  {
    FirstEquals(s, prefix);
    StripQuotes(AfterFirst(s, "=").value)
  }

  /** `_extract_text`: the target of a `text=` selector, None for anything else. */
  function ExtractText(selector: Option<string>): (r: Option<string>)
    ensures r.Some? <==> Given(selector) && StartsWith(selector.value, "text=")
    ensures r.Some? ==> r.value == StripQuotes(selector.value[5..])
  {
    if Given(selector) && StartsWith(selector.value, "text=") then Some(TextCaption(selector.value))
    else None
  }

  /** The text a `text=` selector names: after the first `=`, quotes stripped. */
  function TextCaption(s: string): (r: string)
    requires StartsWith(s, "text=")
    ensures r == StripQuotes(s[5..])
  {
    ValueAfterEquals(s, "text=")
  }

  /**
   * The end of the lazy match `(.*?)\1\]` for quote `q` from `i`: the first
   * position j with `s[j] == q` and `s[j + 1] == ']'`, provided no newline
   * comes before it (`.` does not match a newline).
   */
  function CloseAt(s: string, i: nat, q: char): (j: Option<nat>)
    decreases |s| - i
    ensures j.Some? ==> i <= j.value && j.value + 1 < |s| && s[j.value] == q && s[j.value + 1] == ']'
  {
    if i + 1 >= |s| then None
    else if s[i] == q && s[i + 1] == ']' then Some(i)
    else if s[i] == '\n' then None
    else CloseAt(s, i + 1, q)
  }

  predicate IsQuote(c: char) { c == '\'' || c == '"' }

  /**
   * `re.sub(r"\[text=(['\"])(.*?)\1\]", r":has-text(\1\2\1)", s)`: every
   * match, scanning left to right, becomes a `:has-text(...)` filter.
   */
  function Sanitize(s: string): (r: string)
    decreases |s|
  {
    match FrontMatch(s)
    case Some(j) => ":has-text(" + s[6..j + 1] + ")" + Sanitize(s[j + 2..])
    case None => if s == [] then [] else [s[0]] + Sanitize(s[1..])
  }

  /** A match of the pattern at the very front of `s`: the index of its closing quote. */
  function FrontMatch(s: string): (j: Option<nat>)
    ensures j.Some? ==> 7 <= j.value && j.value + 2 <= |s|
  {
    if |s| >= 7 && s[..6] == "[text=" && IsQuote(s[6]) then CloseAt(s, 7, s[6]) else None
  }

  /** A quoted value with no newline and no quote of its own kind is closed by the quote that follows it. */
  lemma {:induction false} CloseAfterValue(s: string, i: nat, q: char, w: string)
    requires i + |w| + 1 < |s| && s[i..i + |w|] == w && s[i + |w|] == q && s[i + |w| + 1] == ']'
    requires forall k :: 0 <= k < |w| ==> w[k] != q && w[k] != '\n'
    ensures CloseAt(s, i, q) == Some(i + |w|)
    decreases |w|
  {
    if w != [] {
      assert s[i] == w[0];
      assert s[i + 1..i + 1 + |w[1..]|] == w[1..];
      CloseAfterValue(s, i + 1, q, w[1..]);
    }
  }

  /** `button[text='Save']` becomes `button:has-text('Save')`: one match rewritten, the rest sanitized in turn. */
  lemma SanitizeQuoted(q: char, w: string, rest: string)
    requires IsQuote(q)
    requires forall k :: 0 <= k < |w| ==> w[k] != q && w[k] != '\n'
    ensures Sanitize("[text=" + [q] + w + [q] + "]" + rest) == ":has-text(" + [q] + w + [q] + ")" + Sanitize(rest)
  {
    var s := "[text=" + [q] + w + [q] + "]" + rest;
    QuotedMatch(q, w, rest);
    SanitizeFront(s, 7 + |w|);
  }

  /** The front of `[text=<q><w><q>]<rest>` is one match, closed by the quote after `w`. */
  lemma QuotedMatch(q: char, w: string, rest: string)
    requires IsQuote(q)
    requires forall k :: 0 <= k < |w| ==> w[k] != q && w[k] != '\n'
    ensures var s := "[text=" + [q] + w + [q] + "]" + rest;
      FrontMatch(s) == Some(7 + |w|) && s[6..7 + |w| + 1] == [q] + w + [q] && s[7 + |w| + 2..] == rest
  {
    var s := "[text=" + [q] + w + [q] + "]" + rest;
    QuotedShape(q, w, rest);
    CloseAfterValue(s, 7, q, w);
  }

  /** Where the pieces of `[text=<q><w><q>]<rest>` sit. */
  lemma QuotedShape(q: char, w: string, rest: string)
    ensures var s := "[text=" + [q] + w + [q] + "]" + rest;
      |s| == |w| + 9 + |rest| && s[..6] == "[text=" && s[6] == q && s[7..7 + |w|] == w &&
      s[7 + |w|] == q && s[7 + |w| + 1] == ']' && s[6..7 + |w| + 1] == [q] + w + [q] && s[7 + |w| + 2..] == rest
  {
    var s := "[text=" + [q] + w + [q] + "]" + rest;
    assert s == "[text=" + ([q] + w + [q]) + ("]" + rest);
  }

  /** A match at the front is rewritten, and the text after it sanitized in turn. */
  lemma SanitizeFront(s: string, j: nat)
    requires FrontMatch(s) == Some(j)
    ensures Sanitize(s) == ":has-text(" + s[6..j + 1] + ")" + Sanitize(s[j + 2..])
  {
  }


  // ---------------------------------------------------------------------
  // The active modal (src/automation/ui_state_detector.py)

  const ModalSelectors: seq<string> := [
    "[role=\"dialog\"]", "[class*=\"modal\"]", "[class*=\"dialog\"]",
    "[aria-modal=\"true\"]", "div[style*=\"z-index\"][style*=\"fixed\"]"]

  /** The first of `selectors` whose first match is visible. */
  function FirstVisible(page: Page, time: nat, selectors: seq<string>): (r: Option<string>)
    ensures r.Some? ==> r.value in selectors && page.visible(time, r.value)
    ensures r.Some? ==> exists i :: 0 <= i < |selectors| && selectors[i] == r.value &&
                                  (forall j :: 0 <= j < i ==> !page.visible(time, selectors[j]))
    ensures r.None? <==> forall i :: 0 <= i < |selectors| ==> !page.visible(time, selectors[i])
  {
    if selectors == [] then None
    else if page.visible(time, selectors[0]) then Some(selectors[0])
    else
      var r := FirstVisible(page, time, selectors[1..]);
      assert r.Some? ==> selectors[1..][0..] == selectors[1..];
      r
  }

  /** `find_active_modal`: the first visible match among the five modal selectors, in order, or None. */
  function FindActiveModal(page: Page, time: nat): (r: Option<string>)
    ensures r.Some? ==> r.value in ModalSelectors && page.visible(time, r.value)
    ensures r.None? <==> forall i :: 0 <= i < |ModalSelectors| ==> !page.visible(time, ModalSelectors[i])
  {
    FirstVisible(page, time, ModalSelectors)
  }

  function ModalFirst(modal: Option<string>, rest: seq<Ctx>): (r: seq<Ctx>)
    ensures modal.Some? ==> r == [ModalCtx(modal.value)] + rest
    ensures modal.None? ==> r == rest
  {
    if modal.Some? then [ModalCtx(modal.value)] + rest else rest
  }

  // ---------------------------------------------------------------------
  // click

  const Roles: seq<string> := ["button", "link", "menuitem", "tab", "checkbox", "radio"]

  /** The overlay containers a raw selector is also tried in. The last one is malformed as written (an unmatched quote). */
  const Overlays: seq<string> := [
    "div[role='menu']", "div[data-radix-context-menu-content]", "div[class*='ContextMenuContent']",
    "div[data-portal-root]", "div[data-overlay-container']"]

  /** The variant set of a text target: as given, with `...` and `…` swapped either way, stripped, lower-cased, title-cased. */
  function Variants(text: string): set<string> {
    {text, Replace(text, "...", "\U{2026}"), Replace(text, "\U{2026}", "..."), Strip(text), Lower(text), Title(text)}
  }

  /** `order` lists the members of `s`, each once: the iteration order of a Python set. */
  predicate IsOrderOf(order: seq<string>, s: set<string>) {
    (forall i, j :: 0 <= i < j < |order| ==> order[i] != order[j]) &&
    (set x | x in order) == s
  }

  /** For one variant: every role in order, then exact text, fuzzy text and a generic container. */
  function VariantAttempts(name: string): (r: seq<Attempt>)
    ensures |r| == 9
  {
    seq(|Roles|, k requires 0 <= k < |Roles| => ClickRole(Roles[k], name)) +
    [ClickText(name, true), ClickText(name, false), ClickContainer(name)]
  }

  /** The text strategies of a click: one group of candidates per variant, in `order`. */
  function TextGroups(order: seq<string>): (r: seq<seq<Attempt>>)
    ensures |r| == |order|
  {
    seq(|order|, i requires 0 <= i < |order| => VariantAttempts(order[i]))
  }

  /** The contexts of a raw-selector click: the active modal if any, the page, the body, then the overlays. */
  function ClickContexts(modal: Option<string>): (r: seq<Ctx>)
    ensures |r| == (if modal.Some? then 8 else 7)
    ensures modal.Some? ==> r[0] == ModalCtx(modal.value)
    ensures modal.None? ==> r[0] == PageCtx
  {
    ModalFirst(modal, [PageCtx, Within("body")] + seq(|Overlays|, k requires 0 <= k < |Overlays| => Within(Overlays[k])))
  }

  /** One pass of the raw selector over every context. */
  function ClickPass(ctxs: seq<Ctx>, selector: string, force: bool): (r: seq<Attempt>)
    ensures |r| == |ctxs|
    ensures forall k :: 0 <= k < |r| ==> r[k] == ClickIn(ctxs[k], selector, force)
  {
    seq(|ctxs|, k requires 0 <= k < |ctxs| => ClickIn(ctxs[k], selector, force))
  }

  /** The raw-selector strategy: three ordinary passes, then one forced pass. */
  function RawGroups(ctxs: seq<Ctx>, selector: string): seq<seq<Attempt>> {
    var pass := ClickPass(ctxs, selector, false);
    [pass, pass, pass, ClickPass(ctxs, selector, true)]
  }

  /** The selector actually used: `[text='...']` filters rewritten. */
  function SanitizedSelector(s: string): string {
    if Contains(s, "[text=") then Sanitize(s) else s
  }

  /** The text target of a click selector, when it has a non-empty one. */
  function TextTarget(s: string): Option<string> {
    var t := ExtractText(Some(s));
    if t.Some? && t.value != "" then t else None
  }

  /** The candidate groups of a click, in the order tried: the text strategies when there is a text target, then the raw selector. */
  function ClickGroups(s: string, modal: Option<string>, order: seq<string>): seq<seq<Attempt>> {
    (if TextTarget(s).Some? then TextGroups(order) else []) + RawGroups(ClickContexts(modal), s)
  }

  /** `_do_click`. */
  function ClickReply(page: Page, time: nat, modal: Option<string>, selector: Option<string>, order: seq<string>): (r: Reply)
    ensures r.ok <==> r.error.None?
  {
    if !Given(selector) then Reply([], false, Some("Missing selector"))
    else
      var s := SanitizedSelector(selector.value);
      ClickWith(page, time, s, ClickGroups(s, modal, order))
  }

  /** A click on selector `s` that tries the candidate groups `groups`. */
  function ClickWith(page: Page, time: nat, s: string, groups: seq<seq<Attempt>>): (r: Reply)
    ensures r.ok <==> r.error.None?
  {
    var t := Run(page.works, time, Flatten(groups));
    Reply(t.made, t.ok, if t.ok then None else Some("Could not click " + s))
  }

  /** The variant order a click needs: an enumeration of the variant set when the selector has a text target. */
  predicate VariantOrder(selector: Option<string>, order: seq<string>) {
    Given(selector) ==>
      var t := TextTarget(SanitizedSelector(selector.value));
      t.Some? ==> IsOrderOf(order, Variants(t.value))
  }

  // ---------------------------------------------------------------------
  // right_click

  function RightClickContexts(modal: Option<string>): seq<Ctx> {
    ModalFirst(modal, [PageCtx, Within("body")])
  }

  function RightClickAttempts(ctxs: seq<Ctx>, s: string): (r: seq<Attempt>)
    ensures |r| == |ctxs|
    ensures forall k :: 0 <= k < |r| ==> r[k] == RightClickIn(ctxs[k], s)
  {
    seq(|ctxs|, k requires 0 <= k < |ctxs| => RightClickIn(ctxs[k], s))
  }

  /** `_do_right_click`. */
  function RightClickReply(page: Page, time: nat, modal: Option<string>, selector: Option<string>): (r: Reply)
    ensures r.ok <==> r.error.None?
  {
    if !Given(selector) then Reply([], false, Some("Missing selector"))
    else
      var t := Run(page.works, time, RightClickAttempts(RightClickContexts(modal), selector.value));
      Reply(t.made, t.ok, if t.ok then None else Some("Could not right-click " + selector.value))
  }

  // ---------------------------------------------------------------------
  // type

  /** The contexts of `type`: the active modal if any, then the page. */
  function TypeContexts(modal: Option<string>): (r: seq<Ctx>)
    ensures 1 <= |r| <= 2 && r[|r| - 1] == PageCtx
    ensures modal.Some? <==> |r| == 2
    ensures modal.Some? ==> r[0] == ModalCtx(modal.value)
  {
    ModalFirst(modal, [PageCtx])
  }

  /** A selector whose failed fill falls back to click-and-type. */
  predicate IsComplex(s: string) {
    Contains(s, "div") || Contains(s, "role='textbox'") || Contains(s, "contenteditable")
  }

  predicate IsLabelSelector(selector: Option<string>) {
    selector.Some? && StartsWith(selector.value, "label=")
  }

  /** The label named by an `aria-label=` selector: after the marker, quotes stripped, cut at `]`, quotes stripped again. */
  function AriaLabel(s: string): string
    requires Contains(s, "aria-label=")
  {
    var rest := StripQuotes(AfterFirst(s, "aria-label=").value);
    TrimBy(TrimBy(BeforeFirst(rest, "]"), c => c == '\''), c => c == '"')
  }

  const Placeholders: seq<string> := ["Name", "Project", "Title", "Subject"]

  /** The fallbacks of `type`, all in the first context: placeholders, the aria-label textbox, `input[value]`, any input. */
  function FallbackAttempts(primary: Ctx, selector: Option<string>, text: string): seq<Attempt> {
    seq(|Placeholders|, k requires 0 <= k < |Placeholders| =>
      FillFirst(primary, "input[placeholder*='" + Placeholders[k] + "' i]", text)) +
    (if selector.Some? && Contains(selector.value, "aria-label=") then [TextboxType(primary, AriaLabel(selector.value), text)] else []) +
    [FillFirst(primary, "input[value]", text), FillFirst(primary, "input, textarea", text)]
  }

  /** The fallbacks tried in order; failing all, "Could not type into S". */
  function Fallback(page: Page, time: nat, fallbacks: seq<Attempt>, selector: Option<string>): (r: Reply)
    ensures r.ok <==> r.error.None?
  {
    var t := Run(page.works, time, fallbacks);
    Reply(t.made, t.ok, if t.ok then None else Some("Could not type into " + Show(selector)))
  }

  /** The caption a `label=` selector names: after the first `=`, quotes stripped. */
  function LabelCaption(s: string): (r: string)
    requires StartsWith(s, "label=")
    ensures r == StripQuotes(s[6..])
  {
    ValueAfterEquals(s, "label=")
  }

  /** What `type` tries in each context, fixed by the selector: a fill by label, a fill on the selector (complex or not), or nothing. */
  datatype FillPlan = NoFill | ByLabel(caption: string) | BySelector(selector: string, complex: bool)

  function PlanFor(selector: Option<string>): (p: FillPlan)
    ensures p.NoFill? <==> !Given(selector)
    ensures p.ByLabel? <==> IsLabelSelector(selector)
    ensures p.ByLabel? ==> p.caption == StripQuotes(selector.value[6..])
    ensures p.BySelector? ==> p.selector == selector.value && (p.complex <==> IsComplex(selector.value))
  {
    if IsLabelSelector(selector) then ByLabel(LabelCaption(selector.value))
    else if Given(selector) then BySelector(selector.value, IsComplex(selector.value))
    else NoFill
  }

  /** The fill tried in context `ctx`. */
  function FillAt(ctx: Ctx, plan: FillPlan, text: string): (r: Option<Attempt>)
    ensures r.None? <==> plan.NoFill?
  {
    match plan
    case NoFill => None
    case ByLabel(caption) => Some(FillLabel(ctx, caption, text))
    case BySelector(s, _) => Some(Fill(ctx, s, text))
  }

  /** The prefix of the error a failed click-and-type reports. */
  const ClickTypeFailed := "Click-and-type failed: "

  /** How the per-context loop of `type` ends: it returned a reply, or it ran out of contexts after these fills. */
  datatype Pass = Done(reply: Reply) | Exhausted(fills: seq<Attempt>)
  {
    /** Every attempt the loop made. */
    function Made(): seq<Attempt> {
      if Done? then reply.made else fills
    }
  }

  /** A pass preceded by attempts made before it. */
  function Behind(earlier: seq<Attempt>, p: Pass): (p': Pass)
    ensures p'.Done? == p.Done? && p'.Made() == earlier + p.Made()
  {
    match p
    case Done(r) => Done(After(earlier, r))
    case Exhausted(m) => Exhausted(earlier + m)
  }

  /** The per-context loop of `type` from context `i` on. */
  function ContextPass(page: Page, time: nat, ctxs: seq<Ctx>, i: nat, plan: FillPlan, text: string): (p: Pass)
    requires i <= |ctxs|
    decreases |ctxs| - i
    ensures p.Done? ==> (p.reply.ok <==> p.reply.error.None?)
  {
    if i == |ctxs| then Exhausted([])
    else match FillAt(ctxs[i], plan, text)
      case None => ContextPass(page, time, ctxs, i + 1, plan, text)
      case Some(a) =>
        if page.works(time, a) then Done(Reply([a], true, None))
        else if plan.BySelector? && plan.complex then
          Done(After([a], Attempted(page, time + 1, ClickAndType(ctxs[i], plan.selector, text), ClickTypeFailed)))
        else Behind([a], ContextPass(page, time + 1, ctxs, i + 1, plan, text))
  }

  /** `_do_type`. */
  function TypeReply(page: Page, time: nat, modal: Option<string>, selector: Option<string>, value: Option<string>): (r: Reply)
    ensures r.ok <==> r.error.None?
  {
    if value.None? then Reply([], false, Some("Missing value for type"))
    else if selector == Some("focused") then
      Attempted(page, time, KeyboardType(value.value), "Failed to type into focused element: ")
    else
      var ctxs := TypeContexts(modal);
      TypeInContexts(page, time, ctxs, PlanFor(selector), value.value, FallbackAttempts(ctxs[0], selector, value.value), selector)
  }

  /** `_do_type` once the value is known and the selector is not `focused`: the contexts in turn, then the fallbacks. */
  function TypeInContexts(page: Page, time: nat, ctxs: seq<Ctx>, plan: FillPlan, text: string,
                          fallbacks: seq<Attempt>, selector: Option<string>): (r: Reply)
    ensures r.ok <==> r.error.None?
  {
    match ContextPass(page, time, ctxs, 0, plan, text)
    case Done(r) => r
    case Exhausted(m) => After(m, Fallback(page, time + |m|, fallbacks, selector))
  }

  /** The first context of a pass, case by case, as `FillOne` takes it. */
  lemma PassFirst(page: Page, time: nat, ctxs: seq<Ctx>, i: nat, plan: FillPlan, text: string)
    requires i < |ctxs|
    ensures var p := ContextPass(page, time, ctxs, i, plan, text);
      plan.NoFill? ==> p == Behind([], ContextPass(page, time, ctxs, i + 1, plan, text))
    ensures var p := ContextPass(page, time, ctxs, i, plan, text);
      var a := FillAt(ctxs[i], plan, text);
      a.Some? && page.works(time, a.value) ==> p == Done(Reply([a.value], true, None))
    ensures var p := ContextPass(page, time, ctxs, i, plan, text);
      var a := FillAt(ctxs[i], plan, text);
      a.Some? && !page.works(time, a.value) && plan.BySelector? && plan.complex ==>
        var c := ClickAndType(ctxs[i], plan.selector, text);
        p == Done(Reply([a.value, c], page.works(time + 1, c), if page.works(time + 1, c) then None else Some(ClickTypeFailed + page.failure(time + 1, c))))
    ensures var p := ContextPass(page, time, ctxs, i, plan, text);
      var a := FillAt(ctxs[i], plan, text);
      a.Some? && !page.works(time, a.value) && !(plan.BySelector? && plan.complex) ==>
        p == Behind([a.value], ContextPass(page, time + 1, ctxs, i + 1, plan, text))
  {
    if plan.NoFill? {
      BehindNothing(ContextPass(page, time, ctxs, i + 1, plan, text));
    }
  }

  /** Attempts made before attempts made before a pass. */
  lemma BehindBehind(a: seq<Attempt>, b: seq<Attempt>, p: Pass)
    ensures Behind(a, Behind(b, p)) == Behind(a + b, p)
  {
    AppendAssoc(a, b, p.Made());
  }

  lemma BehindNothing(p: Pass)
    ensures Behind([], p) == p
  {
    match p
    case Done(r) => assert [] + r.made == r.made;
    case Exhausted(m) => assert [] + m == m;
  }

  /** One more context of the loop: what it tried joins what came before. */
  lemma PassAdvance(goal: Pass, made: seq<Attempt>, tried: seq<Attempt>, here: Pass, next: Pass,
                    done: bool, ok: bool, error: Option<string>)
    requires goal == Behind(made, here)
    requires done ==> here == Done(Reply(tried, ok, error))
    requires !done ==> here == Behind(tried, next)
    ensures done ==> goal == Done(Reply(made + tried, ok, error))
    ensures !done ==> goal == Behind(made + tried, next)
  {
    if !done {
      BehindBehind(made, tried, next);
    }
  }

  /** When every context failed, `type` is those fills followed by the fallbacks. */
  lemma TypeInExhausted(page: Page, ctxs: seq<Ctx>, plan: FillPlan, text: string, fallbacks: seq<Attempt>, selector: Option<string>,
                        h0: seq<Attempt>, h1: seq<Attempt>, h2: seq<Attempt>, ok: bool, error: Option<string>)
    requires var p := ContextPass(page, |h0|, ctxs, 0, plan, text); p.Exhausted? && h1 == h0 + p.fills
    requires var f := Fallback(page, |h1|, fallbacks, selector); h2 == h1 + f.made && ok == f.ok && error == f.error
    ensures var r := TypeInContexts(page, |h0|, ctxs, plan, text, fallbacks, selector); h2 == h0 + r.made && ok == r.ok && error == r.error
  {
    var p := ContextPass(page, |h0|, ctxs, 0, plan, text);
    AppendAssoc(h0, p.fills, Fallback(page, |h1|, fallbacks, selector).made);
  }

  // ---------------------------------------------------------------------
  // navigate, press, wait_for

  /** `_do_navigate`: the URL is the step's `value`. */
  function NavigateReply(page: Page, time: nat, value: Option<string>): (r: Reply)
    ensures r.ok <==> r.error.None?
  {
    if !Given(value) then Reply([], false, Some("Missing URL for navigate"))
    else Attempted(page, time, Goto(value.value), "")
  }

  /** `_do_press`: on the selector's first match when one is given, else at keyboard focus. */
  function PressReply(page: Page, time: nat, selector: Option<string>, value: Option<string>): (r: Reply)
    ensures r.ok <==> r.error.None?
  {
    if !Given(value) then Reply([], false, Some("Missing key to press (value)"))
    else if Given(selector) then Attempted(page, time, PressOn(selector.value, value.value), "")
    else Attempted(page, time, PressKey(value.value), "")
  }

  /** The wait a `wait_for` selector asks for: a URL fragment, a page load, or an element. */
  function WaitAttempt(s: string): Attempt {
    if s == "url" || StartsWith(s, "url=") then
      var target := AfterFirst(s, "=");
      if target.Some? && target.value != "" then WaitUrl(target.value) else WaitLoad
    else WaitSelector(s)
  }

  /** `_do_wait_for`. */
  function WaitForReply(page: Page, time: nat, selector: Option<string>): (r: Reply)
    ensures r.ok <==> r.error.None?
  {
    if !Given(selector) then Reply([], false, Some("Missing selector for wait_for"))
    else Attempted(page, time, WaitAttempt(selector.value), "")
  }

  // ---------------------------------------------------------------------
  // run_step

  /** `run_step`: the reply of the handler the action names. */
  function StepReply(page: Page, time: nat, modal: Option<string>, step: ActionStep, order: seq<string>): (r: Reply)
    ensures r.ok <==> r.error.None?
  {
    var a := step.action;
    if a == "navigate" then NavigateReply(page, time, step.value)
    else if a == "click" then ClickReply(page, time, modal, step.selector, order)
    else if a == "right_click" then RightClickReply(page, time, modal, step.selector)
    else if a == "type" then TypeReply(page, time, modal, step.selector, step.value)
    else if a == "press" then PressReply(page, time, step.selector, step.value)
    else if a == "wait_for" then WaitForReply(page, time, step.selector)
    else if a == "wait_for_user" || a == "screenshot" then Reply([], true, None)
    else Reply([], false, Some("Unknown action: " + a))
  }

  /** The active modal after a step: cleared by a navigation, re-detected after a click or right-click, kept otherwise. */
  function ModalAfter(page: Page, time: nat, modal: Option<string>, action: string, ok: bool): Option<string> {
    if !ok then modal
    else if action == "navigate" then None
    else if action == "click" || action == "right_click" then FindActiveModal(page, time)
    else modal
  }

  // ---------------------------------------------------------------------
  // Properties of the step executor

  /** The actions `run_step` has a handler for. */
  const Handled: set<string> := {"navigate", "click", "right_click", "type", "press", "wait_for", "wait_for_user", "screenshot"}

  /**
   * The replies that come without touching the page: a missing required
   * field, `wait_for_user`, `screenshot` and an unknown action.
   */
  lemma FixedReplies(page: Page, time: nat, modal: Option<string>, step: ActionStep, order: seq<string>)
    ensures var r := StepReply(page, time, modal, step, order);
      var a := step.action;
      (a == "navigate" && !Given(step.value) ==> r == Reply([], false, Some("Missing URL for navigate"))) &&
      ((a == "click" || a == "right_click") && !Given(step.selector) ==> r == Reply([], false, Some("Missing selector"))) &&
      (a == "type" && step.value.None? ==> r == Reply([], false, Some("Missing value for type"))) &&
      (a == "press" && !Given(step.value) ==> r == Reply([], false, Some("Missing key to press (value)"))) &&
      (a == "wait_for" && !Given(step.selector) ==> r == Reply([], false, Some("Missing selector for wait_for"))) &&
      ((a == "wait_for_user" || a == "screenshot") ==> r == Reply([], true, None)) &&
      (a !in Handled ==> r == Reply([], false, Some("Unknown action: " + a)))
  {
  }

  /** The active modal changes only after a successful navigation, which clears it, or a successful click or right-click. */
  lemma ModalChanges(page: Page, time: nat, modal: Option<string>, action: string, ok: bool)
    ensures var m := ModalAfter(page, time, modal, action, ok);
      (m != modal ==> ok && (action == "navigate" || action == "click" || action == "right_click")) &&
      (ok && action == "navigate" ==> m.None?)
  {
  }

  /** Every candidate of a click with selector `selector`, in the order tried. */
  function ClickCandidates(selector: string, modal: Option<string>, order: seq<string>): seq<Attempt> {
    Flatten(ClickGroups(SanitizedSelector(selector), modal, order))
  }

  /**
   * A click tries its candidates in order and stops at the first that works;
   * when none works it has tried them all and reports the sanitized selector.
   */
  lemma ClickStopsAtFirstSuccess(page: Page, time: nat, modal: Option<string>, selector: Option<string>, order: seq<string>)
    requires Given(selector)
    ensures var r := ClickReply(page, time, modal, selector, order);
      var all := ClickCandidates(selector.value, modal, order);
      |r.made| <= |all| && r.made == all[..|r.made|] &&
      (forall k :: 0 <= k < |r.made| ==> (page.works(time + k, r.made[k]) <==> r.ok && k == |r.made| - 1)) &&
      (!r.ok ==> r.made == all && r.error == Some("Could not click " + SanitizedSelector(selector.value)))
  {
    var all := ClickCandidates(selector.value, modal, order);
    RunPrefix(page.works, time, all);
    forall k | 0 <= k < |Run(page.works, time, all).made|
      ensures var t := Run(page.works, time, all); page.works(time + k, t.made[k]) <==> t.ok && k == |t.made| - 1
    {
      RunFirstSuccess(page.works, time, all, k);
    }
  }

  /** The text candidates: variant `order[i]` occupies positions `9 * i` to `9 * i + 8`, roles first. */
  lemma TextCandidates(order: seq<string>, i: nat)
    requires i < |order|
    ensures var all := Flatten(TextGroups(order));
      |all| == 9 * |order| && all[9 * i..9 * i + 9] == VariantAttempts(order[i])
  {
    var g := TextGroups(order);
    FlattenUniform(g, 9);
    FlattenUniform(g[..i], 9);
    FlattenSplit(g, i);
  }

  /** The raw-selector candidates: three ordinary passes over the contexts, then one forced pass. */
  lemma RawPasses(ctxs: seq<Ctx>, s: string)
    ensures var plain := ClickPass(ctxs, s, false);
      Flatten(RawGroups(ctxs, s)) == plain + plain + plain + ClickPass(ctxs, s, true)
  {
    var g := RawGroups(ctxs, s);
    assert g[..0] == [];
    FlattenSnoc(g, 0);
    FlattenSnoc(g, 1);
    FlattenSnoc(g, 2);
    FlattenSnoc(g, 3);
    assert g[..4] == g;
  }

  /** A sequence without repetitions has as many members as elements. */
  lemma {:induction false} DistinctCount(order: seq<string>)
    requires forall i, j :: 0 <= i < j < |order| ==> order[i] != order[j]
    ensures |set x | x in order| == |order|
    decreases |order|
  {
    if order != [] {
      var m := |order| - 1;
      DistinctCount(order[..m]);
      assert (set x | x in order) == (set x | x in order[..m]) + {order[m]};
      assert order[m] !in (set x | x in order[..m]);
    }
  }

  /** The iteration order of the variant set has at most six entries. */
  lemma VariantCount(order: seq<string>, t: string)
    requires IsOrderOf(order, Variants(t))
    ensures |order| <= 6
  {
    DistinctCount(order);
  }

  /** How many candidates a click has: 9 per variant when there is a text target, then 4 per context. */
  lemma ClickCandidateCount(selector: string, modal: Option<string>, order: seq<string>)
    ensures var s := SanitizedSelector(selector);
      |ClickCandidates(selector, modal, order)| == (if TextTarget(s).Some? then 9 * |order| else 0) + 4 * |ClickContexts(modal)|
  {
    var s := SanitizedSelector(selector);
    GroupsCount(TextTarget(s).Some?, order, ClickContexts(modal), s);
  }

  /** The candidate count of `ClickGroups`, for either choice of the text strategies. */
  lemma GroupsCount(viaText: bool, order: seq<string>, ctxs: seq<Ctx>, s: string)
    ensures |Flatten((if viaText then TextGroups(order) else []) + RawGroups(ctxs, s))| == (if viaText then 9 * |order| else 0) + 4 * |ctxs|
  {
    var text := if viaText then TextGroups(order) else [];
    var raw := RawGroups(ctxs, s);
    FlattenAppend(text, raw);
    FlattenUniform(raw, |ctxs|);
    FlattenUniform(text, 9);
  }

  /** A click makes at most 86 attempts: 9 for each of at most 6 variants, then 4 passes over at most 8 contexts. */
  lemma ClickAttemptBound(page: Page, time: nat, modal: Option<string>, selector: Option<string>, order: seq<string>)
    requires VariantOrder(selector, order)
    ensures |ClickReply(page, time, modal, selector, order).made| <= 86
  {
    if Given(selector) {
      ClickStopsAtFirstSuccess(page, time, modal, selector, order);
      ClickCandidateCount(selector.value, modal, order);
      var t := TextTarget(SanitizedSelector(selector.value));
      if t.Some? {
        VariantCount(order, t.value);
      }
    }
  }

  /** The fills the per-context loop of `type` tries, one per context, for a plan that has them. */
  function Fills(ctxs: seq<Ctx>, plan: FillPlan, text: string): (r: seq<Attempt>)
    ensures |r| == if plan.NoFill? then 0 else |ctxs|
  {
    if plan.NoFill? || ctxs == [] then [] else [FillAt(ctxs[0], plan, text).value] + Fills(ctxs[1..], plan, text)
  }

  /** Trying one candidate, then the rest: a pass that starts with a plain fill. */
  lemma RunCons(works: (nat, Attempt) -> bool, time: nat, a: Attempt, rest: seq<Attempt>)
    ensures var t := Run(works, time + 1, rest);
      Run(works, time, [a] + rest) == if works(time, a) then Trial([a], true) else Trial([a] + t.made, t.ok)
  {
    RunConcat(works, time, [a], rest);
    RunSnoc(works, time, [], a);
    assert [] + [a] == [a];
  }

  /** Without the click-and-type fallback, the per-context loop is a plain trial of the fills. */
  lemma {:induction false} ContextPassRuns(page: Page, time: nat, ctxs: seq<Ctx>, i: nat, plan: FillPlan, text: string)
    requires i <= |ctxs|
    requires !(plan.BySelector? && plan.complex)
    ensures var t := Run(page.works, time, Fills(ctxs[i..], plan, text));
      ContextPass(page, time, ctxs, i, plan, text) == if t.ok then Done(Reply(t.made, true, None)) else Exhausted(t.made)
    decreases |ctxs| - i
  {
    if i < |ctxs| {
      if plan.NoFill? {
        ContextPassRuns(page, time, ctxs, i + 1, plan, text);
      } else {
        var a := FillAt(ctxs[i], plan, text).value;
        var rest := Fills(ctxs[i + 1..], plan, text);
        assert ctxs[i..][1..] == ctxs[i + 1..];
        assert Fills(ctxs[i..], plan, text) == [a] + rest;
        ContextPassRuns(page, time + 1, ctxs, i + 1, plan, text);
        RunCons(page.works, time, a, rest);
      }
    }
  }

  /** A pass of plain fills followed, when it is exhausted, by a trial of `more`: one trial of the fills and `more`. */
  lemma PassThenRun(page: Page, time: nat, ctxs: seq<Ctx>, plan: FillPlan, text: string, more: seq<Attempt>)
    requires !(plan.BySelector? && plan.complex)
    ensures var t := Run(page.works, time, Fills(ctxs, plan, text) + more);
      match ContextPass(page, time, ctxs, 0, plan, text)
      case Done(r) => r == Reply(t.made, true, None) && t.ok
      case Exhausted(m) => var u := Run(page.works, time + |m|, more); t == Trial(m + u.made, u.ok)
  {
    assert ctxs[0..] == ctxs;
    ContextPassRuns(page, time, ctxs, 0, plan, text);
    RunConcat(page.works, time, Fills(ctxs, plan, text), more);
  }

  /** The contexts and then the fallbacks, for a plan without the click-and-type fallback, as one trial. */
  lemma TypeInContextsRuns(page: Page, time: nat, ctxs: seq<Ctx>, plan: FillPlan, text: string,
                           fallbacks: seq<Attempt>, selector: Option<string>)
    requires !(plan.BySelector? && plan.complex)
    ensures var t := Run(page.works, time, Fills(ctxs, plan, text) + fallbacks);
      TypeInContexts(page, time, ctxs, plan, text, fallbacks, selector)
        == Reply(t.made, t.ok, if t.ok then None else Some("Could not type into " + Show(selector)))
  {
    PassThenRun(page, time, ctxs, plan, text, fallbacks);
  }

  /**
   * `type` on a selector that is not complex: the fill in each context, then
   * the fallbacks (placeholders, the aria-label textbox, `input[value]`, any
   * input), up to the first that works; failing all, "Could not type into S".
   */
  lemma TypeTriesInOrder(page: Page, time: nat, modal: Option<string>, selector: Option<string>, value: Option<string>)
    requires value.Some? && selector != Some("focused")
    requires !(PlanFor(selector).BySelector? && PlanFor(selector).complex)
    ensures var ctxs := TypeContexts(modal);
      var all := Fills(ctxs, PlanFor(selector), value.value) + FallbackAttempts(ctxs[0], selector, value.value);
      var t := Run(page.works, time, all);
      TypeReply(page, time, modal, selector, value) == Reply(t.made, t.ok, if t.ok then None else Some("Could not type into " + Show(selector)))
  {
    var ctxs := TypeContexts(modal);
    TypeInContextsRuns(page, time, ctxs, PlanFor(selector), value.value, FallbackAttempts(ctxs[0], selector, value.value), selector);
  }

  /**
   * `type` on a complex selector: a failed fill in the first context returns
   * the click-and-type result at once, with no other context and no fallback.
   */
  lemma ComplexTypeStops(page: Page, time: nat, modal: Option<string>, selector: Option<string>, value: Option<string>)
    requires value.Some? && selector != Some("focused")
    requires Given(selector) && !IsLabelSelector(selector) && IsComplex(selector.value)
    ensures var c := TypeContexts(modal)[0];
      var fill := Fill(c, selector.value, value.value);
      TypeReply(page, time, modal, selector, value) ==
        if page.works(time, fill) then Reply([fill], true, None)
        else After([fill], Attempted(page, time + 1, ClickAndType(c, selector.value, value.value), "Click-and-type failed: "))
  {
  }

  /** `type` makes at most 9 attempts: a fill in each of at most 2 contexts, then at most 7 fallbacks. */
  lemma TypeAttemptBound(page: Page, time: nat, modal: Option<string>, selector: Option<string>, value: Option<string>)
    ensures |TypeReply(page, time, modal, selector, value).made| <= 9
  {
    if value.Some? && selector != Some("focused") {
      var plan := PlanFor(selector);
      if plan.BySelector? && plan.complex {
        ComplexTypeStops(page, time, modal, selector, value);
      } else {
        TypeTriesInOrder(page, time, modal, selector, value);
        var ctxs := TypeContexts(modal);
        RunPrefix(page.works, time, Fills(ctxs, plan, value.value) + FallbackAttempts(ctxs[0], selector, value.value));
      }
    }
  }

  // ---------------------------------------------------------------------
  // The engine

  class ActionEngine {
    const page: Page
    /** `active_modal`: the selector of the modal dialog clicks are scoped to first. */
    var activeModal: Option<string>
    /** Every call made into the page, in order: the page state the oracle answers from. */
    var history: seq<Attempt>

    constructor (page: Page)
      ensures this.page == page && activeModal.None? && history == []
    {
      this.page := page;
      activeModal := None;
      history := [];
    }

    /** One call into the page: its outcome is the oracle's answer after the calls made so far. */
    method Perform(a: Attempt) returns (failure: Option<string>)
      modifies this
      ensures failure == if page.works(|old(history)|, a) then None else Some(page.failure(|old(history)|, a))
      ensures history == old(history) + [a] && activeModal == old(activeModal)
    {
      failure := if page.works(|history|, a) then None else Some(page.failure(|history|, a));
      history := history + [a];
    }

    /** Tries `attempts` in order until one succeeds. */
    method TryAll(attempts: seq<Attempt>) returns (ok: bool)
      modifies this
      ensures history == old(history) + Run(page.works, |old(history)|, attempts).made
      ensures ok == Run(page.works, |old(history)|, attempts).ok
      ensures activeModal == old(activeModal)
    {
      var i := 0;
      while i < |attempts|
        invariant 0 <= i <= |attempts|
        invariant history == old(history) + attempts[..i]
        invariant forall j :: 0 <= j < i ==> !page.works(|old(history)| + j, attempts[j])
        invariant activeModal == old(activeModal)
      {
        var failure := Perform(attempts[i]);
        assert attempts[..i] + [attempts[i]] == attempts[..i + 1];
        if failure.None? {
          FirstIs(page.works, |old(history)|, attempts, Some(i));
          return true;
        }
        i := i + 1;
      }
      FirstIs(page.works, |old(history)|, attempts, None);
      assert attempts[..i] == attempts;
      return false;
    }

    /** Tries the candidates group after group until one succeeds. */
    method TryGroups(groups: seq<seq<Attempt>>) returns (ok: bool)
      modifies this
      ensures history == old(history) + Run(page.works, |old(history)|, Flatten(groups)).made
      ensures ok == Run(page.works, |old(history)|, Flatten(groups)).ok
      ensures activeModal == old(activeModal)
    {
      for i := 0 to |groups|
        invariant history == old(history) + Flatten(groups[..i])
        invariant !Run(page.works, |old(history)|, Flatten(groups[..i])).ok
        invariant activeModal == old(activeModal)
      {
        GroupAdvance(page.works, |old(history)|, groups, i);
        ok := TryAll(groups[i]);
        AppendAssoc(old(history), Flatten(groups[..i]), Run(page.works, |old(history)| + |Flatten(groups[..i])|, groups[i]).made);
        if ok {
          return;
        }
      }
      assert groups[..|groups|] == groups;
      ok := false;
    }

    /** Tries the groups `g`, then, if none of their attempts worked, the groups `h`. */
    method TryGroupsThen(g: seq<seq<Attempt>>, h: seq<seq<Attempt>>) returns (ok: bool)
      modifies this
      ensures history == old(history) + Run(page.works, |old(history)|, Flatten(g + h)).made
      ensures ok == Run(page.works, |old(history)|, Flatten(g + h)).ok
      ensures activeModal == old(activeModal)
    {
      RunGroupsConcat(page.works, |history|, g, h);
      ok := TryGroups(g);
      if !ok {
        ghost var h1 := history;
        ok := TryGroups(h);
        AppendAssoc(old(history), Flatten(g), Run(page.works, |h1|, Flatten(h)).made);
      }
    }

    /** `_do_click`: the text strategies, then the raw selector; a successful click re-detects the active modal. */
    method Click(selector: Option<string>, order: seq<string>) returns (ok: bool, error: Option<string>)
      requires VariantOrder(selector, order)
      modifies this
      ensures var r := ClickReply(page, |old(history)|, old(activeModal), selector, order);
        history == old(history) + r.made && ok == r.ok && error == r.error
      ensures activeModal == if ok then FindActiveModal(page, |history|) else old(activeModal)
    {
      if !Given(selector) {
        return false, Some("Missing selector");
      }
      var s := selector.value;
      if Contains(s, "[text=") {
        s := Sanitize(s);
      }
      ghost var t0 := |history|;
      ghost var groups := ClickGroups(s, activeModal, order);
      assert ClickReply(page, t0, activeModal, selector, order) == ClickWith(page, t0, s, groups);
      var viaText: seq<seq<Attempt>> := [];
      if TextTarget(s).Some? {
        viaText := TextGroups(order);
      }
      var raw := RawGroups(ClickContexts(activeModal), s);
      assert groups == viaText + raw;
      ok := TryGroupsThen(viaText, raw);
      if ok {
        activeModal := FindActiveModal(page, |history|);
        return true, None;
      }
      return false, Some("Could not click " + s);
    }

    /** `_do_right_click`: a successful right-click re-detects the active modal. */
    method RightClick(selector: Option<string>) returns (ok: bool, error: Option<string>)
      modifies this
      ensures var r := RightClickReply(page, |old(history)|, old(activeModal), selector);
        history == old(history) + r.made && ok == r.ok && error == r.error
      ensures activeModal == if ok then FindActiveModal(page, |history|) else old(activeModal)
    {
      if !Given(selector) {
        return false, Some("Missing selector");
      }
      var s := selector.value;
      ok := TryAll(RightClickAttempts(RightClickContexts(activeModal), s));
      if ok {
        activeModal := FindActiveModal(page, |history|);
        return true, None;
      }
      return false, Some("Could not right-click " + s);
    }

    /** `_do_type` together with `_click_and_type`. */
    method TypeInto(selector: Option<string>, value: Option<string>) returns (ok: bool, error: Option<string>)
      modifies this
      ensures var r := TypeReply(page, |old(history)|, old(activeModal), selector, value);
        history == old(history) + r.made && ok == r.ok && error == r.error
      ensures activeModal == old(activeModal)
    {
      if value.None? {
        return false, Some("Missing value for type");
      }
      var text := value.value;
      if selector == Some("focused") {
        var failure := Perform(KeyboardType(text));
        if failure.None? {
          return true, None;
        }
        return false, Some("Failed to type into focused element: " + failure.value);
      }
      ok, error := TypeIn(TypeContexts(activeModal), selector, text);
    }

    /** The contexts in turn, then the fallbacks. */
    method TypeIn(contexts: seq<Ctx>, selector: Option<string>, text: string) returns (ok: bool, error: Option<string>)
      requires 1 <= |contexts|
      modifies this
      ensures var r := TypeInContexts(page, |old(history)|, contexts, PlanFor(selector), text, FallbackAttempts(contexts[0], selector, text), selector);
        history == old(history) + r.made && ok == r.ok && error == r.error
      ensures activeModal == old(activeModal)
    {
      var plan := PlanFor(selector);
      var done;
      done, ok, error := FillFrom(contexts, plan, text);
      if !done {
        ghost var h1 := history;
        ok, error := FallBack(contexts[0], selector, text);
        TypeInExhausted(page, contexts, plan, text, FallbackAttempts(contexts[0], selector, text), selector, old(history), h1, history, ok, error);
      }
    }

    /** One pass of the per-context loop of `_do_type`: `done` when it returns from `_do_type`. */
    method FillOne(contexts: seq<Ctx>, i: nat, plan: FillPlan, text: string)
      returns (done: bool, ok: bool, error: Option<string>, ghost tried: seq<Attempt>)
      requires i < |contexts|
      modifies this
      ensures history == old(history) + tried
      ensures var p := ContextPass(page, |old(history)|, contexts, i, plan, text);
        (done ==> p == Done(Reply(tried, ok, error))) &&
        (!done ==> p == Behind(tried, ContextPass(page, |history|, contexts, i + 1, plan, text)))
      ensures activeModal == old(activeModal)
    {
      PassFirst(page, |history|, contexts, i, plan, text);
      tried := [];
      done, ok, error := false, false, None;
      var next := FillAt(contexts[i], plan, text);
      if next.Some? {
        var a := next.value;
        var failure := Perform(a);
        tried := [a];
        if failure.None? {
          return true, true, None, tried;
        }
        if plan.BySelector? && plan.complex {
          var c := ClickAndType(contexts[i], plan.selector, text);
          failure := Perform(c);
          tried := [a, c];
          if failure.None? {
            return true, true, None, tried;
          }
          return true, false, Some(ClickTypeFailed + failure.value), tried;
        }
      }
    }

    /** The per-context loop of `_do_type` over `contexts`; `done` when it returned a reply. */
    method FillFrom(contexts: seq<Ctx>, plan: FillPlan, text: string) returns (done: bool, ok: bool, error: Option<string>)
      modifies this
      ensures var p := ContextPass(page, |old(history)|, contexts, 0, plan, text);
        history == old(history) + p.Made() && done == p.Done? && (done ==> ok == p.reply.ok && error == p.reply.error)
      ensures activeModal == old(activeModal)
    {
      ghost var goal := ContextPass(page, |history|, contexts, 0, plan, text);
      ghost var made: seq<Attempt> := [];
      done, ok, error := false, false, None;
      BehindNothing(goal);
      var i := 0;
      while i < |contexts| && !done
        invariant 0 <= i <= |contexts|
        invariant history == old(history) + made
        invariant activeModal == old(activeModal)
        invariant done ==> goal == Done(Reply(made, ok, error))
        invariant !done ==> goal == Behind(made, ContextPass(page, |history|, contexts, i, plan, text))
      {
        ghost var here := ContextPass(page, |history|, contexts, i, plan, text);
        ghost var tried;
        done, ok, error, tried := FillOne(contexts, i, plan, text);
        AppendAssoc(old(history), made, tried);
        PassAdvance(goal, made, tried, here, ContextPass(page, |history|, contexts, i + 1, plan, text), done, ok, error);
        made := made + tried;
        i := i + 1;
      }
    }

    /** The fallbacks of `_do_type`, tried in the first context. */
    method FallBack(primary: Ctx, selector: Option<string>, text: string) returns (ok: bool, error: Option<string>)
      modifies this
      ensures var r := Fallback(page, |old(history)|, FallbackAttempts(primary, selector, text), selector);
        history == old(history) + r.made && ok == r.ok && error == r.error
      ensures activeModal == old(activeModal)
    {
      ok := TryAll(FallbackAttempts(primary, selector, text));
      error := if ok then None else Some("Could not type into " + Show(selector));
    }

    /** One attempt whose exception message is the error. */
    method Single(a: Attempt) returns (ok: bool, error: Option<string>)
      modifies this
      ensures var r := Attempted(page, |old(history)|, a, "");
        history == old(history) + r.made && ok == r.ok && error == r.error
      ensures activeModal == old(activeModal)
    {
      var failure := Perform(a);
      ok := failure.None?;
      error := failure;
      if failure.Some? {
        assert "" + failure.value == failure.value;
      }
    }

    /** `_do_navigate`: a successful navigation clears the active modal. */
    method Navigate(value: Option<string>) returns (ok: bool, error: Option<string>)
      modifies this
      ensures var r := NavigateReply(page, |old(history)|, value);
        history == old(history) + r.made && ok == r.ok && error == r.error
      ensures activeModal == if ok then None else old(activeModal)
    {
      if !Given(value) {
        return false, Some("Missing URL for navigate");
      }
      ok, error := Single(Goto(value.value));
      if ok {
        activeModal := None;
      }
    }

    /** `_do_press`. */
    method Press(selector: Option<string>, value: Option<string>) returns (ok: bool, error: Option<string>)
      modifies this
      ensures var r := PressReply(page, |old(history)|, selector, value);
        history == old(history) + r.made && ok == r.ok && error == r.error
      ensures activeModal == old(activeModal)
    {
      if !Given(value) {
        return false, Some("Missing key to press (value)");
      }
      if Given(selector) {
        ok, error := Single(PressOn(selector.value, value.value));
      } else {
        ok, error := Single(PressKey(value.value));
      }
    }

    /** `_do_wait_for`. */
    method WaitFor(selector: Option<string>) returns (ok: bool, error: Option<string>)
      modifies this
      ensures var r := WaitForReply(page, |old(history)|, selector);
        history == old(history) + r.made && ok == r.ok && error == r.error
      ensures activeModal == old(activeModal)
    {
      if !Given(selector) {
        return false, Some("Missing selector for wait_for");
      }
      ok, error := Single(WaitAttempt(selector.value));
    }

    /** `run_step`: dispatch on the action; `order` is the iteration order of a click's variant set. */
    method RunStep(step: ActionStep, order: seq<string>) returns (ok: bool, error: Option<string>)
      requires step.action == "click" ==> VariantOrder(step.selector, order)
      modifies this
      ensures var r := StepReply(page, |old(history)|, old(activeModal), step, order);
        history == old(history) + r.made && ok == r.ok && error == r.error
      ensures activeModal == ModalAfter(page, |history|, old(activeModal), step.action, ok)
    {
      var a := step.action;
      if a == "navigate" {
        ok, error := Navigate(step.value);
      } else if a == "click" {
        ok, error := Click(step.selector, order);
      } else if a == "right_click" {
        ok, error := RightClick(step.selector);
      } else if a == "type" {
        ok, error := TypeInto(step.selector, step.value);
      } else if a == "press" {
        ok, error := Press(step.selector, step.value);
      } else if a == "wait_for" {
        ok, error := WaitFor(step.selector);
      } else if a == "wait_for_user" || a == "screenshot" {
        ok, error := true, None;
      } else {
        ok, error := false, Some("Unknown action: " + a);
      }
    }
  }
}
