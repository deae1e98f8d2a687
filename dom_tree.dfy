/**
 * src/automation/dom_tree.py: the script the agent injects to list a page's
 * interesting elements, one line each, and the Python wrapper that truncates
 * the listing or turns an evaluation failure into text.
 *
 * The DOM is a flat sequence of nodes in document order. Each node names the
 * index of its parent element (-1 for the document element), and a parent
 * always comes before its children. Layout facts the browser computes
 * (`isVisible`, `innerText`) are fields of each element.
 */
module DomTree {
  import opened Wrappers
  import opened Text

  /** An element, with the attributes the script reads ("" when absent), or a text node. */
  datatype Node =
    | Element(parent: int, tag: string, role: string, ariaLabel: string, placeholder: string,
              name: string, id: string, kind: string, href: string, editable: string,
              classes: string, ariaModal: string, style: string, onclick: bool,
              visible: bool, innerText: string)
    | TextNode(parent: int, content: string)

  type Dom = seq<Node>

  /** Parents come before their children. */
  predicate WellFormed(d: Dom) {
    forall k :: 0 <= k < |d| ==> -1 <= d[k].parent < k
  }

  /** A page: its nodes and the index of `document.body`. */
  datatype Document = Document(nodes: Dom, body: nat)

  predicate WellFormedDocument(doc: Document) {
    WellFormed(doc.nodes) && doc.body < |doc.nodes| && doc.nodes[doc.body].Element?
  }

  // ---------------------------------------------------------------------------
  // Tree shape

  /** `k` is `j` itself or one of its ancestors. */
  predicate Within(d: Dom, j: nat, k: nat)
    requires j < |d|
    decreases j
  {
    j == k || (var p := d[j].parent; 0 <= p < j && Within(d, p, k))
  }

  /** `j` is a proper descendant of `i`. */
  predicate Below(d: Dom, j: nat, i: nat)
    requires j < |d|
  {
    j != i && Within(d, j, i)
  }

  /** `k` lies strictly between the root `r` and `j`: an ancestor of `j` that is below `r`. */
  predicate Between(d: Dom, r: nat, k: nat, j: nat)
    requires j < |d|
    decreases j
  {
    var p := d[j].parent;
    0 <= p < j && p != r && (p == k || Between(d, r, k, p))
  }

  // ---------------------------------------------------------------------------
  // isInteresting

  const ControlTags: set<string> := {"a", "button", "input", "textarea", "select", "details", "summary"}
  const ControlRoles: set<string> :=
    {"button", "link", "checkbox", "menuitem", "tab", "textbox", "combobox", "listbox", "dialog"}

  predicate IsHeadingTag(tag: string) {
    |tag| == 2 && tag[0] == 'h' && '1' <= tag[1] <= '6'
  }

  /** `isInteresting`: interactive tags and roles, editable content, headings, labels, click handlers and button-like divs. */
  predicate Interesting(e: Node)
    requires e.Element?
  {
    e.tag in ControlTags || e.role in ControlRoles || e.editable == "true"
    || IsHeadingTag(e.tag) || e.tag == "label" || e.onclick
    || (e.tag == "div" && (e.role == "button" || Contains(e.classes, "btn") || Contains(e.classes, "button")))
  }

  /** Links and buttons: their descendants are not listed once they are. */
  predicate LinkOrButton(e: Node) {
    e.Element? && (e.tag == "a" || e.tag == "button")
  }

  // ---------------------------------------------------------------------------
  // The walk, as a specification

  /**
   * The element walker rooted at `r` visits `j`: `j` is a visible element
   * below `r` and so is every element between them (a rejected element
   * takes its whole subtree with it).
   */
  predicate Reached(d: Dom, r: nat, j: nat)
    requires j < |d|
    decreases j
  {
    d[j].Element? && d[j].visible &&
    var p := d[j].parent; 0 <= p < j && (p == r || Reached(d, r, p))
  }

  /** `j` is listed: visited, interesting, and not inside a listed link or button. */
  predicate Emits(d: Dom, r: nat, j: nat)
    requires j < |d|
    decreases j, 1
  {
    Reached(d, r, j) && !Covered(d, r, j) && Interesting(d[j])
  }

  /** Some element strictly between `r` and `j` is a listed link or button. */
  predicate Covered(d: Dom, r: nat, j: nat)
    requires j < |d|
    decreases j, 0
  {
    var p := d[j].parent;
    0 <= p < j && p != r && ((Emits(d, r, p) && LinkOrButton(d[p])) || Covered(d, r, p))
  }

  /** The nodes the walk rooted at `r` lists among those before index `n`, in document order. */
  function Listed(d: Dom, r: nat, n: nat): (ks: seq<nat>)
    requires n <= |d|
    decreases n
  {
    if n <= r + 1 then []
    else Listed(d, r, n - 1) + (if Emits(d, r, n - 1) then [n - 1] else [])
  }

  /** The listed nodes come after the root and before `n`, each of them emitted, in increasing order. */
  lemma {:induction false} ListedShape(d: Dom, r: nat, n: nat)
    requires n <= |d|
    decreases n
    ensures forall m :: 0 <= m < |Listed(d, r, n)| ==> r < Listed(d, r, n)[m] < n && Emits(d, r, Listed(d, r, n)[m])
    ensures forall m, m' :: 0 <= m < m' < |Listed(d, r, n)| ==> Listed(d, r, n)[m] < Listed(d, r, n)[m']
  {
    if n > r + 1 {
      ListedShape(d, r, n - 1);
      var prev := Listed(d, r, n - 1);
      var ks := Listed(d, r, n);
      assert ks == prev + (if Emits(d, r, n - 1) then [n - 1] else []);
      forall m | 0 <= m < |ks|
        ensures r < ks[m] < n && Emits(d, r, ks[m])
      {
        if m < |prev| {
          assert ks[m] == prev[m];
        }
      }
      forall m, m' | 0 <= m < m' < |ks|
        ensures ks[m] < ks[m']
      {
        if m' < |prev| {
          assert ks[m] == prev[m] && ks[m'] == prev[m'];
        } else {
          assert ks[m] == prev[m];
        }
      }
    }
  }

  /** The line of element `k`; any other index has none. */
  function LineAt(d: Dom, k: nat): string {
    if k < |d| && d[k].Element? then Line(d[k], SafeText(d, k)) else ""
  }

  /** A sequence with the line of each listed node at its place is `Lines`. */
  lemma LinesAre(d: Dom, ks: seq<nat>, lines: seq<string>)
    requires |lines| == |ks| && forall m :: 0 <= m < |ks| ==> lines[m] == LineAt(d, ks[m])
    ensures lines == Lines(d, ks)
  {
  }

  lemma LinesPointwise(d: Dom, ks: seq<nat>, lines: seq<string>)
    requires lines == Lines(d, ks)
    ensures |lines| == |ks| && forall m :: 0 <= m < |ks| ==> lines[m] == LineAt(d, ks[m])
  {
  }

  /** One line per listed node. */
  function Lines(d: Dom, ks: seq<nat>): (lines: seq<string>)
    ensures |lines| == |ks|
  {
    seq(|ks|, m requires 0 <= m < |ks| => LineAt(d, ks[m]))
  }

  // ---------------------------------------------------------------------------
  // getSafeText

  /** `isTimestamp`: digits, optional whitespace, then one of the units, once trimmed. */
  predicate IsTimestamp(str: string) {
    var s := Trim(str);
    var k := LeadingCount(s, IsDigit);
    k >= 1 && s[k..][LeadingCount(s[k..], IsJsSpace)..] in {"min", "h", "d", "w", "mo", "y"}
  }

  /** `isPrefix`: a bare generic word, trimmed and lower-cased. */
  predicate IsGenericPrefix(str: string) {
    Lower(Trim(str)) in {"project", "issue", "doc", "document"}
  }

  /** A trimmed text the link-or-button strategies accept. */
  predicate Kept(trimmed: string) {
    trimmed != "" && !IsTimestamp(trimmed) && !IsGenericPrefix(trimmed)
  }

  const Semantic: seq<string> := ["strong", "b", "em", "h1", "h2", "h3", "h4", "h5", "h6"]

  predicate Tagged(d: Dom, i: nat, tag: string, k: nat)
    requires k < |d|
  {
    d[k].Element? && d[k].tag == tag && Below(d, k, i)
  }

  /** `querySelector(tag)` on element `i`: the first descendant with that tag, scanning from `from`. */
  function FirstTagged(d: Dom, i: nat, tag: string, from: nat): (r: Option<nat>)
    decreases |d| - from
    ensures r.Some? ==> from <= r.value < |d| && Tagged(d, i, tag, r.value)
    ensures r.Some? ==> forall k :: from <= k < r.value ==> !Tagged(d, i, tag, k)
    ensures r.None? ==> forall k :: from <= k < |d| ==> !Tagged(d, i, tag, k)
  {
    if from >= |d| then None
    else if Tagged(d, i, tag, from) then Some(from)
    else FirstTagged(d, i, tag, from + 1)
  }

  /** Strategy 1: the trimmed `innerText` of the first semantic element found, in the order of `sels`. */
  function SemanticText(d: Dom, i: nat, sels: seq<string>): string
  {
    if sels == [] then ""
    else match FirstTagged(d, i, sels[0], 0)
      case Some(k) => if Trim(d[k].innerText) != "" then Trim(d[k].innerText) else SemanticText(d, i, sels[1..])
      case None => SemanticText(d, i, sels[1..])
  }

  /**
   * The text nodes below `i` and before index `n`, each passed through `trim`,
   * that `keep` accepts, in document order (strategy 2's walker; the script
   * trims with `Trim`).
   */
  function Parts(d: Dom, i: nat, n: nat, trim: string -> string, keep: string -> bool): (ps: seq<string>)
    requires n <= |d|
    ensures forall m :: 0 <= m < |ps| ==> keep(ps[m])
  {
    if n <= i + 1 then []
    else
      var k := n - 1;
      Parts(d, i, k, trim, keep) + (if d[k].TextNode? && Below(d, k, i) && keep(trim(d[k].content)) then [trim(d[k].content)] else [])
  }

  /**
   * `reduce((a, b) => a.length > b.length ? a : b)` as a position: the
   * longest part, and of several equally long ones the last.
   */
  function LongestAt(parts: seq<string>): (k: nat)
    requires parts != []
    ensures k < |parts|
    ensures forall m :: 0 <= m < |parts| ==> |parts[m]| <= |parts[k]|
    ensures forall m :: k < m < |parts| ==> |parts[m]| < |parts[k]|
  {
    if |parts| == 1 then 0
    else
      var a := LongestAt(parts[..|parts| - 1]);
      if |parts[a]| > |parts[|parts| - 1]| then a else |parts| - 1
  }

  /** Strategy 3: each direct text child, passed through `trim`, that `keep` accepts, followed by a space. */
  function KeptDirect(d: Dom, i: nat, n: nat, trim: string -> string, keep: string -> bool): (t: string)
    requires n <= |d|
  {
    if n <= i + 1 then ""
    else
      var k := n - 1;
      KeptDirect(d, i, k, trim, keep)
      + (if d[k].TextNode? && d[k].parent == i && keep(trim(d[k].content)) then trim(d[k].content) + " " else "")
  }

  /** The direct text children's contents, concatenated. */
  function DirectText(d: Dom, i: nat, n: nat): (t: string)
    requires n <= |d|
  {
    if n <= i + 1 then ""
    else
      var k := n - 1;
      DirectText(d, i, k) + (if d[k].TextNode? && d[k].parent == i then d[k].content else "")
  }

  /** The text of element `i` before the clean-up. */
  function RawText(d: Dom, i: nat): string
    requires i < |d| && d[i].Element?
  {
    if LinkOrButton(d[i]) then
      var first := SemanticText(d, i, Semantic);
      var parts := Parts(d, i, |d|, Trim, Kept);
      var second := if first != "" then first else if parts != [] then parts[LongestAt(parts)] else "";
      if second != "" then second else Trim(KeptDirect(d, i, |d|, Trim, Kept))
    else
      var direct := DirectText(d, i, |d|);
      if Trim(direct) == "" then d[i].innerText else direct
  }

  /** `getSafeText`. */
  function SafeText(d: Dom, i: nat): string
    requires i < |d| && d[i].Element?
  {
    Label(RawText(d, i))
  }

  // ---------------------------------------------------------------------------
  // The clean-up at the end of getSafeText

  /** A keyboard-shortcut pattern the script deletes. */
  datatype Shortcut = ThenKey | ModifierKey

  /** `w` followed by a space and a capital letter starts `s`. */
  predicate KeyAfter(s: string, w: string) {
    |w| + 2 <= |s| && s[..|w|] == w && s[|w|] == ' ' && IsUpper(s[|w| + 1])
  }

  /** `P then ` followed by a capital letter starts `s`. */
  predicate ThenKeyAt(s: string) {
    8 <= |s| && s[..7] == "P then " && IsUpper(s[7])
  }

  const Modifiers: seq<string> := ["Ctrl", "Alt", "Shift", "Cmd"]

  /**
   * Length of the match of `/(w1|w2|...) [A-Z]/` at the start of `s`, or 0: the
   * first alternative followed by a space and a capital letter wins.
   */
  function ModifierMatch(s: string, words: seq<string>): (k: nat)
    ensures k <= |s|
    ensures k > 0 ==> exists j :: 0 <= j < |words| && KeyAfter(s, words[j]) && k == |words[j]| + 2
                                  && forall m :: 0 <= m < j ==> !KeyAfter(s, words[m])
    ensures k == 0 ==> forall j :: 0 <= j < |words| ==> !KeyAfter(s, words[j])
  {
    if words == [] then 0
    else
      var w := words[0];
      if KeyAfter(s, w) then |w| + 2
      else
        var k := ModifierMatch(s, words[1..]);
        assert forall j :: 1 <= j < |words| ==> words[j] == words[1..][j - 1];
        k
  }

  /** Length of the match of the pattern at the start of `s`, or 0. */
  function MatchLength(s: string, p: Shortcut): (k: nat)
    ensures k <= |s|
    ensures p.ThenKey? ==> (k > 0 <==> ThenKeyAt(s)) && (k > 0 ==> k == 8)
    ensures p.ModifierKey? ==> (k > 0 <==> exists j :: 0 <= j < |Modifiers| && KeyAfter(s, Modifiers[j]))
  {
    match p
    case ThenKey => if ThenKeyAt(s) then 8 else 0
    case ModifierKey => ModifierMatch(s, Modifiers)
  }

  /** A global regular-expression replace by "": matches are deleted left to right and never overlap. */
  function Strike(s: string, p: Shortcut): (r: string)
    decreases |s|
    ensures |r| <= |s|
  {
    if s == [] then []
    else
      var k := MatchLength(s, p);
      if k > 0 then Strike(s[k..], p) else [s[0]] + Strike(s[1..], p)
  }

  /** The pattern matches nowhere in `s`. */
  predicate NoMatch(s: string, p: Shortcut) {
    forall i :: 0 <= i < |s| ==> MatchLength(s[i..], p) == 0
  }

  /** Text in which the pattern matches nowhere comes through the deletion unchanged. */
  lemma {:induction false} StrikeNoMatch(s: string, p: Shortcut)
    requires NoMatch(s, p)
    ensures Strike(s, p) == s
    decreases |s|
  {
    if s != [] {
      assert s[0..] == s;
      assert NoMatch(s[1..], p) by {
        forall i | 0 <= i < |s[1..]| ensures MatchLength(s[1..][i..], p) == 0 {
          assert s[1..][i..] == s[i + 1..];
        }
      }
      StrikeNoMatch(s[1..], p);
      assert [s[0]] + s[1..] == s;
    }
  }

  /** Text before the first match is copied; the match itself is deleted. */
  lemma {:induction false} StrikeAround(a: string, b: string, p: Shortcut)
    requires forall i :: 0 <= i < |a| ==> MatchLength((a + b)[i..], p) == 0
    requires MatchLength(b, p) > 0
    ensures Strike(a + b, p) == a + Strike(b[MatchLength(b, p)..], p)
    decreases |a|, 1
  {
    if a == [] {
      StrikeAtMatch(a, b, p);
    } else {
      StrikeAroundStep(a, b, p);
    }
  }

  lemma StrikeAtMatch(a: string, b: string, p: Shortcut)
    requires a == [] && MatchLength(b, p) > 0
    ensures Strike(a + b, p) == a + Strike(b[MatchLength(b, p)..], p)
  {
    assert a + b == b;
  }

  /** One step of `StrikeAround`: the first character of `a` is copied. */
  lemma StrikeAroundStep(a: string, b: string, p: Shortcut)
    requires a != []
    requires forall i :: 0 <= i < |a| ==> MatchLength((a + b)[i..], p) == 0
    requires MatchLength(b, p) > 0
    ensures Strike(a + b, p) == a + Strike(b[MatchLength(b, p)..], p)
    decreases |a|, 0
  {
    var s := a + b;
    ConcatTail(a, b);
    StrikeCopies(s, p);
    NoMatchTail(a, b, p);
    StrikeAround(a[1..], b, p);
    ConsJoin(a, Strike(s, p), Strike(a[1..] + b, p), Strike(b[MatchLength(b, p)..], p));
  }

  /** Where no match starts, the first character is copied. */
  lemma StrikeCopies(s: string, p: Shortcut)
    requires s != [] && MatchLength(s, p) == 0
    ensures Strike(s, p) == [s[0]] + Strike(s[1..], p)
  {
  }

  lemma NoMatchTail(a: string, b: string, p: Shortcut)
    requires a != []
    requires forall i :: 0 <= i < |a| ==> MatchLength((a + b)[i..], p) == 0
    ensures forall i :: 0 <= i < |a[1..]| ==> MatchLength((a[1..] + b)[i..], p) == 0
  {
    forall i | 0 <= i < |a[1..]|
      ensures MatchLength((a[1..] + b)[i..], p) == 0
    {
      assert (a[1..] + b)[i..] == (a + b)[i + 1..];
    }
  }

  predicate IsIcon(c: char) { c == '\U{25B6}' || c == '\U{21E7}' }

  /** `replace(/[▶⇧]/g, '')`: the icons go, every other character stays in order. */
  function DropIcons(s: string): (r: string)
    ensures |r| <= |s|
    ensures forall m :: 0 <= m < |r| ==> r[m] != '\U{25B6}' && r[m] != '\U{21E7}'
    ensures (forall m :: 0 <= m < |s| ==> !IsIcon(s[m])) ==> r == s
  {
    if s == [] then []
    else
      var r := (if IsIcon(s[0]) then [] else [s[0]]) + DropIcons(s[1..]);
      assert (forall m :: 0 <= m < |s| ==> !IsIcon(s[m])) ==> forall m :: 0 <= m < |s[1..]| ==> !IsIcon(s[1..][m]) by {
        forall m | 0 <= m < |s[1..]| ensures s[1..][m] == s[m + 1] { }
      }
      assert (forall m :: 0 <= m < |s| ==> !IsIcon(s[m])) ==> r == [s[0]] + s[1..];
      r
  }

  /** Deleting icons from two texts in a row deletes them from each. */
  lemma {:induction false} DropIconsAppend(a: string, b: string)
    ensures DropIcons(a + b) == DropIcons(a) + DropIcons(b)
    decreases |a|
  {
    if a == [] {
      assert a + b == b;
    } else {
      assert (a + b)[1..] == a[1..] + b;
      DropIconsAppend(a[1..], b);
    }
  }

  /** Every whitespace character of `s` is a plain space and no two are adjacent. */
  predicate Collapsed(s: string) {
    (forall m :: 0 <= m < |s| && IsJsSpace(s[m]) ==> s[m] == ' ')
    && (forall m :: 0 <= m < |s| - 1 ==> !(IsJsSpace(s[m]) && IsJsSpace(s[m + 1])))
  }

  /** `replace(/\s+/g, ' ')`: each run of whitespace becomes one space. */
  function Squash(s: string): (r: string)
    decreases |s|
    ensures |r| <= |s|
    ensures r == [] <==> s == []
    ensures r != [] ==> (IsJsSpace(r[0]) <==> IsJsSpace(s[0]))
    ensures Collapsed(r)
  {
    if s == [] then []
    else if IsJsSpace(s[0]) then [' '] + Squash(s[LeadingCount(s, IsJsSpace)..])
    else [s[0]] + Squash(s[1..])
  }

  /** The characters of `s` that are not whitespace, in order. */
  function Ink(s: string): string {
    if s == [] then [] else (if IsJsSpace(s[0]) then [] else [s[0]]) + Ink(s[1..])
  }

  lemma {:induction false} InkSkipsSpaces(s: string, k: nat)
    requires k <= |s|
    requires forall m :: 0 <= m < k ==> IsJsSpace(s[m])
    ensures Ink(s) == Ink(s[k..])
  {
    if k > 0 {
      assert s[1..][k - 1..] == s[k..];
      InkSkipsSpaces(s[1..], k - 1);
    }
  }

  /** Collapsing whitespace keeps every other character, in order. */
  lemma {:induction false} SquashKeepsInk(s: string)
    decreases |s|
    ensures Ink(Squash(s)) == Ink(s)
  {
    if s != [] {
      if IsJsSpace(s[0]) {
        var k := LeadingCount(s, IsJsSpace);
        InkSkipsSpaces(s, k);
        SquashKeepsInk(s[k..]);
        assert Squash(s) == [' '] + Squash(s[k..]);
        assert ([' '] + Squash(s[k..]))[1..] == Squash(s[k..]);
      } else {
        SquashKeepsInk(s[1..]);
        assert ([s[0]] + Squash(s[1..]))[1..] == Squash(s[1..]);
      }
    }
  }

  /** A non-empty run of whitespace on its own collapses to exactly one space. */
  lemma SquashBlank(s: string)
    requires s != [] && forall m :: 0 <= m < |s| ==> IsJsSpace(s[m])
    ensures Squash(s) == " "
  {
    LeadingCountIs(s, IsJsSpace, |s|);
    assert s[|s|..] == [];
  }

  /**
   * Collapsing whitespace goes piece by piece wherever the pieces do not meet
   * inside a run of whitespace; with `SquashBlank`, each maximal run of
   * whitespace becomes exactly one space and nothing else changes.
   */
  lemma {:induction false} SquashSplit(a: string, b: string)
    requires a == [] || b == [] || !IsJsSpace(a[|a| - 1]) || !IsJsSpace(b[0])
    ensures Squash(a + b) == Squash(a) + Squash(b)
    decreases |a|
  {
    if a == [] {
      assert a + b == b;
    } else if b == [] {
      assert a + b == a;
    } else if !IsJsSpace(a[0]) {
      assert a[1..] == [] || a[1..][|a[1..]| - 1] == a[|a| - 1];
      SquashSplit(a[1..], b);
      SquashInkStep(a, b);
    } else {
      var k := LeadingCount(a, IsJsSpace);
      if k < |a| {
        assert a[k..][|a[k..]| - 1] == a[|a| - 1];
        SquashSplit(a[k..], b);
        SquashRunStep(a, b, k);
      } else {
        SquashBlank(a);
        SquashRunEnd(a, b);
      }
    }
  }

  /** `SquashSplit` past a leading visible character. */
  lemma SquashInkStep(a: string, b: string)
    requires a != [] && !IsJsSpace(a[0])
    requires Squash(a[1..] + b) == Squash(a[1..]) + Squash(b)
    ensures Squash(a + b) == Squash(a) + Squash(b)
  {
    var ab := a + b;
    assert ab[0] == a[0] && ab[1..] == a[1..] + b;
    var x, y := Squash(a[1..]), Squash(b);
    calc {
      Squash(ab);
      [a[0]] + Squash(a[1..] + b);
      [a[0]] + (x + y);
      { SeqAssoc([a[0]], x, y); }
      ([a[0]] + x) + y;
      Squash(a) + Squash(b);
    }
  }

  /** `SquashSplit` past a leading run of `k` blanks that ends inside `a`. */
  lemma SquashRunStep(a: string, b: string, k: nat)
    requires 0 < k < |a| && k == LeadingCount(a, IsJsSpace)
    requires Squash(a[k..] + b) == Squash(a[k..]) + Squash(b)
    ensures Squash(a + b) == Squash(a) + Squash(b)
  {
    var ab := a + b;
    SquashRunHead(a, k);
    RunCarries(a, b, k);
    SquashRunHead(ab, k);
    assert ab[k..] == a[k..] + b;
    var x, y := Squash(a[k..]), Squash(b);
    calc {
      Squash(ab);
      [' '] + Squash(ab[k..]);
      [' '] + Squash(a[k..] + b);
      [' '] + (x + y);
      { SeqAssoc([' '], x, y); }
      ([' '] + x) + y;
      Squash(a) + Squash(b);
    }
  }

  /** A string opening with `k` blanks collapses them to one space. */
  lemma SquashRunHead(s: string, k: nat)
    requires 0 < k <= |s| && k == LeadingCount(s, IsJsSpace)
    ensures Squash(s) == [' '] + Squash(s[k..])
  {
    assert IsJsSpace(s[0]);
  }

  /** A run of blanks that ends inside `a` is the same run in `a + b`. */
  lemma RunCarries(a: string, b: string, k: nat)
    requires k < |a| && k == LeadingCount(a, IsJsSpace)
    ensures LeadingCount(a + b, IsJsSpace) == k
  {
    assert (a + b)[k] == a[k];
    LeadingCountIs(a + b, IsJsSpace, k);
  }

  lemma SeqAssoc(u: string, v: string, w: string)
    ensures u + (v + w) == (u + v) + w
  {
  }

  /** `SquashSplit` when `a` is all blanks and `b` starts with a visible character. */
  lemma SquashRunEnd(a: string, b: string)
    requires a != [] && b != [] && !IsJsSpace(b[0])
    requires forall m :: 0 <= m < |a| ==> IsJsSpace(a[m])
    ensures Squash(a + b) == [' '] + Squash(b)
  {
    assert (a + b)[|a|] == b[0];
    LeadingCountIs(a + b, IsJsSpace, |a|);
    assert (a + b)[|a|..] == b;
  }

  /** Longest label the script emits. */
  const LabelLength: nat := 50

  /** The clean-up: icons and shortcut hints deleted, whitespace collapsed, trimmed, cut to 50. */
  function Label(raw: string): (t: string)
    ensures |t| <= LabelLength
    ensures Collapsed(t)
    ensures t == [] || !IsJsSpace(t[0])
  {
    Clip(Squash(Strike(Strike(DropIcons(raw), ThenKey), ModifierKey)))
  }

  /** The last steps of the cleanup: `.strip()` and the cut to 50 characters. */
  function Clip(s: string): (t: string)
    requires Collapsed(s)
    ensures |t| <= LabelLength
    ensures Collapsed(t)
    ensures t == [] || !IsJsSpace(t[0])
    ensures StartsWith(Trim(s), t) && (|t| == LabelLength || t == Trim(s))
  {
    var u := TrimBy(s, IsJsSpace);
    var a, b :| 0 <= a <= b <= |s| && u == s[a..b];
    CollapsedSlice(s, a, b);
    if |u| <= LabelLength then u
    else
      CollapsedSlice(u, 0, LabelLength);
      u[..LabelLength]
  }

  /** Collapsing a text that is already collapsed changes nothing. */
  lemma {:induction false} SquashCollapsed(s: string)
    requires Collapsed(s)
    ensures Squash(s) == s
    decreases |s|
  {
    if s != [] {
      CollapsedSlice(s, 1, |s|);
      SquashCollapsed(s[1..]);
      if IsJsSpace(s[0]) {
        assert |s| == 1 || !IsJsSpace(s[1]);
        LeadingCountIs(s, IsJsSpace, 1);
      }
      assert [s[0]] + s[1..] == s;
    }
  }

  /**
   * A label that is already clean (collapsed, trimmed, at most 50 characters,
   * no icon and no shortcut hint) comes through the clean-up unchanged.
   */
  lemma LabelKeepsClean(s: string)
    requires Collapsed(s) && (s == [] || (!IsJsSpace(s[0]) && !IsJsSpace(s[|s| - 1])))
    requires |s| <= LabelLength
    requires forall m :: 0 <= m < |s| ==> !IsIcon(s[m])
    requires NoMatch(s, ThenKey) && NoMatch(s, ModifierKey)
    ensures Label(s) == s
  {
    assert DropIcons(s) == s;
    StrikeNoMatch(s, ThenKey);
    StrikeNoMatch(s, ModifierKey);
    SquashCollapsed(s);
    assert Trim(s) == s;
  }

  /** Any stretch of a collapsed text is collapsed. */
  lemma CollapsedSlice(s: string, a: nat, b: nat)
    requires Collapsed(s) && a <= b <= |s|
    ensures Collapsed(s[a..b])
  {
    var u := s[a..b];
    assert forall m :: 0 <= m < |u| ==> u[m] == s[a + m];
  }

  // ---------------------------------------------------------------------------
  // One line per listed element

  /** `name="value"`, or nothing when the value is empty. */
  function Attribute(key: string, value: string): seq<string> {
    if value == "" then [] else [key + "=\"" + value + "\""]
  }

  /** The first `n` characters, as `slice(0, n)`. */
  function Prefix(s: string, n: nat): (r: string)
    ensures |r| <= n && StartsWith(s, r)
    ensures |s| >= n ==> |r| == n
    ensures |s| <= n ==> r == s
  {
    if |s| <= n then s else s[..n]
  }

  /** The pieces of an element's line: tag, quoted text, then the non-empty attributes, then a cut `href` for links. */
  function Fields(e: Node, text: string): (parts: seq<string>)
    requires e.Element?
  {
    ["[" + e.tag + "]"]
    + (if text == "" then [] else ["\"" + text + "\""])
    + Attribute("role", e.role) + Attribute("aria-label", e.ariaLabel)
    + Attribute("placeholder", e.placeholder) + Attribute("name", e.name)
    + Attribute("id", e.id) + Attribute("type", e.kind)
    + (if e.tag == "a" && e.href != "" then ["href=\"" + Prefix(e.href, 30) + "...\""] else [])
  }

  function Line(e: Node, text: string): string
    requires e.Element?
  {
    Join(Fields(e, text), " ")
  }

  lemma JoinStartsWithFirst(parts: seq<string>, sep: string)
    requires parts != []
    ensures StartsWith(Join(parts, sep), parts[0])
  {
    if |parts| > 1 {
      assert Join(parts, sep) == parts[0] + (sep + Join(parts[1..], sep));
    }
  }

  /** A line opens with the tag in brackets, and holds the text quoted when the text is not empty. */
  lemma LineShape(e: Node, text: string)
    requires e.Element?
    ensures StartsWith(Line(e, text), "[" + e.tag + "]")
    ensures text != "" ==> |Fields(e, text)| >= 2 && Fields(e, text)[1] == "\"" + text + "\""
    ensures (e.tag == "a" && e.href != "") ==>
              exists h :: StartsWith(e.href, h) && |h| == (if |e.href| < 30 then |e.href| else 30)
                          && EndsWith(Line(e, text), "href=\"" + h + "...\"")
  {
    JoinStartsWithFirst(Fields(e, text), " ");
    JoinEndsWithLast(Fields(e, text), " ");
    if e.tag == "a" && e.href != "" {
      var h := Prefix(e.href, 30);
      assert Fields(e, text)[|Fields(e, text)| - 1] == "href=\"" + h + "...\"";
    }
  }

  lemma {:induction false} JoinEndsWithLast(parts: seq<string>, sep: string)
    requires parts != []
    ensures EndsWith(Join(parts, sep), parts[|parts| - 1])
  {
    if |parts| > 1 {
      JoinEndsWithLast(parts[1..], sep);
      var tail := Join(parts[1..], sep);
      var last := parts[|parts| - 1];
      assert Join(parts, sep) == (parts[0] + sep) + tail;
      assert ((parts[0] + sep) + tail)[|(parts[0] + sep) + tail| - |last|..] == tail[|tail| - |last|..];
    }
  }

  // ---------------------------------------------------------------------------
  // Choosing the root

  /** The five modal selectors, in the order the script tries them. */
  predicate MatchesModal(e: Node, sel: nat)
    requires e.Element?
  {
    if sel == 0 then e.role == "dialog"
    else if sel == 1 then Contains(e.classes, "modal")
    else if sel == 2 then Contains(e.classes, "dialog")
    else if sel == 3 then e.ariaModal == "true"
    else sel == 4 && e.tag == "div" && Contains(e.style, "z-index") && Contains(e.style, "fixed")
  }

  const ModalSelectorCount: nat := 5

  /** A match for selector `sel` that is visible and shows some text. */
  predicate Candidate(d: Dom, sel: nat, m: nat)
    requires m < |d|
  {
    d[m].Element? && MatchesModal(d[m], sel) && d[m].visible && Trim(d[m].innerText) != ""
  }

  /** The first index from `from` below `n` that `ok` accepts. */
  function FirstWhere(n: nat, from: nat, ok: nat -> bool): (r: Option<nat>)
    decreases n - from
    ensures r.Some? ==> from <= r.value < n && ok(r.value)
    ensures r.Some? ==> forall m :: from <= m < r.value ==> !ok(m)
    ensures r.None? ==> forall m :: from <= m < n ==> !ok(m)
  {
    if from >= n then None
    else if ok(from) then Some(from)
    else FirstWhere(n, from + 1, ok)
  }

  /** The candidate test for selector `sel`, as the loop over `querySelectorAll(sel)` applies it. */
  function CandidateFor(d: Dom, sel: nat): nat -> bool {
    (m: nat) => m < |d| && Candidate(d, sel, m)
  }

  /** The first candidate for `sel` in document order. */
  function FirstCandidate(d: Dom, sel: nat): Option<nat> {
    FirstWhere(|d|, 0, CandidateFor(d, sel))
  }

  /** `FirstCandidate` finds the candidate that comes first in document order, or reports that there is none. */
  lemma FirstCandidateIs(d: Dom, sel: nat)
    ensures match FirstCandidate(d, sel)
      case Some(m) => m < |d| && Candidate(d, sel, m) && forall k :: 0 <= k < m ==> !Candidate(d, sel, k)
      case None => forall k :: 0 <= k < |d| ==> !Candidate(d, sel, k)
  {
    var r := FirstCandidate(d, sel);
    if r.Some? {
      forall k | 0 <= k < r.value ensures !Candidate(d, sel, k) {
        assert !CandidateFor(d, sel)(k);
      }
    } else {
      forall k | 0 <= k < |d| ensures !Candidate(d, sel, k) {
        assert !CandidateFor(d, sel)(k);
      }
    }
  }

  /** Where the walk starts, and whether the banner is printed. */
  datatype Root = Root(node: nat, banner: bool)

  /** Each selector's first candidate in `d`, as a function of the selector. */
  function FirstHits(d: Dom): nat -> Option<nat> {
    (s: nat) => FirstCandidate(d, s)
  }

  /**
   * The selector loop from selector `sel` on, given each selector's first
   * candidate `hit`: a candidate becomes the root, and the loop stops unless
   * that candidate is the body itself.
   */
  function RootFrom(hit: nat -> Option<nat>, body: nat, sel: nat, banner: bool): Root
    decreases ModalSelectorCount - sel
  {
    if sel >= ModalSelectorCount then Root(body, banner)
    else match hit(sel)
      case None => RootFrom(hit, body, sel + 1, banner)
      case Some(m) => if m != body then Root(m, true) else RootFrom(hit, body, sel + 1, true)
  }

  function ChooseRoot(doc: Document): Root {
    RootFrom(FirstHits(doc.nodes), doc.body, 0, false)
  }

  /** No selector from `a` up to `b` has a first candidate other than the body. */
  predicate OnlyBodyBetween(hit: nat -> Option<nat>, body: nat, a: nat, b: nat) {
    forall s: nat :: a <= s < b ==> hit(s).None? || hit(s) == Some(body)
  }

  /** Some selector from `a` up to `b` has the body as its first candidate. */
  predicate BodyBetween(hit: nat -> Option<nat>, body: nat, a: nat, b: nat) {
    exists s: nat :: a <= s < b && hit(s) == Some(body)
  }

  /**
   * From selector `sel` on, the root is the first selector's first candidate
   * that is not the body; failing that it is the body, and the banner is
   * printed when it already was or when the body itself was a candidate.
   */
  lemma {:induction false} RootFromChoice(hit: nat -> Option<nat>, body: nat, sel: nat, banner: bool)
    requires sel <= ModalSelectorCount
    decreases ModalSelectorCount - sel
    ensures var root := RootFrom(hit, body, sel, banner);
      root.node != body ==>
        root.banner && exists s: nat :: sel <= s < ModalSelectorCount && OnlyBodyBetween(hit, body, sel, s) && hit(s) == Some(root.node)
    ensures var root := RootFrom(hit, body, sel, banner);
      root.node == body ==>
        OnlyBodyBetween(hit, body, sel, ModalSelectorCount) && (root.banner <==> banner || BodyBetween(hit, body, sel, ModalSelectorCount))
  {
    if sel < ModalSelectorCount {
      var first := hit(sel);
      if first.Some? && first.value != body {
        assert OnlyBodyBetween(hit, body, sel, sel);
      } else {
        var next := if first.Some? then true else banner;
        assert RootFrom(hit, body, sel, banner) == RootFrom(hit, body, sel + 1, next);
        RootFromChoice(hit, body, sel + 1, next);
        var root := RootFrom(hit, body, sel + 1, next);
        if root.node != body {
          var s: nat :| sel + 1 <= s < ModalSelectorCount && OnlyBodyBetween(hit, body, sel + 1, s) && hit(s) == Some(root.node);
          assert OnlyBodyBetween(hit, body, sel, s);
        } else {
          if first.Some? {
            assert BodyBetween(hit, body, sel, ModalSelectorCount);
          }
          if BodyBetween(hit, body, sel, ModalSelectorCount) && first.None? {
            var s: nat :| sel <= s < ModalSelectorCount && hit(s) == Some(body);
            assert BodyBetween(hit, body, sel + 1, ModalSelectorCount);
          }
        }
      }
    }
  }

  /**
   * The root is the first selector's first candidate that is not the body;
   * failing that it is the body, with the banner exactly when the body itself
   * was some selector's first candidate.
   */
  lemma RootChoice(doc: Document)
    ensures var root := ChooseRoot(doc);
      var hit := FirstHits(doc.nodes);
      root.node != doc.body ==>
        root.banner && exists s: nat :: 0 <= s < ModalSelectorCount && OnlyBodyBetween(hit, doc.body, 0, s) && hit(s) == Some(root.node)
    ensures var root := ChooseRoot(doc);
      var hit := FirstHits(doc.nodes);
      root.node == doc.body ==>
        OnlyBodyBetween(hit, doc.body, 0, ModalSelectorCount) && (root.banner <==> BodyBetween(hit, doc.body, 0, ModalSelectorCount))
  {
    RootFromChoice(FirstHits(doc.nodes), doc.body, 0, false);
  }

  const ModalBanner := "!!! ACTIVE MODAL DETECTED - FOCUSING ON MODAL CONTENT !!!\n"

  /** The script's result: the banner (when chosen) and the lines joined by newlines. */
  function Script(doc: Document): string
    requires WellFormedDocument(doc)
  {
    var root := ChooseRoot(doc);
    (if root.banner then ModalBanner else "") + Join(Lines(doc.nodes, Listed(doc.nodes, root.node, |doc.nodes|)), "\n")
  }

  // ---------------------------------------------------------------------------
  // The Python wrapper

  const DefaultMaxLength: int := 50000
  const TruncationMark := "\n... (truncated)"
  const ErrorPrefix := "Error generating accessibility tree: "

  /** Python's `s[:n]`, a negative `n` counting from the end. */
  function PyHead(s: string, n: int): (r: string)
    ensures StartsWith(s, r)
    ensures 0 <= n <= |s| ==> |r| == n
  {
    if n >= |s| then s else if n >= 0 then s[..n] else if |s| + n >= 0 then s[..|s| + n] else []
  }

  /** Longer listings are cut to `maxLength` characters and marked; shorter ones pass unchanged. */
  function Truncate(tree: string, maxLength: int): (r: string)
    ensures |tree| <= maxLength ==> r == tree
    ensures |tree| > maxLength ==>
      |r| >= |TruncationMark| && StartsWith(tree, r[..|r| - |TruncationMark|]) && r[|r| - |TruncationMark|..] == TruncationMark
    ensures 0 <= maxLength < |tree| ==> |r| == maxLength + |TruncationMark|
  {
    if |tree| > maxLength then
      var head := PyHead(tree, maxLength);
      assert (head + TruncationMark)[..|head|] == head;
      head + TruncationMark
    else tree
  }

  /** `get_page_accessibility_tree`: the page's listing, or the error text when evaluation fails. */
  function TreeText(evaluated: Result<Document, string>, maxLength: int): (r: string)
    requires evaluated.Ok? ==> WellFormedDocument(evaluated.value)
    ensures evaluated.Err? ==> r == ErrorPrefix + evaluated.error
    ensures evaluated.Ok? ==> r == Truncate(Script(evaluated.value), maxLength)
  {
    match evaluated
    case Err(e) => ErrorPrefix + e
    case Ok(doc) => Truncate(Script(doc), maxLength)
  }

  /** With the default limit the text is never longer than 50000 characters plus the mark, and keeps the start of the listing. */
  lemma DefaultBound(doc: Document)
    requires WellFormedDocument(doc)
    ensures var r := TreeText(Ok(doc), DefaultMaxLength);
      |r| <= DefaultMaxLength + |TruncationMark| && (|Script(doc)| <= DefaultMaxLength ==> r == Script(doc))
  {
  }

  // ---------------------------------------------------------------------------
  // Properties of the walk

  /** A visited node lies below the root, after it in document order. */
  lemma {:induction false} ReachedAfterRoot(d: Dom, r: nat, j: nat)
    requires j < |d| && Reached(d, r, j)
    decreases j
    ensures r < j && Below(d, j, r)
  {
    var p := d[j].parent;
    if p != r {
      ReachedAfterRoot(d, r, p);
    }
  }

  /** Every element between the root and a visited node is visited too. */
  lemma {:induction false} ReachedAbove(d: Dom, r: nat, k: nat, j: nat)
    requires j < |d| && Reached(d, r, j) && Between(d, r, k, j)
    decreases j
    ensures k < j && Reached(d, r, k)
  {
    var p := d[j].parent;
    if p != k {
      ReachedAbove(d, r, k, p);
    }
  }

  /** A hidden element hides its whole subtree: nothing listed has a hidden element between it and the root. */
  lemma HiddenHidesSubtree(d: Dom, r: nat, k: nat, j: nat)
    requires j < |d| && Emits(d, r, j)
    requires k == j || Between(d, r, k, j)
    ensures k < |d| && d[k].Element? && d[k].visible
  {
    if k != j {
      ReachedAbove(d, r, k, j);
    }
  }

  /** Nothing strictly inside a listed link or button is listed. */
  lemma {:induction false} NotCoveredMeansNoListedControl(d: Dom, r: nat, k: nat, j: nat)
    requires j < |d| && !Covered(d, r, j) && Between(d, r, k, j)
    decreases j
    ensures k < j && !(Emits(d, r, k) && LinkOrButton(d[k]))
  {
    var p := d[j].parent;
    if p != k {
      NotCoveredMeansNoListedControl(d, r, k, p);
    }
  }

  /** `Covered` holds exactly when some listed link or button lies between the root and the node. */
  lemma {:induction false} CoveredWitness(d: Dom, r: nat, j: nat)
    requires j < |d| && Covered(d, r, j)
    decreases j
    ensures exists k :: 0 <= k < j && Between(d, r, k, j) && Emits(d, r, k) && LinkOrButton(d[k])
  {
    var p := d[j].parent;
    if !(Emits(d, r, p) && LinkOrButton(d[p])) {
      CoveredWitness(d, r, p);
      var k :| 0 <= k < p && Between(d, r, k, p) && Emits(d, r, k) && LinkOrButton(d[k]);
      assert Between(d, r, k, j);
    }
  }

  /** A listed element never has a listed link or button between it and the root. */
  lemma ListedNotInsideListedControl(d: Dom, r: nat, j: nat, k: nat)
    requires k < j < |d| && Emits(d, r, j) && Between(d, r, k, j) && LinkOrButton(d[k])
    ensures !Emits(d, r, k)
  {
    NotCoveredMeansNoListedControl(d, r, k, j);
  }

  /** A visited, interesting node with no listed link or button above it is listed. */
  lemma ListedWhenUncovered(d: Dom, r: nat, j: nat)
    requires j < |d| && Reached(d, r, j) && Interesting(d[j])
    requires forall k :: 0 <= k < j && Between(d, r, k, j) ==> !(Emits(d, r, k) && LinkOrButton(d[k]))
    ensures Emits(d, r, j)
  {
    if Covered(d, r, j) {
      CoveredWitness(d, r, j);
    }
  }

  // ---------------------------------------------------------------------------
  // Properties of getSafeText

  /** Strategy 3 never adds anything: when strategy 2 found no part, no direct text child is kept either. */
  lemma {:induction false} NoPartsNoDirect(d: Dom, i: nat, n: nat, trim: string -> string, keep: string -> bool)
    requires n <= |d| && Parts(d, i, n, trim, keep) == []
    ensures KeptDirect(d, i, n, trim, keep) == ""
  {
    if n > i + 1 {
      var k := n - 1;
      NoPartsNoDirect(d, i, k, trim, keep);
      if d[k].TextNode? && d[k].parent == i {
        assert Within(d, i, i);
        assert Below(d, k, i);
      }
    }
  }

  /**
   * For a link or button without a semantic child, the text is the cleaned
   * longest kept text node below it, the last of equally long ones.
   */
  lemma LinkTextIsLongestPart(d: Dom, i: nat)
    requires i < |d| && LinkOrButton(d[i]) && SemanticText(d, i, Semantic) == ""
    ensures var parts := Parts(d, i, |d|, Trim, Kept);
      parts == [] ==> SafeText(d, i) == Label("")
    ensures var parts := Parts(d, i, |d|, Trim, Kept);
      parts != [] ==>
        exists k :: 0 <= k < |parts| && SafeText(d, i) == Label(parts[k]) && Kept(parts[k])
          && (forall m :: 0 <= m < |parts| ==> |parts[m]| <= |parts[k]|)
          && (forall m :: k < m < |parts| ==> |parts[m]| < |parts[k]|)
  {
    var parts := Parts(d, i, |d|, Trim, Kept);
    if parts == [] {
      LinkTextNoParts(d, i);
    } else {
      var k := LongestAt(parts);
      LinkTextSomeParts(d, i);
      assert Kept(parts[k]);
    }
  }

  lemma LinkTextNoParts(d: Dom, i: nat)
    requires i < |d| && LinkOrButton(d[i]) && SemanticText(d, i, Semantic) == ""
    requires Parts(d, i, |d|, Trim, Kept) == []
    ensures SafeText(d, i) == Label("")
  {
    NoPartsNoDirect(d, i, |d|, Trim, Kept);
    assert RawText(d, i) == Trim("");
  }

  lemma LinkTextSomeParts(d: Dom, i: nat)
    requires i < |d| && LinkOrButton(d[i]) && SemanticText(d, i, Semantic) == ""
    requires Parts(d, i, |d|, Trim, Kept) != []
    ensures var parts := Parts(d, i, |d|, Trim, Kept); SafeText(d, i) == Label(parts[LongestAt(parts)])
  {
    var parts := Parts(d, i, |d|, Trim, Kept);
    assert RawText(d, i) == parts[LongestAt(parts)];
  }

  /** Digits, then any whitespace, then a unit: a relative time such as "5 min" or "3d" is a timestamp. */
  lemma TimestampShape(digits: string, spaces: string, unit: string)
    requires digits != [] && forall m :: 0 <= m < |digits| ==> IsDigit(digits[m])
    requires forall m :: 0 <= m < |spaces| ==> IsJsSpace(spaces[m])
    requires unit in {"min", "h", "d", "w", "mo", "y"}
    ensures IsTimestamp(digits + spaces + unit)
  {
    assert unit[0] in "mhdwy" && unit[|unit| - 1] in "nhdwoy";
    TimestampSplit(digits, spaces, unit);
  }

  /** How `isTimestamp` takes apart digits, whitespace and a word that starts and ends with a letter. */
  lemma TimestampSplit(digits: string, spaces: string, unit: string)
    requires digits != [] && forall m :: 0 <= m < |digits| ==> IsDigit(digits[m])
    requires forall m :: 0 <= m < |spaces| ==> IsJsSpace(spaces[m])
    requires unit != [] && !IsDigit(unit[0]) && !IsJsSpace(unit[0]) && !IsJsSpace(unit[|unit| - 1])
    ensures var s := Trim(digits + spaces + unit);
      var k := LeadingCount(s, IsDigit);
      k == |digits| && s[k..][LeadingCount(s[k..], IsJsSpace)..] == unit
  {
    var rest := spaces + unit;
    var s := digits + rest;
    SeqAssoc(digits, spaces, unit);
    assert s[|s| - 1] == unit[|unit| - 1];
    assert Trim(s) == s;
    assert rest[0] == if spaces == [] then unit[0] else spaces[0];
    CountThenRest(digits, rest, IsDigit);
    CountThenRest(spaces, unit, IsJsSpace);
  }

  /** A run of characters that satisfy `p`, then one that does not: the run is what `LeadingCount` counts. */
  lemma CountThenRest(run: string, rest: string, p: char -> bool)
    requires forall m :: 0 <= m < |run| ==> p(run[m])
    requires rest == [] || !p(rest[0])
    ensures LeadingCount(run + rest, p) == |run| && (run + rest)[|run|..] == rest
  {
    var s := run + rest;
    assert forall m :: 0 <= m < |run| ==> s[m] == run[m];
    LeadingCountIs(s, p, |run|);
  }

  // ---------------------------------------------------------------------------
  // The script, step by step

  /** Strategy 1's loop over the semantic selectors; it stops at the first with text. */
  method FirstSemantic(d: Dom, i: nat, sels: seq<string>) returns (text: string)
    ensures text == SemanticText(d, i, sels)
  {
    text := "";
    var s := 0;
    assert sels[0..] == sels;
    while s < |sels| && text == ""
      invariant 0 <= s <= |sels|
      invariant SemanticText(d, i, sels) == if text != "" then text else SemanticText(d, i, sels[s..])
    {
      assert sels[s..][1..] == sels[s + 1..];
      var elem := FirstTagged(d, i, sels[s], 0);
      if elem.Some? && Trim(d[elem.value].innerText) != "" {
        text := Trim(d[elem.value].innerText);
      }
      s := s + 1;
    }
  }

  /** Strategy 2's text walker: the kept, trimmed text nodes below `i`. */
  method CollectParts(d: Dom, i: nat, trim: string -> string, keep: string -> bool) returns (parts: seq<string>)
    requires i < |d|
    ensures parts == Parts(d, i, |d|, trim, keep)
  {
    parts := [];
    var k := i + 1;
    while k < |d|
      invariant i + 1 <= k <= |d|
      invariant parts == Parts(d, i, k, trim, keep)
    {
      if d[k].TextNode? && Below(d, k, i) {
        var trimmed := trim(d[k].content);
        if keep(trimmed) {
          parts := parts + [trimmed];
        }
      }
      k := k + 1;
    }
  }

  /** Strategy 3's loop over the direct text children. */
  method JoinKeptChildren(d: Dom, i: nat, trim: string -> string, keep: string -> bool) returns (text: string)
    requires i < |d|
    ensures text == KeptDirect(d, i, |d|, trim, keep)
  {
    text := "";
    var k := i + 1;
    while k < |d|
      invariant i + 1 <= k <= |d|
      invariant text == KeptDirect(d, i, k, trim, keep)
    {
      if d[k].TextNode? && d[k].parent == i {
        var trimmed := trim(d[k].content);
        if keep(trimmed) {
          text := text + (trimmed + " ");
        }
      }
      k := k + 1;
    }
  }

  /** The loop over the direct text children of any other element. */
  method JoinChildren(d: Dom, i: nat) returns (text: string)
    requires i < |d|
    ensures text == DirectText(d, i, |d|)
  {
    text := "";
    var k := i + 1;
    while k < |d|
      invariant i + 1 <= k <= |d|
      invariant text == DirectText(d, i, k)
    {
      if d[k].TextNode? && d[k].parent == i {
        text := text + d[k].content;
      }
      k := k + 1;
    }
  }

  /** `getSafeText`, strategy by strategy. */
  method GetSafeText(d: Dom, i: nat) returns (text: string)
    requires i < |d| && d[i].Element?
    ensures text == SafeText(d, i)
    ensures |text| <= LabelLength && Collapsed(text)
  {
    if LinkOrButton(d[i]) {
      text := FirstSemantic(d, i, Semantic);
      if text == "" {
        var parts := CollectParts(d, i, Trim, Kept);
        if parts != [] {
          text := parts[LongestAt(parts)];
        }
      }
      if text == "" {
        text := JoinKeptChildren(d, i, Trim, Kept);
        text := Trim(text);
      }
    } else {
      text := JoinChildren(d, i);
      if Trim(text) == "" {
        text := d[i].innerText;
      }
    }
    text := Label(text);
  }

  /** The ancestor loop: does a listed link or button lie between the root and `j`? */
  method HasOutputAncestor(d: Dom, r: nat, j: nat, outputElements: set<nat>) returns (found: bool)
    requires j < |d| && Reached(d, r, j)
    requires outputElements == ListedControls(d, r, j)
    ensures found == Covered(d, r, j)
  {
    found := false;
    var parent := d[j].parent;
    if parent != r {
      ReachedAfterRoot(d, r, parent);
    }
    while 0 <= parent && parent != r
      invariant parent == r || (r < parent < j && Reached(d, r, parent))
      invariant Covered(d, r, j) == (parent != r && ((Emits(d, r, parent) && LinkOrButton(d[parent])) || Covered(d, r, parent)))
      decreases parent
    {
      ListedControlsHas(d, r, j, parent);
      if parent in outputElements {
        found := true;
        return;
      }
      var next := d[parent].parent;
      if next != r {
        ReachedAfterRoot(d, r, next);
      }
      parent := next;
    }
  }

  /** The elements the walker has visited before index `j`. */
  function Visited(d: Dom, r: nat, j: nat): set<nat>
    requires j <= |d|
    decreases j
  {
    if j <= r + 1 then {} else Visited(d, r, j - 1) + (if Reached(d, r, j - 1) then {j - 1} else {})
  }

  /** The listed links and buttons before index `j`: the script's `outputElements`. */
  function ListedControls(d: Dom, r: nat, j: nat): set<nat>
    requires j <= |d|
    decreases j
  {
    if j <= r + 1 then {} else ListedControls(d, r, j - 1) + (if Emits(d, r, j - 1) && LinkOrButton(d[j - 1]) then {j - 1} else {})
  }

  /** The visited elements are those after the root and before `j` that the walker reaches. */
  lemma {:induction false} VisitedHas(d: Dom, r: nat, j: nat, k: nat)
    requires j <= |d|
    decreases j
    ensures k in Visited(d, r, j) <==> r < k < j && Reached(d, r, k)
  {
    if j > r + 1 {
      VisitedHas(d, r, j - 1, k);
    }
  }

  /** The recorded controls are the listed links and buttons after the root and before `j`. */
  lemma {:induction false} ListedControlsHas(d: Dom, r: nat, j: nat, k: nat)
    requires j <= |d|
    decreases j
    ensures k in ListedControls(d, r, j) <==> r < k < j && Emits(d, r, k) && LinkOrButton(d[k])
  {
    if j > r + 1 {
      ListedControlsHas(d, r, j - 1, k);
    }
  }

  lemma VisitedStep(d: Dom, r: nat, j: nat)
    requires r < j < |d|
    ensures Visited(d, r, j + 1) == Visited(d, r, j) + (if Reached(d, r, j) then {j} else {})
  {
  }

  lemma ListedControlsStep(d: Dom, r: nat, j: nat)
    requires r < j < |d|
    ensures ListedControls(d, r, j + 1) == ListedControls(d, r, j) + (if Emits(d, r, j) && LinkOrButton(d[j]) then {j} else {})
  {
  }

  /** The walker's test, given the elements visited so far, is `Reached`. */
  lemma WalkerTest(d: Dom, r: nat, j: nat)
    requires WellFormed(d) && r < j < |d|
    ensures Reached(d, r, j) <==> d[j].Element? && d[j].visible && (d[j].parent == r || d[j].parent in Visited(d, r, j))
  {
    var p := d[j].parent;
    if 0 <= p {
      VisitedHas(d, r, j, p);
      if p != r && Reached(d, r, p) {
        ReachedAfterRoot(d, r, p);
      }
    }
  }

  /** The line of one listed element: its tag, its safe text and its attributes. */
  method Describe(d: Dom, j: nat) returns (line: string)
    requires j < |d| && d[j].Element?
    ensures line == LineAt(d, j)
  {
    var text := GetSafeText(d, j);
    line := Line(d[j], text);
  }

  /** Appending the line of `j` keeps each line next to its node. */
  lemma LinesSnoc(d: Dom, output: seq<string>, listed: seq<nat>, j: nat, line: string)
    requires j < |d| && d[j].Element? && line == LineAt(d, j)
    requires |output| == |listed| && forall m :: 0 <= m < |output| ==> output[m] == LineAt(d, listed[m])
    ensures var output2, listed2 := output + [line], listed + [j];
      |output2| == |listed2| && forall m :: 0 <= m < |output2| ==> output2[m] == LineAt(d, listed2[m])
  {
  }

  /**
   * The part of a walker step at a visited node `j`: list it when it is
   * interesting and not inside a listed link or button.
   */
  method ListIfInteresting(d: Dom, r: nat, j: nat, outputElements: set<nat>, output: seq<string>, ghost listed: seq<nat>)
    returns (outputElements2: set<nat>, output2: seq<string>, ghost listed2: seq<nat>)
    requires r < j < |d| && Reached(d, r, j)
    requires outputElements == ListedControls(d, r, j) && listed == Listed(d, r, j)
    requires |output| == |listed| && forall m :: 0 <= m < |output| ==> output[m] == LineAt(d, listed[m])
    ensures outputElements2 == ListedControls(d, r, j + 1) && listed2 == Listed(d, r, j + 1)
    ensures |output2| == |listed2| && forall m :: 0 <= m < |output2| ==> output2[m] == LineAt(d, listed2[m])
  {
    ListedControlsStep(d, r, j);
    outputElements2, output2, listed2 := outputElements, output, listed;
    var hasOutputAncestor := HasOutputAncestor(d, r, j, outputElements);
    if !hasOutputAncestor && Interesting(d[j]) {
      var line := Describe(d, j);
      LinesSnoc(d, output, listed, j, line);
      output2 := output + [line];
      listed2 := listed + [j];
      if LinkOrButton(d[j]) {
        outputElements2 := outputElements + {j};
      }
    }
  }

  /** One step of the walker at node `j`: the walker visits it only when it reaches it. */
  method Visit(d: Dom, r: nat, j: nat, accepted: set<nat>, outputElements: set<nat>, output: seq<string>, ghost listed: seq<nat>)
    returns (accepted2: set<nat>, outputElements2: set<nat>, output2: seq<string>, ghost listed2: seq<nat>)
    requires WellFormed(d) && r < j < |d|
    requires accepted == Visited(d, r, j) && outputElements == ListedControls(d, r, j) && listed == Listed(d, r, j)
    requires output == Lines(d, listed)
    ensures accepted2 == Visited(d, r, j + 1) && outputElements2 == ListedControls(d, r, j + 1) && listed2 == Listed(d, r, j + 1)
    ensures output2 == Lines(d, listed2)
  {
    LinesPointwise(d, listed, output);
    VisitedStep(d, r, j);
    WalkerTest(d, r, j);
    var node := d[j];
    if node.Element? && node.visible && (node.parent == r || node.parent in accepted) {
      accepted2 := accepted + {j};
      outputElements2, output2, listed2 := ListIfInteresting(d, r, j, outputElements, output, listed);
    } else {
      ListedControlsStep(d, r, j);
      accepted2, outputElements2, output2, listed2 := accepted, outputElements, output, listed;
    }
    LinesAre(d, listed2, output2);
  }

  /** `traverse(root)`: the walker loop over the nodes below the root, in document order. */
  method Traverse(d: Dom, r: nat) returns (output: seq<string>)
    requires WellFormed(d) && r < |d|
    ensures output == Lines(d, Listed(d, r, |d|))
  {
    output := [];
    var outputElements: set<nat> := {};
    var accepted: set<nat> := {};
    var j := r + 1;
    while j < |d|
      invariant r + 1 <= j <= |d|
      invariant output == Lines(d, Listed(d, r, j))
      invariant accepted == Visited(d, r, j)
      invariant outputElements == ListedControls(d, r, j)
    {
      ghost var listed;
      accepted, outputElements, output, listed := Visit(d, r, j, accepted, outputElements, output, Listed(d, r, j));
      j := j + 1;
    }
  }


  /** The loop over the matches of one selector: the first visible one with text. */
  method FirstModal(d: Dom, sel: nat) returns (hit: Option<nat>)
    ensures hit == FirstCandidate(d, sel)
  {
    var m := 0;
    while m < |d|
      invariant m <= |d|
      invariant FirstCandidate(d, sel) == FirstWhere(|d|, m, CandidateFor(d, sel))
    {
      if Candidate(d, sel, m) {
        assert CandidateFor(d, sel)(m);
        return Some(m);
      }
      assert !CandidateFor(d, sel)(m);
      m := m + 1;
    }
    return None;
  }

  /**
   * One round of the selector loop: either a modal other than the body settles
   * the root, or the search goes on with the next selector.
   */
  method SelectorRound(doc: Document, ghost hit: nat -> Option<nat>, sel: nat, banner: bool) returns (found: Option<nat>, banner': bool)
    requires sel < ModalSelectorCount && hit(sel) == FirstCandidate(doc.nodes, sel)
    ensures found.Some? ==> found.value < |doc.nodes| && RootFrom(hit, doc.body, sel, banner) == Root(found.value, true)
    ensures found.None? ==> RootFrom(hit, doc.body, sel, banner) == RootFrom(hit, doc.body, sel + 1, banner')
  {
    var first := FirstModal(doc.nodes, sel);
    banner' := banner;
    found := None;
    if first.Some? {
      if first.value != doc.body {
        found := first;
      } else {
        banner' := true;
      }
    }
  }

  /**
   * The selector loop, given that `hit` gives each selector's first candidate:
   * the first visible modal with text, under the body rule of `RootFrom`.
   */
  method SelectorLoop(doc: Document, ghost hit: nat -> Option<nat>) returns (root: nat, banner: bool)
    requires doc.body < |doc.nodes|
    requires forall s: nat {:trigger FirstCandidate(doc.nodes, s)} :: hit(s) == FirstCandidate(doc.nodes, s)
    ensures root < |doc.nodes|
    ensures Root(root, banner) == RootFrom(hit, doc.body, 0, false)
  {
    root, banner := doc.body, false;
    var sel := 0;
    var done := false;
    while sel < ModalSelectorCount && !done
      invariant sel <= ModalSelectorCount && root < |doc.nodes|
      invariant RootFrom(hit, doc.body, 0, false) == if done then Root(root, banner) else RootFrom(hit, doc.body, sel, banner)
      invariant !done ==> root == doc.body
    {
      var found;
      found, banner := SelectorRound(doc, hit, sel, banner);
      if found.Some? {
        root, banner, done := found.value, true, true;
      }
      sel := sel + 1;
    }
  }

  /** `PickRoot`: the selector loop over the document's own first candidates. */
  method PickRoot(doc: Document) returns (root: nat, banner: bool)
    requires doc.body < |doc.nodes|
    ensures root < |doc.nodes|
    ensures root == ChooseRoot(doc).node
    ensures banner == ChooseRoot(doc).banner
  {
    root, banner := SelectorLoop(doc, FirstHits(doc.nodes));
  }

  /** The whole script: choose the root, walk it, join the lines. */
  method RunScript(doc: Document) returns (tree: string)
    requires WellFormedDocument(doc)
    ensures tree == Script(doc)
  {
    var root, banner := PickRoot(doc);
    var lines := Traverse(doc.nodes, root);
    tree := (if banner then ModalBanner else "") + Join(lines, "\n");
  }

  /** `get_page_accessibility_tree`: evaluation may fail with a message; otherwise the listing is truncated. */
  method GetPageAccessibilityTree(evaluated: Result<Document, string>, maxLength: int) returns (r: string)
    requires evaluated.Ok? ==> WellFormedDocument(evaluated.value)
    ensures r == TreeText(evaluated, maxLength)
  {
    match evaluated
    case Err(e) =>
      r := ErrorPrefix + e;
    case Ok(doc) =>
      var tree := RunScript(doc);
      if |tree| > maxLength {
        r := PyHead(tree, maxLength) + TruncationMark;
      } else {
        r := tree;
      }
  }
}
