/**
 * The orchestrator (src/agents/orchestrator_agent.py): selector
 * normalisation and repair, the media-playback guardrail, and `create_plan`,
 * which turns the planner client's steps into validated `ActionStep`s.
 * Python's regular expressions are written out as scanners.
 */
module Orchestrator {
  import opened Wrappers
  import opened Text
  import opened Json
  import opened MessageProtocol
  import opened LlmClient

  // ---------------------------------------------------------------------
  // normalize_selector
  // ---------------------------------------------------------------------

  /** `f'{k}="{v}"'`. */
  function PairText(k: string, v: Json): string {
    k + "=\"" + PyStr(v) + "\""
  }

  /** The `k="v"` texts of the entries whose value is not None, in dict order. */
  function NonNullPairs(fields: seq<(string, Json)>): seq<string>
    decreases |fields|
  {
    if fields == [] then []
    else (if fields[0].1.JNull? then [] else [PairText(fields[0].0, fields[0].1)]) + NonNullPairs(fields[1..])
  }

  /** The pairs follow dict order: those of a concatenation are the concatenated pairs. */
  lemma {:induction false} NonNullPairsAppend(a: seq<(string, Json)>, b: seq<(string, Json)>)
    ensures NonNullPairs(a + b) == NonNullPairs(a) + NonNullPairs(b)
    decreases |a|
  {
    if a == [] {
      assert a + b == b;
    } else {
      assert (a + b)[1..] == a[1..] + b;
      NonNullPairsAppend(a[1..], b);
    }
  }

  /** An entry whose value is None contributes nothing. */
  lemma NullEntryLeftOut(a: seq<(string, Json)>, k: string, b: seq<(string, Json)>)
    ensures NonNullPairs(a + [(k, JNull)] + b) == NonNullPairs(a) + NonNullPairs(b)
  {
    var single := [(k, JNull)];
    assert NonNullPairs(single) == [] by {
      assert single[1..] == [];
    }
    NonNullPairsAppend(a, single);
    assert NonNullPairs(a + single) == NonNullPairs(a);
    NonNullPairsAppend(a + single, b);
  }

  /** Without None values, there is one pair per entry, in dict order. */
  lemma {:induction false} NonNullPairsAll(fields: seq<(string, Json)>)
    requires forall i :: 0 <= i < |fields| ==> !fields[i].1.JNull?
    ensures |NonNullPairs(fields)| == |fields|
    ensures forall i :: 0 <= i < |fields| ==> NonNullPairs(fields)[i] == PairText(fields[i].0, fields[i].1)
    decreases |fields|
  {
    if fields != [] {
      NonNullPairsAll(fields[1..]);
    }
  }

  /** `normalize_selector`: a selector value as the string Playwright is given, or None. */
  function NormalizeSelector(sel: Json): (r: Option<string>)
    ensures !Truthy(sel) ==> r.None?
    ensures sel.JStr? && sel.s != [] ==> r == Some(sel.s)
    ensures !sel.JStr? && !sel.JObj? ==> r.None?
    ensures sel.JObj? && |sel.fields| == 1 && sel.fields[0].1.JNull? ==> r.None?
    ensures sel.JObj? && |sel.fields| == 1 && !sel.fields[0].1.JNull? ==> r == Some(PairText(sel.fields[0].0, sel.fields[0].1))
    ensures sel.JObj? && |sel.fields| > 1 ==> r == Some(Join(NonNullPairs(sel.fields), " "))
  {
    if !Truthy(sel) then None
    else match sel
      case JStr(s) => Some(s)
      case JObj(f) =>
        if |f| == 1 then
          if f[0].1.JNull? then None else Some(PairText(f[0].0, f[0].1))
        else Some(Join(NonNullPairs(f), " "))
      case _ => None
  }

  // ---------------------------------------------------------------------
  // clean_selector
  // ---------------------------------------------------------------------

  const TextPrefix := "text="
  const InputValuePrefix := "input[value="
  /** The two XPath-style heads, in the order they are tried. */
  const TextCallHead := "[text()"
  const TextHead := "[text"

  predicate IsNotLineFeed(c: char) { c != '\n' }

  /** The end of the line that starts at `from`: the first line feed at or after it, or the end of `s`. */
  function LineEnd(s: string, from: nat): (e: nat)
    requires from <= |s|
    ensures from <= e <= |s|
    ensures forall j :: from <= j < e ==> s[j] != '\n'
    ensures e == |s| || s[e] == '\n'
  {
    SpanEnd(s, from, IsNotLineFeed)
  }

  /** The line end is the one position with its two properties. */
  lemma LineEndIs(s: string, from: nat, e: nat)
    requires from <= e <= |s|
    requires forall j :: from <= j < e ==> s[j] != '\n'
    requires e == |s| || s[e] == '\n'
    ensures LineEnd(s, from) == e
  {
    SpanEndIs(s, from, IsNotLineFeed, e);
  }

  /** The last `]` in `s[lo..hi]`. */
  function LastCloseBracket(s: string, lo: nat, hi: nat): (r: Option<nat>)
    requires lo <= hi <= |s|
    decreases hi - lo
    ensures r.Some? ==> lo <= r.value < hi && s[r.value] == ']' && forall j :: r.value < j < hi ==> s[j] != ']'
    ensures r.None? ==> forall j :: lo <= j < hi ==> s[j] != ']'
  {
    if hi == lo then None
    else if s[hi - 1] == ']' then Some(hi - 1)
    else LastCloseBracket(s, lo, hi - 1)
  }

  /** `j` is the last `]` on the line that follows the `input[value=` prefix. */
  predicate GroupClose(s: string, j: nat)
    requires StartsWith(s, InputValuePrefix)
  {
    var e := LineEnd(s, |InputValuePrefix|);
    |InputValuePrefix| <= j < e && s[j] == ']' && forall k :: j < k < e ==> s[k] != ']'
  }

  /**
   * `re.match(r"input\[value=(.*)\]", s).group(1)`: the greedy group runs to
   * the last `]` before the first line feed.
   */
  function InputValueGroup(s: string): (r: Option<string>)
    ensures r.Some? ==> StartsWith(s, InputValuePrefix)
  {
    if !StartsWith(s, InputValuePrefix) then None
    else match LastCloseBracket(s, |InputValuePrefix|, LineEnd(s, |InputValuePrefix|))
      case None => None
      case Some(j) => Some(s[|InputValuePrefix|..j])
  }

  /**
   * The pattern matches exactly when the selector starts with `input[value=`
   * and a `]` follows on the same line; the group is the text up to the last
   * such `]`.
   */
  lemma InputValueGroupMatches(s: string)
    ensures InputValueGroup(s).Some? <==>
              StartsWith(s, InputValuePrefix) &&
              exists j :: |InputValuePrefix| <= j < LineEnd(s, |InputValuePrefix|) && s[j] == ']'
    ensures InputValueGroup(s).Some? ==>
              exists j: nat :: GroupClose(s, j) && InputValueGroup(s).value == s[|InputValuePrefix|..j]
  {
    if StartsWith(s, InputValuePrefix) {
      var n := |InputValuePrefix|;
      match LastCloseBracket(s, n, LineEnd(s, n))
      case None =>
      case Some(j) =>
        assert GroupClose(s, j);
    }
  }

  /** The group ends at the last `]` of the line. */
  lemma InputValueGroupAt(s: string, j: nat)
    requires StartsWith(s, InputValuePrefix) && GroupClose(s, j)
    ensures InputValueGroup(s) == Some(s[|InputValuePrefix|..j])
  {
    LastCloseBracketIs(s, |InputValuePrefix|, LineEnd(s, |InputValuePrefix|), j);
  }

  /** The last `]` of a range is the one with no `]` after it. */
  lemma LastCloseBracketIs(s: string, lo: nat, hi: nat, j: nat)
    requires lo <= j < hi <= |s| && s[j] == ']'
    requires forall k :: j < k < hi ==> s[k] != ']'
    ensures LastCloseBracket(s, lo, hi) == Some(j)
    decreases hi - lo
  {
    if hi - 1 != j {
      LastCloseBracketIs(s, lo, hi - 1, j);
    }
  }

  predicate IsQuote(c: char) { c == '\'' || c == '"' }
  predicate IsNotQuote(c: char) { !IsQuote(c) }

  /**
   * A match of `head\s*=\s*['"]([^'"]+)['"]\]` starting at `i`: the bounds
   * of the group and the end of the match.
   */
  function XPathMatch(s: string, head: string, i: nat): (r: Option<(nat, nat, nat)>)
    ensures r.Some? ==> OccursAt(s, head, i)
    ensures r.Some? ==> i + |head| < r.value.0 < r.value.1 < r.value.2 <= |s| && r.value.2 == r.value.1 + 2
    ensures r.Some? ==> IsQuote(s[r.value.0 - 1]) && IsQuote(s[r.value.1]) && s[r.value.1 + 1] == ']'
    ensures r.Some? ==> forall j :: r.value.0 <= j < r.value.1 ==> IsNotQuote(s[j])
  {
    if !OccursAt(s, head, i) then None
    else
      var eq := SpanEnd(s, i + |head|, IsSpace);
      if eq == |s| || s[eq] != '=' then None
      else
        var q := SpanEnd(s, eq + 1, IsSpace);
        if q == |s| || !IsQuote(s[q]) then None
        else
          var b := SpanEnd(s, q + 1, IsNotQuote);
          if b == q + 1 || b + 1 >= |s| || s[b + 1] != ']' then None
          else Some((q + 1, b, b + 2))
  }

  /** The first position at or after `from` where the pattern with this head matches. */
  function FindXPath(s: string, head: string, from: nat): (r: Option<nat>)
    decreases |s| - from
    ensures r.Some? ==> from <= r.value && XPathMatch(s, head, r.value).Some?
    ensures r.None? ==> forall j :: from <= j ==> XPathMatch(s, head, j).None?
  {
    if from >= |s| then
      assert forall j :: from <= j ==> !OccursAt(s, head, j) || head == [];
      if head == [] && XPathMatch(s, head, from).Some? then Some(from) else None
    else if XPathMatch(s, head, from).Some? then Some(from)
    else FindXPath(s, head, from + 1)
  }

  /** The replacement `:has-text("x")` for a matched group `x`. */
  function HasText(x: string): string {
    ":has-text(\"" + x + "\")"
  }

  /** `re.sub(pattern, r':has-text("\1")', s[i..])`: every match, scanning left to right, replaced by its group in `:has-text`. */
  function ReplaceXPath(s: string, head: string, i: nat): string
    requires i <= |s|
    decreases |s| - i
  {
    if i == |s| then []
    else match XPathMatch(s, head, i)
      case Some((c0, c1, e)) => HasText(s[c0..c1]) + ReplaceXPath(s, head, e)
      case None => [s[i]] + ReplaceXPath(s, head, i + 1)
  }

  /**
   * `clean_selector`: `text=` values are re-quoted, `input[value=...]` values
   * re-quoted, and XPath-style `[text()='x']` or `[text='x']` rewritten to
   * `:has-text("x")` (the first head that matches anywhere wins, and all its
   * matches are rewritten); every other selector, and a falsy one, is kept.
   */
  function CleanSelector(sel: Option<string>): (r: Option<string>)
    ensures sel.None? ==> r.None?
    ensures sel == Some([]) ==> r == sel
    ensures r.Some? ==> sel.Some?
  {
    match sel
    case None => None
    case Some(s) =>
      if s == [] then sel
      else if StartsWith(s, TextPrefix) then Some("text=\"" + StripQuotes(s[|TextPrefix|..]) + "\"")
      else match InputValueGroup(s)
        case Some(g) => Some("input[value='" + StripQuotes(g) + "']")
        case None =>
          if FindXPath(s, TextCallHead, 0).Some? then Some(ReplaceXPath(s, TextCallHead, 0))
          else if FindXPath(s, TextHead, 0).Some? then Some(ReplaceXPath(s, TextHead, 0))
          else sel
  }

  /** A `text=` selector becomes `text="V"`, V being the value with blanks and outer quotes stripped. */
  lemma CleanTextSelector(v: string)
    ensures CleanSelector(Some(TextPrefix + v)) == Some("text=\"" + StripQuotes(v) + "\"")
  {
    var s := TextPrefix + v;
    assert s[..|TextPrefix|] == TextPrefix;
    assert s[|TextPrefix|..] == v;
  }

  /**
   * `input[value=X]...` becomes `input[value='X']`, X stripped of blanks and
   * outer quotes, where X runs to the last `]` of the line: `x` may hold `]`,
   * and `tail`'s line (`t1`) has no `]` of its own.
   */
  lemma CleanInputValueSelector(x: string, t1: string, t2: string)
    requires Lacks(x, '\n') && Lacks(t1, ']') && Lacks(t1, '\n')
    requires t2 == [] || t2[0] == '\n'
    ensures CleanSelector(Some(InputValuePrefix + x + "]" + t1 + t2))
            == Some("input[value='" + StripQuotes(x) + "']")
  {
    var s := InputValuePrefix + x + "]" + t1 + t2;
    InputValueSelectorGroup(x, t1, t2);
    CleanInputValueGroup(s, x);
  }

  /** The pattern's group in `input[value=X]T` is X, and the text does not start with `text=`. */
  lemma InputValueSelectorGroup(x: string, t1: string, t2: string)
    requires Lacks(x, '\n') && Lacks(t1, ']') && Lacks(t1, '\n')
    requires t2 == [] || t2[0] == '\n'
    ensures var s := InputValuePrefix + x + "]" + t1 + t2;
      s != [] && !StartsWith(s, TextPrefix) && InputValueGroup(s) == Some(x)
  {
    var s := InputValuePrefix + x + "]" + t1 + t2;
    var n := |InputValuePrefix|;
    var c := n + |x|;
    var e := c + 1 + |t1|;
    assert s[0] == 'i';
    assert s[..n] == InputValuePrefix;
    assert forall j :: n <= j < c ==> s[j] == x[j - n];
    assert s[c] == ']';
    assert forall j :: c < j < e ==> s[j] == t1[j - c - 1];
    assert e == |s| || s[e] == t2[0];
    LineEndIs(s, n, e);
    assert GroupClose(s, c);
    InputValueGroupAt(s, c);
    assert s[n..c] == x;
  }

  lemma CleanInputValueGroup(s: string, x: string)
    requires s != [] && !StartsWith(s, TextPrefix) && InputValueGroup(s) == Some(x)
    ensures CleanSelector(Some(s)) == Some("input[value='" + StripQuotes(x) + "']")
  {
  }

  /** Matching at `i` needs a `[` at `i`. */
  lemma NoMatchWithoutBracket(s: string, head: string, i: nat)
    requires head != [] && head[0] == '['
    requires i >= |s| || s[i] != '['
    ensures XPathMatch(s, head, i).None?
  {
  }

  /** A character other than `[` is copied by the rewrite. */
  lemma ReplaceStepPlain(s: string, head: string, i: nat)
    requires head != [] && head[0] == '['
    requires i < |s| && s[i] != '['
    ensures ReplaceXPath(s, head, i) == [s[i]] + ReplaceXPath(s, head, i + 1)
  {
    NoMatchWithoutBracket(s, head, i);
  }

  /** Text without `[` is copied through by the rewrite. */
  lemma {:induction false} ReplaceCopiesPlain(s: string, head: string, i: nat, j: nat)
    requires head != [] && head[0] == '['
    requires i <= j <= |s|
    requires forall k :: i <= k < j ==> s[k] != '['
    ensures ReplaceXPath(s, head, i) == s[i..j] + ReplaceXPath(s, head, j)
    decreases j - i
  {
    if i < j {
      ReplaceStepPlain(s, head, i);
      ReplaceCopiesPlain(s, head, i + 1, j);
      Prepend(s, i, j, ReplaceXPath(s, head, i), ReplaceXPath(s, head, i + 1), ReplaceXPath(s, head, j));
    }
  }

  /** One character put in front of a copied run. */
  lemma Prepend(s: string, i: nat, j: nat, ri: string, rn: string, rj: string)
    requires i < j <= |s|
    requires ri == [s[i]] + rn && rn == s[i + 1..j] + rj
    ensures ri == s[i..j] + rj
  {
    assert s[i..j] == [s[i]] + s[i + 1..j];
  }

  /** A selector with no `[` that is not a `text=` selector is kept as it is. */
  lemma CleanPlainSelector(s: string)
    requires s != [] && Lacks(s, '[') && !StartsWith(s, TextPrefix)
    ensures CleanSelector(Some(s)) == Some(s)
  {
    assert InputValueGroup(s).None? by {
      if StartsWith(s, InputValuePrefix) {
        assert s[5] == InputValuePrefix[5] == '[';
      }
    }
    forall j | 0 <= j
      ensures XPathMatch(s, TextCallHead, j).None? && XPathMatch(s, TextHead, j).None?
    {
      NoMatchWithoutBracket(s, TextCallHead, j);
      NoMatchWithoutBracket(s, TextHead, j);
    }
  }

  /** The characters of `pre + head + mid` at which `[` occurs are exactly position `|pre|`. */
  lemma OnlyBracketAt(pre: string, head: string, mid: string, s: string)
    requires s == pre + head + mid
    requires Lacks(pre, '[') && Lacks(mid, '[') && head != [] && head[0] == '[' && Lacks(head[1..], '[')
    ensures forall k :: 0 <= k < |s| && s[k] == '[' ==> k == |pre|
  {
    forall k | 0 <= k < |s| && k != |pre|
      ensures s[k] != '['
    {
      if k < |pre| {
        assert s[k] == pre[k];
      } else if k < |pre| + |head| {
        assert s[k] == head[1..][k - |pre| - 1];
      } else {
        assert s[k] == mid[k - |pre| - |head|];
      }
    }
  }

  /** The pattern matches at `i` when the head is followed directly by `=`, a quote, a non-empty quote-free group, a quote and `]`. */
  lemma XPathMatchAt(s: string, head: string, i: nat, n: nat)
    requires OccursAt(s, head, i)
    requires i + |head| + n + 3 < |s| && n > 0
    requires s[i + |head|] == '=' && IsQuote(s[i + |head| + 1])
    requires forall j :: i + |head| + 2 <= j < i + |head| + 2 + n ==> IsNotQuote(s[j])
    requires IsQuote(s[i + |head| + 2 + n]) && s[i + |head| + 3 + n] == ']'
    ensures var c0 := i + |head| + 2;
      XPathMatch(s, head, i) == Some((c0, c0 + n, c0 + n + 2))
  {
    var a := i + |head|;
    SpanEndIs(s, a, IsSpace, a);
    SpanEndIs(s, a + 1, IsSpace, a + 1);
    SpanEndIs(s, a + 2, IsNotQuote, a + 2 + n);
  }

  /** The match at `|pre|` of `pre + head + "='" + x + "']" + post`, and its group. */
  lemma QuotedXPathMatch(pre: string, head: string, x: string, post: string, s: string)
    requires head != [] && s == pre + head + "='" + x + "']" + post
    requires x != [] && forall k :: 0 <= k < |x| ==> IsNotQuote(x[k])
    ensures var c0 := |pre| + |head| + 2;
      XPathMatch(s, head, |pre|) == Some((c0, c0 + |x|, c0 + |x| + 2)) && s[c0..c0 + |x|] == x
  {
    var a := |pre| + |head|;
    var c0 := a + 2;
    assert s[|pre|..a] == head;
    assert s[a] == '=' && s[a + 1] == '\'';
    forall j | c0 <= j < c0 + |x|
      ensures IsNotQuote(s[j])
    {
      assert s[j] == x[j - c0];
    }
    assert s[c0 + |x|] == '\'' && s[c0 + |x| + 1] == ']';
    XPathMatchAt(s, head, |pre|, |x|);
    assert s[c0..c0 + |x|] == x;
  }

  /** One XPath-style `[text()='x']` in an otherwise bracket-free selector becomes `:has-text("x")`. */
  lemma CleanTextCallSelector(pre: string, x: string, post: string)
    requires Lacks(pre, '[') && Lacks(post, '[') && Lacks(x, '[')
    requires x != [] && forall k :: 0 <= k < |x| ==> IsNotQuote(x[k])
    requires !StartsWith(pre + TextCallHead + "='" + x + "']" + post, TextPrefix)
    ensures CleanSelector(Some(pre + TextCallHead + "='" + x + "']" + post)) == Some(pre + HasText(x) + post)
  {
    var s := pre + TextCallHead + "='" + x + "']" + post;
    XPathRewritten(pre, TextCallHead, x, post, s);
  }

  /** One XPath-style `[text='x']` in an otherwise bracket-free selector becomes `:has-text("x")`. */
  lemma CleanTextAttributeSelector(pre: string, x: string, post: string)
    requires Lacks(pre, '[') && Lacks(post, '[') && Lacks(x, '[')
    requires x != [] && forall k :: 0 <= k < |x| ==> IsNotQuote(x[k])
    requires !StartsWith(pre + TextHead + "='" + x + "']" + post, TextPrefix)
    ensures CleanSelector(Some(pre + TextHead + "='" + x + "']" + post)) == Some(pre + HasText(x) + post)
  {
    var s := pre + TextHead + "='" + x + "']" + post;
    XPathRewritten(pre, TextHead, x, post, s);
  }

  lemma XPathRewritten(pre: string, head: string, x: string, post: string, s: string)
    requires head == TextCallHead || head == TextHead
    requires s == pre + head + "='" + x + "']" + post
    requires Lacks(pre, '[') && Lacks(post, '[') && Lacks(x, '[')
    requires x != [] && forall k :: 0 <= k < |x| ==> IsNotQuote(x[k])
    requires !StartsWith(s, TextPrefix)
    ensures CleanSelector(Some(s)) == Some(pre + HasText(x) + post)
  {
    var p := |pre|;
    XPathShape(pre, head, x, post, s);
    NotInputValue(s, p);
    RewriteWhole(pre, head, x, post, s);
    assert FindXPath(s, head, 0).Some? by {
      assert XPathMatch(s, head, p).Some?;
    }
    if head == TextHead {
      NoTextCallMatch(s, p);
    }
  }

  /** Where the brackets, the match and the surrounding text sit in `pre + head + "='" + x + "']" + post`. */
  lemma XPathShape(pre: string, head: string, x: string, post: string, s: string)
    requires head == TextCallHead || head == TextHead
    requires s == pre + head + "='" + x + "']" + post
    requires Lacks(pre, '[') && Lacks(post, '[') && Lacks(x, '[')
    requires x != [] && forall k :: 0 <= k < |x| ==> IsNotQuote(x[k])
    ensures var p := |pre|;
      && p + |head| + |x| + 4 <= |s|
      && s[p] == '[' && s[p + 1] == 't' && (head == TextHead ==> s[p + 5] == '=')
      && (forall k :: 0 <= k < |s| && k != p ==> s[k] != '[')
  {
    var mid := "='" + x + "']" + post;
    assert s == pre + head + mid;
    forall k | 0 <= k < |mid|
      ensures mid[k] != '['
    {
      if 2 <= k < 2 + |x| {
        assert mid[k] == x[k - 2];
      } else if k >= |x| + 4 {
        assert mid[k] == post[k - |x| - 4];
      }
    }
    OnlyBracketAt(pre, head, mid, s);
  }

  /** A selector whose one `[` is followed by `t` is not an `input[value=` selector. */
  lemma NotInputValue(s: string, p: nat)
    requires p + 1 < |s| && s[p] == '[' && s[p + 1] == 't'
    requires forall k :: 0 <= k < |s| && k != p ==> s[k] != '['
    ensures !StartsWith(s, InputValuePrefix)
  {
    if p == 5 {
      assert s[6] != 'v';
    } else {
      assert |s| <= 5 || s[5] != '[';
    }
    if |s| >= 12 {
      assert s[..12][5] == s[5] && s[..12][6] == s[6];
    }
  }

  /** The rewrite of `pre + head + "='" + x + "']" + post`. */
  lemma RewriteWhole(pre: string, head: string, x: string, post: string, s: string)
    requires head == TextCallHead || head == TextHead
    requires s == pre + head + "='" + x + "']" + post
    requires Lacks(pre, '[') && Lacks(post, '[') && Lacks(x, '[')
    requires x != [] && forall k :: 0 <= k < |x| ==> IsNotQuote(x[k])
    ensures XPathMatch(s, head, |pre|).Some?
    ensures ReplaceXPath(s, head, 0) == pre + HasText(x) + post
  {
    var p := |pre|;
    var e := p + |head| + |x| + 4;
    var front := pre + head + "='" + x + "']";
    assert s == front + post && |front| == e;
    assert s[..p] == pre;
    assert s[e..] == post;
    QuotedXPathMatch(pre, head, x, post, s);
    MatchThenTail(s, head, p, x, post, p + |head| + 2, e);
    HeadCopied(s, head, pre);
    Chain(ReplaceXPath(s, head, 0), ReplaceXPath(s, head, p), pre, HasText(x), post);
  }

  /** From the match at `p` on, the rewrite is the replacement followed by the copied tail. */
  lemma MatchThenTail(s: string, head: string, p: nat, x: string, post: string, c0: nat, e: nat)
    requires head != [] && head[0] == '['
    requires p < c0 && c0 + |x| + 2 == e <= |s|
    requires s[e..] == post && Lacks(post, '[')
    requires XPathMatch(s, head, p) == Some((c0, c0 + |x|, e)) && s[c0..c0 + |x|] == x
    ensures ReplaceXPath(s, head, p) == HasText(x) + post
  {
    RewriteAtQuoted(s, head, p, c0, x, e);
    TailCopied(s, head, e, post);
  }

  /** Three pieces put back together. */
  lemma Chain(r0: string, rp: string, pre: string, rep: string, post: string)
    requires r0 == pre + rp && rp == rep + post
    ensures r0 == pre + rep + post
  {
  }

  /** Bracket-free text before position `|pre|` is copied through. */
  lemma HeadCopied(s: string, head: string, pre: string)
    requires head != [] && head[0] == '['
    requires |pre| <= |s| && s[..|pre|] == pre && Lacks(pre, '[')
    ensures ReplaceXPath(s, head, 0) == pre + ReplaceXPath(s, head, |pre|)
  {
    var p := |pre|;
    forall k | 0 <= k < p
      ensures s[k] != '['
    {
      assert s[k] == pre[k];
    }
    ReplaceCopiesPlain(s, head, 0, p);
    assert s[0..p] == pre;
  }

  /** Text after position `e`, without `[`, is copied through. */
  lemma TailCopied(s: string, head: string, e: nat, post: string)
    requires e <= |s| && s[e..] == post && Lacks(post, '[')
    requires head != [] && head[0] == '['
    ensures ReplaceXPath(s, head, e) == post
  {
    forall k | e <= k < |s|
      ensures s[k] != '['
    {
      assert s[k] == post[k - e];
    }
    ReplaceCopiesPlain(s, head, e, |s|);
    assert s[e..|s|] == post;
    assert ReplaceXPath(s, head, |s|) == [];
    assert post + [] == post;
  }

  /** At a match whose group is `x`, the rewrite emits `:has-text("x")`. */
  lemma RewriteAtQuoted(s: string, head: string, p: nat, c0: nat, x: string, e: nat)
    requires p < |s| && XPathMatch(s, head, p) == Some((c0, c0 + |x|, e))
    requires c0 + |x| <= |s| && s[c0..c0 + |x|] == x
    ensures ReplaceXPath(s, head, p) == HasText(x) + ReplaceXPath(s, head, e)
  {
    ReplaceAtMatch(s, head, p);
    var m := XPathMatch(s, head, p).value;
    assert m.0 == c0 && m.1 == c0 + |x| && m.2 == e;
    assert s[m.0..m.1] == x;
  }

  /** The rewrite at a match: the group in `:has-text`, then the rest of the text rewritten. */
  lemma ReplaceAtMatch(s: string, head: string, i: nat)
    requires i < |s| && XPathMatch(s, head, i).Some?
    ensures var m := XPathMatch(s, head, i).value;
      ReplaceXPath(s, head, i) == HasText(s[m.0..m.1]) + ReplaceXPath(s, head, m.2)
  {
  }

  /** With its one `[` followed by `text=`, a selector has no `[text()` match. */
  lemma NoTextCallMatch(s: string, p: nat)
    requires p + 5 < |s| && s[p + 5] == '='
    requires forall k :: 0 <= k < |s| && k != p ==> s[k] != '['
    ensures forall j :: 0 <= j ==> XPathMatch(s, TextCallHead, j).None?
  {
    forall j | 0 <= j
      ensures XPathMatch(s, TextCallHead, j).None?
    {
      if j == p {
        assert !OccursAt(s, TextCallHead, j) by {
          if j + 7 <= |s| {
            assert s[j..j + 7][5] == s[p + 5];
          }
        }
      } else {
        NoMatchWithoutBracket(s, TextCallHead, j);
      }
    }
  }

  // ---------------------------------------------------------------------
  // The media-playback guardrail
  // ---------------------------------------------------------------------

  const MediaWords: seq<string> := ["play", "watch", "listen", "music", "video"]
  const PagePrefix := "Current Page: "
  const WatchPath := "youtube.com/watch"

  /** The lower-cased task mentions playback. */
  predicate IsMediaTask(task: string) {
    exists k :: k in MediaWords && Contains(Lower(task), k)
  }

  predicate IsNotCloseParen(c: char) { c != ')' }

  /** The length of the scheme `https?://` at `i`, or 0 when there is none. */
  function SchemeLength(s: string, i: nat): (n: nat)
    ensures n == 8 ==> OccursAt(s, "https://", i)
    ensures n == 7 ==> OccursAt(s, "http://", i) && !OccursAt(s, "https://", i)
    ensures n == 0 ==> !OccursAt(s, "https://", i) && !OccursAt(s, "http://", i)
    ensures n == 0 || n == 7 || n == 8
  {
    if OccursAt(s, "https://", i) then 8 else if OccursAt(s, "http://", i) then 7 else 0
  }

  /** A match of ` \((https?://[^\)]+)\)` whose space is at `q`: the end of its group. */
  function UrlGroupEnd(s: string, q: nat): (r: Option<nat>)
    ensures r.Some? ==> q + 2 + SchemeLength(s, q + 2) < r.value < |s| && SchemeLength(s, q + 2) > 0
    ensures r.Some? ==> s[q] == ' ' && s[q + 1] == '('
    ensures r.Some? ==> s[r.value] == ')' && forall j :: q + 2 <= j < r.value ==> s[j] != ')'
  {
    if q + 1 >= |s| || s[q] != ' ' || s[q + 1] != '(' then None
    else
      var n := SchemeLength(s, q + 2);
      if n == 0 then None
      else
        var a := q + 2 + n;
        var b := SpanEnd(s, a, IsNotCloseParen);
        if b == a || b == |s| then None
        else
          SchemeHasNoParen(s, q + 2);
          Some(b)
  }

  /** A scheme `https?://` holds no `)`. */
  lemma SchemeHasNoParen(s: string, i: nat)
    requires SchemeLength(s, i) > 0
    ensures forall j :: i <= j < i + SchemeLength(s, i) ==> s[j] != ')'
  {
    var n := SchemeLength(s, i);
    var scheme := if n == 8 then "https://" else "http://";
    assert s[i..i + n] == scheme;
    forall j | i <= j < i + n
      ensures s[j] != ')'
    {
      assert s[j] == scheme[j - i];
    }
  }

  /** The last space position in `[lo, hi)` at which the URL group matches, with the group's end. */
  function LastUrlMatch(s: string, lo: nat, hi: nat): (r: Option<(nat, nat)>)
    decreases hi - lo
    ensures r.Some? ==> lo <= r.value.0 < hi && UrlGroupEnd(s, r.value.0) == Some(r.value.1)
  {
    if hi <= lo then None
    else match UrlGroupEnd(s, hi - 1)
      case Some(e) => Some((hi - 1, e))
      case None => LastUrlMatch(s, lo, hi - 1)
  }

  /**
   * `re.search(r"Current Page: .* \((https?://[^\)]+)\)", s[from..]).group(1)`:
   * the leftmost `Current Page: ` with a match on its line, and there the
   * last ` (` that opens one, as the greedy `.*` leaves it.
   */
  function PageUrlFrom(s: string, from: nat): (r: Option<string>)
    requires from <= |s|
    decreases |s| - from
  {
    match IndexOfFrom(s, PagePrefix, from)
    case None => None
    case Some(p) =>
      match UrlOnLine(s, p + |PagePrefix|)
      case Some(u) => Some(u)
      case None => PageUrlFrom(s, p + 1)
  }

  /** The group of the last URL match on the line that starts at `lo`, if any. */
  function UrlOnLine(s: string, lo: nat): Option<string>
    requires lo <= |s|
  {
    var m := LastUrlMatch(s, lo, LineEnd(s, lo));
    if m.Some? then Some(s[m.value.0 + 2..m.value.1]) else None
  }

  /** The group read off a line whose end and last match are known. */
  lemma UrlOnLineIs(s: string, lo: nat, hi: nat, q: nat, e: nat)
    requires lo <= |s| && LineEnd(s, lo) == hi
    requires LastUrlMatch(s, lo, hi) == Some((q, e))
    ensures q + 2 <= e <= |s| && UrlOnLine(s, lo) == Some(s[q + 2..e])
  {
    var m := LastUrlMatch(s, lo, LineEnd(s, lo));
    assert m == Some((q, e));
    assert UrlGroupEnd(s, q) == Some(e);
  }

  /** The guardrail fires: an observation, a media task, and a YouTube watch page. */
  predicate GuardrailFires(task: string, observation: Option<string>) {
    && observation.Some? && observation.value != []
    && IsMediaTask(task)
    && match PageUrlFrom(observation.value, 0)
       case Some(u) => Contains(u, WatchPath)
       case None => false
  }

  /** The plan the guardrail returns: no steps, marked as a successful plan from the guardrail. */
  function GuardrailPlan(): Plan {
    Plan([], Some("GUARDRAIL: Media playback detected."), Some("system-guardrail"), true)
  }

  /** Candidates above `hi` that do not match do not change the last match. */
  lemma {:induction false} LastUrlSkip(s: string, lo: nat, mid: nat, hi: nat)
    requires lo <= mid <= hi
    requires forall q :: mid <= q < hi ==> UrlGroupEnd(s, q).None?
    ensures LastUrlMatch(s, lo, hi) == LastUrlMatch(s, lo, mid)
    decreases hi - mid
  {
    if mid < hi {
      LastUrlStep(s, lo, hi);
      LastUrlSkip(s, lo, mid, hi - 1);
    }
  }

  /** A candidate that does not match is passed over. */
  lemma LastUrlStep(s: string, lo: nat, hi: nat)
    requires lo < hi && UrlGroupEnd(s, hi - 1).None?
    ensures LastUrlMatch(s, lo, hi) == LastUrlMatch(s, lo, hi - 1)
  {
  }

  /**
   * The page line the executor writes, `Current Page: title (url)`, yields
   * `url` when the title has no line break and the URL is an http(s) URL
   * without spaces, line breaks or `)`.
   */
  lemma ObservedPageUrl(title: string, url: string, rest: string)
    requires Lacks(title, '\n')
    requires Lacks(url, ' ') && Lacks(url, ')') && Lacks(url, '\n')
    requires (StartsWith(url, "https://") && |url| > 8) || (StartsWith(url, "http://") && |url| > 7)
    requires rest == [] || rest[0] == '\n'
    ensures PageUrlFrom(PagePrefix + title + " (" + url + ")" + rest, 0) == Some(url)
  {
    var s := PagePrefix + title + " (" + url + ")" + rest;
    PageLineShape(title, url, rest, s);
    UrlOnPageLine(s, |PagePrefix| + |title|, url);
  }

  /** Where the prefix, the ` (`, the URL and the line break sit in a page line. */
  lemma PageLineShape(title: string, url: string, rest: string, s: string)
    requires s == PagePrefix + title + " (" + url + ")" + rest
    requires Lacks(title, '\n') && Lacks(url, ' ') && Lacks(url, '\n')
    requires rest == [] || rest[0] == '\n'
    ensures var q0 := |PagePrefix| + |title|; var close := q0 + 2 + |url|;
      && close < |s| && s[..|PagePrefix|] == PagePrefix
      && s[q0] == ' ' && s[q0 + 1] == '(' && s[q0 + 2..close] == url && s[close] == ')'
      && (forall j :: |PagePrefix| <= j <= close ==> s[j] != '\n')
      && (close + 1 == |s| || s[close + 1] == '\n')
      && (forall q :: q0 + 2 <= q < close ==> s[q] != ' ')
  {
    var lo := |PagePrefix|;
    var q0 := lo + |title|;
    var close := q0 + 2 + |url|;
    var front := PagePrefix + title + " (" + url + ")";
    assert s == front + rest && |front| == close + 1;
    assert s[..lo] == PagePrefix;
    assert s[q0 + 2..close] == url;
    forall j | lo <= j < q0
      ensures s[j] != '\n'
    {
      assert s[j] == title[j - lo];
    }
    forall j | q0 + 2 <= j < close
      ensures s[j] != '\n' && s[j] != ' '
    {
      assert s[j] == url[j - q0 - 2];
    }
    assert close + 1 == |s| || s[close + 1] == rest[0];
  }

  /** A page line `Current Page: ... (url)` at the start of `s` yields `url`. */
  lemma UrlOnPageLine(s: string, q0: nat, url: string)
    requires |PagePrefix| <= q0
    requires q0 + 2 + |url| < |s| && s[..|PagePrefix|] == PagePrefix
    requires s[q0] == ' ' && s[q0 + 1] == '(' && s[q0 + 2..q0 + 2 + |url|] == url && s[q0 + 2 + |url|] == ')'
    requires forall j :: |PagePrefix| <= j <= q0 + 2 + |url| ==> s[j] != '\n'
    requires q0 + 3 + |url| == |s| || s[q0 + 3 + |url|] == '\n'
    requires forall q :: q0 + 2 <= q < q0 + 2 + |url| ==> s[q] != ' '
    requires Lacks(url, ')')
    requires (StartsWith(url, "https://") && |url| > 8) || (StartsWith(url, "http://") && |url| > 7)
    ensures PageUrlFrom(s, 0) == Some(url)
  {
    var lo := |PagePrefix|;
    assert OccursAt(s, PagePrefix, 0);
    assert IndexOfFrom(s, PagePrefix, 0) == Some(0);
    LineUrl(s, q0, url);
    PageUrlFound(s, 0, 0, url);
  }

  /** The line after `Current Page: ` ends with ` (url)`: its last URL match is `url`. */
  lemma LineUrl(s: string, q0: nat, url: string)
    requires |PagePrefix| <= q0
    requires q0 + 2 + |url| < |s|
    requires s[q0] == ' ' && s[q0 + 1] == '(' && s[q0 + 2..q0 + 2 + |url|] == url && s[q0 + 2 + |url|] == ')'
    requires forall j :: |PagePrefix| <= j <= q0 + 2 + |url| ==> s[j] != '\n'
    requires q0 + 3 + |url| == |s| || s[q0 + 3 + |url|] == '\n'
    requires forall q :: q0 + 2 <= q < q0 + 2 + |url| ==> s[q] != ' '
    requires Lacks(url, ')')
    requires (StartsWith(url, "https://") && |url| > 8) || (StartsWith(url, "http://") && |url| > 7)
    ensures UrlOnLine(s, |PagePrefix|) == Some(url)
  {
    var lo := |PagePrefix|;
    LineEndIs(s, lo, q0 + 3 + |url|);
    LastUrlAt(s, lo, q0, url);
    UrlOnLineIs(s, lo, q0 + 3 + |url|, q0, q0 + 2 + |url|);
  }

  /** Before the `)` that closes it, ` (url` is the last URL match. */
  lemma LastUrlAt(s: string, lo: nat, q0: nat, url: string)
    requires lo <= q0 && q0 + 2 + |url| < |s|
    requires s[q0] == ' ' && s[q0 + 1] == '(' && s[q0 + 2..q0 + 2 + |url|] == url && s[q0 + 2 + |url|] == ')'
    requires forall q :: q0 + 2 <= q < q0 + 2 + |url| ==> s[q] != ' '
    requires Lacks(url, ')')
    requires (StartsWith(url, "https://") && |url| > 8) || (StartsWith(url, "http://") && |url| > 7)
    ensures LastUrlMatch(s, lo, q0 + 3 + |url|) == Some((q0, q0 + 2 + |url|))
  {
    var close := q0 + 2 + |url|;
    NoUrlAfter(s, q0, close);
    LastUrlSkip(s, lo, q0 + 1, close + 1);
    UrlGroupAt(s, q0, url);
  }

  /** No URL group opens inside or after the URL of a page line. */
  lemma NoUrlAfter(s: string, q0: nat, close: nat)
    requires q0 + 2 <= close < |s| && s[q0 + 1] == '(' && s[close] == ')'
    requires forall q :: q0 + 2 <= q < close ==> s[q] != ' '
    ensures forall q :: q0 < q < close + 1 ==> UrlGroupEnd(s, q).None?
  {
    forall q | q0 < q < close + 1
      ensures UrlGroupEnd(s, q).None?
    {
      assert s[q] != ' ';
    }
  }

  /** The URL is read at the first page line that has one. */
  lemma PageUrlFound(s: string, from: nat, p: nat, u: string)
    requires from <= |s| && IndexOfFrom(s, PagePrefix, from) == Some(p)
    requires p + |PagePrefix| <= |s| && UrlOnLine(s, p + |PagePrefix|) == Some(u)
    ensures PageUrlFrom(s, from) == Some(u)
  {
  }

  /** The scheme length at `i` is read off the text found there. */
  lemma SchemeOf(s: string, i: nat, url: string)
    requires i + |url| <= |s| && s[i..i + |url|] == url
    requires (StartsWith(url, "https://") && |url| > 8) || (StartsWith(url, "http://") && |url| > 7)
    ensures SchemeLength(s, i) == if StartsWith(url, "https://") then 8 else 7
    ensures 0 < SchemeLength(s, i) < |url|
  {
    forall j | 0 <= j < 8
      ensures s[i + j] == url[j]
    {
      assert s[i..i + |url|][j] == url[j];
    }
    assert s[i..i + 8] == url[..8];
    assert s[i..i + 7] == url[..7];
    if StartsWith(url, "https://") {
      assert OccursAt(s, "https://", i);
      assert url[4] == url[..8][4] == 's';
      assert !StartsWith(url, "http://") by {
        assert url[..7][4] == 's';
      }
    } else {
      assert url[..7] == "http://";
      assert url[4] == url[..7][4] == ':';
      assert !OccursAt(s, "https://", i) by {
        assert s[i..i + 8][4] == s[i + 4] == ':';
      }
      assert OccursAt(s, "http://", i);
    }
  }

  /** An http(s) URL without `)` between ` (` and `)` is the URL group there. */
  lemma UrlGroupAt(s: string, q: nat, url: string)
    requires q + 1 < |s| && s[q] == ' ' && s[q + 1] == '('
    requires q + 2 + |url| < |s| && s[q + 2..q + 2 + |url|] == url && s[q + 2 + |url|] == ')'
    requires Lacks(url, ')')
    requires (StartsWith(url, "https://") && |url| > 8) || (StartsWith(url, "http://") && |url| > 7)
    ensures UrlGroupEnd(s, q) == Some(q + 2 + |url|)
  {
    SchemeOf(s, q + 2, url);
    var n := SchemeLength(s, q + 2);
    var a := q + 2 + n;
    forall j | a <= j < q + 2 + |url|
      ensures IsNotCloseParen(s[j])
    {
      assert s[j] == s[q + 2..q + 2 + |url|][j - q - 2];
    }
    SpanEndIs(s, a, IsNotCloseParen, q + 2 + |url|);
  }

  /** A media task on a YouTube watch page, as the executor reports it, stops planning. */
  lemma GuardrailOnWatchPage(task: string, title: string, url: string, rest: string)
    requires IsMediaTask(task)
    requires Lacks(title, '\n')
    requires Lacks(url, ' ') && Lacks(url, ')') && Lacks(url, '\n')
    requires (StartsWith(url, "https://") && |url| > 8) || (StartsWith(url, "http://") && |url| > 7)
    requires Contains(url, WatchPath)
    requires rest == [] || rest[0] == '\n'
    ensures GuardrailFires(task, Some(PagePrefix + title + " (" + url + ")" + rest))
  {
    ObservedPageUrl(title, url, rest);
  }

  /** No observation, or a task that does not mention playback, never fires the guardrail. */
  lemma GuardrailNeedsMediaAndObservation(task: string, observation: Option<string>)
    requires observation.None? || observation == Some([]) || !IsMediaTask(task)
    ensures !GuardrailFires(task, observation)
  {
  }

  // ---------------------------------------------------------------------
  // create_plan
  // ---------------------------------------------------------------------

  const PlannerModel := "gemini-2.5-flash"

  /** The selector after `normalize_selector` and then `clean_selector`, stored back as None or a string. */
  function ProcessedSelector(sel: Json): (r: Json)
    ensures r.JNull? || r.JStr?
  {
    match CleanSelector(NormalizeSelector(sel))
    case None => JNull
    case Some(t) => JStr(t)
  }

  /** `dict(step)` with a truthy `selector` normalised and cleaned; nothing else changes. */
  function ProcessStep(step: Json): (r: Json)
    ensures step.JObj? ==> r.JObj? && forall k :: k != "selector" ==> Get(r.fields, k) == Get(step.fields, k) && HasKey(r.fields, k) == HasKey(step.fields, k)
    ensures step.JObj? && Truthy(Get(step.fields, "selector")) ==> Get(r.fields, "selector") == ProcessedSelector(Get(step.fields, "selector"))
    ensures !(step.JObj? && Truthy(Get(step.fields, "selector"))) ==> r == step
  {
    match step
    case JObj(f) =>
      if HasKey(f, "selector") && Truthy(Get(f, "selector")) then JObj(Set(f, "selector", ProcessedSelector(Get(f, "selector"))))
      else step
    case _ => step
  }

  const KnownFields: seq<string> := ["action", "url", "selector", "value", "name", "api_endpoint", "api_method", "payload"]

  /** The entries Pydantic keeps as extra fields, in order. */
  function Extras(fields: seq<(string, Json)>): (r: seq<(string, Json)>)
    decreases |fields|
    ensures forall i :: 0 <= i < |r| ==> r[i].0 !in KnownFields && r[i] in fields
  {
    if fields == [] then []
    else (if fields[0].0 in KnownFields then [] else [fields[0]]) + Extras(fields[1..])
  }

  predicate IsOptStr(v: Json) { v.JNull? || v.JStr? }

  function AsOptStr(v: Json): (r: Option<string>)
    ensures v.JStr? ==> r == Some(v.s)
    ensures !v.JStr? ==> r.None?
  {
    if v.JStr? then Some(v.s) else None
  }

  /** `ActionStep(**s)`: None when Pydantic rejects the step (not a dict, `action` not a string, a field of the wrong type). */
  function ToActionStep(step: Json): (r: Option<ActionStep>)
    ensures r.Some? ==> step.JObj? && Get(step.fields, "action") == JStr(r.value.action)
    ensures r.Some? ==> r.value.selector == AsOptStr(Get(step.fields, "selector"))
    ensures r.Some? ==> r.value.url == AsOptStr(Get(step.fields, "url")) && r.value.value == AsOptStr(Get(step.fields, "value"))
    ensures (&& step.JObj? && Get(step.fields, "action").JStr?
             && IsOptStr(Get(step.fields, "url")) && IsOptStr(Get(step.fields, "selector")) && IsOptStr(Get(step.fields, "value"))
             && IsOptStr(Get(step.fields, "name")) && IsOptStr(Get(step.fields, "api_endpoint")) && IsOptStr(Get(step.fields, "api_method"))
             && (Get(step.fields, "payload").JNull? || Get(step.fields, "payload").JObj?)) ==> r.Some?
  {
    match step
    case JObj(f) =>
      var action := Get(f, "action");
      var payload := Get(f, "payload");
      if !action.JStr? then None
      else if !(IsOptStr(Get(f, "url")) && IsOptStr(Get(f, "selector")) && IsOptStr(Get(f, "value"))
                && IsOptStr(Get(f, "name")) && IsOptStr(Get(f, "api_endpoint")) && IsOptStr(Get(f, "api_method"))) then None
      else if !(payload.JNull? || payload.JObj?) then None
      else Some(ActionStep(
        action.s,
        AsOptStr(Get(f, "url")),
        AsOptStr(Get(f, "selector")),
        AsOptStr(Get(f, "value")),
        AsOptStr(Get(f, "name")),
        AsOptStr(Get(f, "api_endpoint")),
        AsOptStr(Get(f, "api_method")),
        if payload.JObj? then Some(payload.fields) else None,
        Extras(f)))
    case _ => None
  }

  /** `[ActionStep(**s) for s in items]`: the steps in order, or the index of the first step Pydantic rejects. */
  function BuildSteps(items: seq<Json>): (r: Result<seq<ActionStep>, nat>)
    decreases |items|
    ensures r.Ok? ==> |r.value| == |items| && forall i :: 0 <= i < |items| ==> ToActionStep(items[i]) == Some(r.value[i])
    ensures r.Err? ==> r.error < |items| && ToActionStep(items[r.error]).None?
    ensures r.Err? ==> forall i :: 0 <= i < r.error ==> ToActionStep(items[i]).Some?
  {
    if items == [] then Ok([])
    else
      var init := items[..|items| - 1];
      assert forall i :: 0 <= i < |init| ==> init[i] == items[i];
      match BuildSteps(init)
      case Err(e) => Err(e)
      case Ok(v) =>
        match ToActionStep(items[|items| - 1])
        case None => Err(|items| - 1)
        case Some(a) => Ok(v + [a])
  }

  /** A list whose every step validates builds. */
  lemma AllAcceptedBuild(items: seq<Json>)
    requires forall j :: 0 <= j < |items| ==> ToActionStep(items[j]).Some?
    ensures BuildSteps(items).Ok?
  {
  }

  /** The index of the first rejected step decides the outcome of the whole list. */
  lemma {:induction false} FirstRejectedStep(items: seq<Json>, i: nat)
    requires i < |items| && ToActionStep(items[i]).None?
    requires forall j :: 0 <= j < i ==> ToActionStep(items[j]).Some?
    ensures BuildSteps(items) == Err(i)
    decreases |items|
  {
    var init := items[..|items| - 1];
    assert forall j :: 0 <= j < |init| ==> init[j] == items[j];
    if i == |items| - 1 {
      AllAcceptedBuild(init);
    } else {
      FirstRejectedStep(init, i);
    }
  }

  /** The processed copies of the planner's steps. */
  function Processed(raw: seq<Json>): (r: seq<Json>)
    ensures |r| == |raw| && forall i :: 0 <= i < |raw| ==> r[i] == ProcessStep(raw[i])
  {
    seq(|raw|, i requires 0 <= i < |raw| => ProcessStep(raw[i]))
  }

  /**
   * What `create_plan` yields: the guardrail plan, or one `ActionStep` per
   * planner step; Err(i) stands for the validation error step i raises.
   */
  function PlanFor(client: Client, task: string, observation: Option<string>, history: seq<StepExecutionResult>): Result<Plan, nat> {
    if GuardrailFires(task, observation) then Ok(GuardrailPlan())
    else
      var raw := PlanSteps(client, task, observation, history);
      match BuildSteps(Processed(raw))
      case Err(i) => Err(i)
      case Ok(steps) => Ok(Plan(steps, Some(PyStr(JArr(raw))), Some(PlannerModel), true))
  }

  /** The loop that copies each planner step and normalises and cleans its selector. */
  method ProcessSteps(raw: seq<Json>) returns (processed: seq<Json>)
    ensures processed == Processed(raw)
  {
    processed := [];
    for i := 0 to |raw|
      invariant |processed| == i
      invariant forall j :: 0 <= j < i ==> processed[j] == ProcessStep(raw[j])
    {
      processed := processed + [ProcessStep(raw[i])];
    }
  }

  /** `[ActionStep(**s) for s in processed_steps]`, stopping at the first step Pydantic rejects. */
  method ValidateSteps(processed: seq<Json>) returns (r: Result<seq<ActionStep>, nat>)
    ensures r == BuildSteps(processed)
  {
    var steps: seq<ActionStep> := [];
    for i := 0 to |processed|
      invariant |steps| == i
      invariant forall j :: 0 <= j < i ==> ToActionStep(processed[j]) == Some(steps[j])
    {
      var step := ToActionStep(processed[i]);
      if step.None? {
        FirstRejectedStep(processed, i);
        return Err(i);
      }
      steps := steps + [step.value];
    }
    AllAcceptedBuild(processed);
    var built := BuildSteps(processed);
    assert built.value == steps;
    return Ok(steps);
  }

  /** `OrchestratorAgent.create_plan`. */
  method CreatePlan(client: Client, task: string, observation: Option<string>, history: seq<StepExecutionResult>)
    returns (r: Result<Plan, nat>)
    ensures r == PlanFor(client, task, observation, history)
  {
    if GuardrailFires(task, observation) {
      return Ok(GuardrailPlan());
    }
    var raw := PlanStepsFor(client, task, observation, history);
    var processed := ProcessSteps(raw);
    var built := ValidateSteps(processed);
    if built.Err? {
      return Err(built.error);
    }
    return Ok(Plan(built.value, Some(PyStr(JArr(raw))), Some(PlannerModel), true));
  }

  /** When the guardrail fires, the plan is the guardrail plan whatever the planner would have said. */
  lemma GuardrailSkipsPlanner(c1: Client, c2: Client, task: string, observation: Option<string>,
                              h1: seq<StepExecutionResult>, h2: seq<StepExecutionResult>)
    requires GuardrailFires(task, observation)
    ensures PlanFor(c1, task, observation, h1) == PlanFor(c2, task, observation, h2) == Ok(GuardrailPlan())
    ensures |GuardrailPlan().steps| == 0 && GuardrailPlan().planningSuccess
  {
  }

  /**
   * A plan from the planner has one step per planner step, in order, each
   * carrying the planner step's action, URL and value and its processed
   * selector, and is marked successful.
   */
  lemma PlanFollowsPlanner(client: Client, task: string, observation: Option<string>, history: seq<StepExecutionResult>)
    requires !GuardrailFires(task, observation)
    requires PlanFor(client, task, observation, history).Ok?
    ensures var raw := PlanSteps(client, task, observation, history);
      var plan := PlanFor(client, task, observation, history).value;
      && |plan.steps| == |raw| && plan.planningSuccess
      && forall i :: 0 <= i < |raw| ==>
           && raw[i].JObj?
           && Get(raw[i].fields, "action") == JStr(plan.steps[i].action)
           && plan.steps[i].url == AsOptStr(Get(raw[i].fields, "url"))
           && plan.steps[i].value == AsOptStr(Get(raw[i].fields, "value"))
           && plan.steps[i].selector == AsOptStr(Get(ProcessStep(raw[i]).fields, "selector"))
  {
    var raw := PlanSteps(client, task, observation, history);
    BuiltStepsFollow(raw, BuildSteps(Processed(raw)).value);
  }

  /** The steps built from processed planner steps follow them one for one. */
  lemma BuiltStepsFollow(raw: seq<Json>, steps: seq<ActionStep>)
    requires BuildSteps(Processed(raw)) == Ok(steps)
    ensures |steps| == |raw|
    ensures forall i :: 0 <= i < |raw| ==>
      && raw[i].JObj?
      && Get(raw[i].fields, "action") == JStr(steps[i].action)
      && steps[i].url == AsOptStr(Get(raw[i].fields, "url"))
      && steps[i].value == AsOptStr(Get(raw[i].fields, "value"))
      && steps[i].selector == AsOptStr(Get(ProcessStep(raw[i]).fields, "selector"))
  {
    forall i | 0 <= i < |raw| {
      BuiltStepFollows(raw, steps, i);
    }
  }

  lemma BuiltStepFollows(raw: seq<Json>, steps: seq<ActionStep>, i: nat)
    requires BuildSteps(Processed(raw)) == Ok(steps) && i < |raw|
    ensures i < |steps|
    ensures raw[i].JObj?
    ensures Get(raw[i].fields, "action") == JStr(steps[i].action)
    ensures steps[i].url == AsOptStr(Get(raw[i].fields, "url"))
    ensures steps[i].value == AsOptStr(Get(raw[i].fields, "value"))
    ensures steps[i].selector == AsOptStr(Get(ProcessStep(raw[i]).fields, "selector"))
  {
    var p := Processed(raw)[i];
    assert ToActionStep(p) == Some(steps[i]);
    StepFollows(raw[i], p, steps[i]);
  }

  /** A step validated from the processed copy of a planner step carries that step's fields. */
  lemma StepFollows(raw: Json, p: Json, step: ActionStep)
    requires p == ProcessStep(raw) && ToActionStep(p) == Some(step)
    ensures raw.JObj?
    ensures Get(raw.fields, "action") == JStr(step.action)
    ensures step.url == AsOptStr(Get(raw.fields, "url"))
    ensures step.value == AsOptStr(Get(raw.fields, "value"))
    ensures step.selector == AsOptStr(Get(p.fields, "selector"))
  {
    assert p.JObj?;
  }

  /** A planner step whose selector is falsy reaches the plan with no selector, its other fields untouched. */
  lemma FalsySelectorUntouched(step: Json)
    requires step.JObj? && !Truthy(Get(step.fields, "selector"))
    ensures ProcessStep(step) == step
  {
  }

  /** A truthy string selector is kept by normalisation, so only `clean_selector` can change it. */
  lemma StringSelectorOnlyCleaned(step: Json)
    requires step.JObj? && Get(step.fields, "selector").JStr? && Get(step.fields, "selector").s != []
    ensures var sel := Get(step.fields, "selector").s;
      Get(ProcessStep(step).fields, "selector") == (match CleanSelector(Some(sel)) case None => JNull case Some(t) => JStr(t))
  {
  }
}
