/**
 * Repair of planner text that is almost JSON (src/llm/json_postprocessor.py):
 * three character scanners that track string and escape state, the small
 * regular-expression cleaners, the cleaning pipeline and the staged parser.
 */
module JsonPostprocessor {
  import opened Wrappers
  import opened Text
  import opened Json

  // ---------------------------------------------------------------------
  // The quote/escape tracker the three scanners share
  // ---------------------------------------------------------------------

  /** Whether the scan is inside a double-quoted string, and whether the previous character was a backslash. */
  datatype ScanState = ScanState(inString: bool, escape: bool)

  const Outside := ScanState(false, false)

  /** The tracker's reaction to one character: an escaped character changes nothing, a backslash starts an escape, a quote toggles the string state. */
  function Track(st: ScanState, c: char): ScanState {
    if st.escape then ScanState(st.inString, false)
    else if c == '\\' then ScanState(st.inString, true)
    else if c == '"' then ScanState(!st.inString, false)
    else st
  }

  /** Tracker state after reading all of `s` from the start of the text. */
  function StateAfter(s: string): ScanState
    decreases |s|
  {
    if s == [] then Outside else Track(StateAfter(s[..|s| - 1]), s[|s| - 1])
  }

  /** Position `k` of `t` is read outside any string and not right after a backslash. */
  predicate OutsideStringAt(t: string, k: nat)
    requires k <= |t|
  {
    StateAfter(t[..k]) == Outside
  }

  lemma StateAfterStep(t: string, k: nat)
    requires k < |t|
    ensures StateAfter(t[..k + 1]) == Track(StateAfter(t[..k]), t[k])
  {
    assert t[..k + 1][..k] == t[..k];
  }

  /** `a` can be obtained from `b` by deleting characters. */
  predicate IsSubsequence(a: string, b: string)
    decreases |b|
  {
    a == [] || (b != [] && ((a[0] == b[0] && IsSubsequence(a[1..], b[1..])) || IsSubsequence(a, b[1..])))
  }

  lemma {:induction false} SubsequenceDropPrefix(a: string, b: string, k: nat)
    requires k <= |b|
    requires IsSubsequence(a, b[k..])
    ensures IsSubsequence(a, b)
    decreases k
  {
    if k > 0 {
      assert b[1..][k - 1..] == b[k..];
      SubsequenceDropPrefix(a, b[1..], k - 1);
    }
  }

  // ---------------------------------------------------------------------
  // _remove_comments
  // ---------------------------------------------------------------------

  /** Where a `//` comment whose text starts at `i` ends: at the next line break (which is kept), or at the end. */
  function LineCommentEnd(t: string, i: nat): (j: nat)
    requires i <= |t|
    decreases |t| - i
    ensures i <= j <= |t|
    ensures j == |t| || IsNewline(t[j])
    ensures forall k :: i <= k < j ==> !IsNewline(t[k])
  {
    if i == |t| || IsNewline(t[i]) then i else LineCommentEnd(t, i + 1)
  }

  /**
   * Where scanning resumes after a block comment whose text starts at `i`:
   * just past the first star-slash pair, or, when there is none, at the last
   * character of the text, which the scanner then copies.
   */
  function BlockCommentEnd(t: string, i: nat): (j: nat)
    requires i <= |t|
    decreases |t| - i
    ensures i <= j <= |t|
  {
    if i + 1 < |t| then
      if t[i] == '*' && t[i + 1] == '/' then i + 2 else BlockCommentEnd(t, i + 1)
    else i
  }

  /** A line comment (slash slash) or a block comment (slash star) starts at position `k`. */
  predicate OpensComment(t: string, k: nat) {
    PairAt(t, k, '/', '/') || PairAt(t, k, '/', '*')
  }

  /** The comment remover's output for `t[i..]`, when the scan reaches `i` in state `st`. */
  function CommentFreeFrom(t: string, i: nat, st: ScanState): string
    requires i <= |t|
    decreases |t| - i
  {
    if i == |t| then []
    else if st.escape || t[i] == '\\' || t[i] == '"' then [t[i]] + CommentFreeFrom(t, i + 1, Track(st, t[i]))
    else if !st.inString && t[i] == '/' && i + 1 < |t| && t[i + 1] == '/' then
      CommentFreeFrom(t, LineCommentEnd(t, i + 2), st)
    else if !st.inString && t[i] == '/' && i + 1 < |t| && t[i + 1] == '*' then
      CommentFreeFrom(t, BlockCommentEnd(t, i + 2), st)
    else [t[i]] + CommentFreeFrom(t, i + 1, st)
  }

  /** What `_remove_comments` returns for `t`. */
  function StripComments(t: string): string {
    CommentFreeFrom(t, 0, Outside)
  }

  /** `_remove_comments`: drops line and block comments that lie outside double-quoted strings. */
  method RemoveComments(text: string) returns (out: string)
    ensures out == StripComments(text)
  {
    if text == [] {
      return text;
    }
    out := [];
    var i := 0;
    var n := |text|;
    var inString, escape := false, false;
    while i < n
      invariant 0 <= i <= n
      invariant out + CommentFreeFrom(text, i, ScanState(inString, escape)) == StripComments(text)
      decreases n - i
    {
      ghost var st := ScanState(inString, escape);
      var ch := text[i];
      if escape || ch == '\\' || ch == '"' {
        assert CommentFreeFrom(text, i, st) == [ch] + CommentFreeFrom(text, i + 1, Track(st, ch));
        if escape {
          escape := false;
        } else if ch == '\\' {
          escape := true;
        } else {
          inString := !inString;
        }
        SeqAssoc(out, [ch], CommentFreeFrom(text, i + 1, Track(st, ch)));
        out := out + [ch];
        i := i + 1;
      } else if !inString && ch == '/' && i + 1 < n && text[i + 1] == '/' {
        assert CommentFreeFrom(text, i, st) == CommentFreeFrom(text, LineCommentEnd(text, i + 2), st);
        i := SkipLineComment(text, i + 2);
      } else if !inString && ch == '/' && i + 1 < n && text[i + 1] == '*' {
        assert CommentFreeFrom(text, i, st) == CommentFreeFrom(text, BlockCommentEnd(text, i + 2), st);
        i := SkipBlockComment(text, i + 2);
      } else {
        assert CommentFreeFrom(text, i, st) == [ch] + CommentFreeFrom(text, i + 1, st);
        SeqAssoc(out, [ch], CommentFreeFrom(text, i + 1, st));
        out := out + [ch];
        i := i + 1;
      }
    }
  }

  /** The scan over the text of a line comment, up to the line break. */
  method SkipLineComment(text: string, start: nat) returns (i: nat)
    requires start <= |text|
    ensures i == LineCommentEnd(text, start)
  {
    i := start;
    while i < |text| && text[i] != '\n' && text[i] != '\r'
      invariant start <= i <= |text|
      invariant LineCommentEnd(text, i) == LineCommentEnd(text, start)
      decreases |text| - i
    {
      i := i + 1;
    }
  }

  /** The scan over the text of a block comment, past its closing star-slash. */
  method SkipBlockComment(text: string, start: nat) returns (i: nat)
    requires start <= |text|
    ensures i == BlockCommentEnd(text, start)
  {
    i := start;
    while i + 1 < |text|
      invariant start <= i <= |text|
      invariant BlockCommentEnd(text, i) == BlockCommentEnd(text, start)
      decreases |text| - i
    {
      if text[i] == '*' && text[i + 1] == '/' {
        return i + 2;
      }
      i := i + 1;
    }
  }

  /** Only deletions: the output of the comment remover is a subsequence of its input. */
  lemma {:induction false} CommentFreeIsSubsequence(t: string, i: nat, st: ScanState)
    requires i <= |t|
    ensures IsSubsequence(CommentFreeFrom(t, i, st), t[i..])
    decreases |t| - i
  {
    if i < |t| {
      if st.escape || t[i] == '\\' || t[i] == '"' {
        CommentFreeIsSubsequence(t, i + 1, Track(st, t[i]));
        SubsequenceKeep(t, i, CommentFreeFrom(t, i + 1, Track(st, t[i])));
      } else if !st.inString && t[i] == '/' && i + 1 < |t| && t[i + 1] == '/' {
        var j := LineCommentEnd(t, i + 2);
        CommentFreeIsSubsequence(t, j, st);
        SubsequenceSkip(t, i, j, CommentFreeFrom(t, j, st));
      } else if !st.inString && t[i] == '/' && i + 1 < |t| && t[i + 1] == '*' {
        var j := BlockCommentEnd(t, i + 2);
        CommentFreeIsSubsequence(t, j, st);
        SubsequenceSkip(t, i, j, CommentFreeFrom(t, j, st));
      } else {
        CommentFreeIsSubsequence(t, i + 1, st);
        SubsequenceKeep(t, i, CommentFreeFrom(t, i + 1, st));
      }
    }
  }

  /** Keeping the character at `i` extends a subsequence of what follows it. */
  lemma SubsequenceKeep(t: string, i: nat, a: string)
    requires i < |t| && IsSubsequence(a, t[i + 1..])
    ensures IsSubsequence([t[i]] + a, t[i..])
  {
    assert t[i..][1..] == t[i + 1..];
    assert ([t[i]] + a)[1..] == a;
  }

  /** Skipping `t[i..j]` keeps a subsequence of `t[j..]` one of `t[i..]`. */
  lemma SubsequenceSkip(t: string, i: nat, j: nat, a: string)
    requires i <= j <= |t| && IsSubsequence(a, t[j..])
    ensures IsSubsequence(a, t[i..])
  {
    assert t[i..][j - i..] == t[j..];
    SubsequenceDropPrefix(a, t[i..], j - i);
  }

  lemma StripCommentsIsSubsequence(t: string)
    ensures IsSubsequence(StripComments(t), t)
  {
    CommentFreeIsSubsequence(t, 0, Outside);
    assert t[0..] == t;
  }

  /** Every comment opener in `t` lies inside a string or right after a backslash. */
  predicate NoCommentOutsideStrings(t: string) {
    forall k :: 0 <= k < |t| && OpensComment(t, k) ==> !OutsideStringAt(t, k)
  }

  lemma {:induction false} CommentFreeIdentityFrom(t: string, i: nat)
    requires i <= |t|
    requires NoCommentOutsideStrings(t)
    ensures CommentFreeFrom(t, i, StateAfter(t[..i])) == t[i..]
    decreases |t| - i
  {
    if i < |t| {
      var st := StateAfter(t[..i]);
      StateAfterStep(t, i);
      CommentFreeIdentityFrom(t, i + 1);
      if !(st.escape || t[i] == '\\' || t[i] == '"') {
        assert Track(st, t[i]) == st;
        if !st.inString && t[i] == '/' && i + 1 < |t| {
          assert !OpensComment(t, i);
        }
      }
      assert t[i..] == [t[i]] + t[i + 1..];
    }
  }

  /** Text whose every comment opener sits inside a string comes back unchanged. */
  lemma StripCommentsIdentity(t: string)
    requires NoCommentOutsideStrings(t)
    ensures StripComments(t) == t
  {
    CommentFreeIdentityFrom(t, 0);
    assert t[..0] == [];
    assert t[0..] == t;
  }

  /**
   * String contents are copied verbatim: inside a string, a stretch without
   * quotes or backslashes (a URL with its `//`, say) reaches the output as it is.
   */
  lemma {:induction false} StringContentsKept(t: string, i: nat, j: nat)
    requires i <= j <= |t|
    requires forall k :: i <= k < j ==> t[k] != '"' && t[k] != '\\'
    ensures CommentFreeFrom(t, i, ScanState(true, false)) == t[i..j] + CommentFreeFrom(t, j, ScanState(true, false))
    decreases j - i
  {
    if i < j {
      StringContentsKept(t, i + 1, j);
      assert t[i..j] == [t[i]] + t[i + 1..j];
    }
  }

  /** Characters `a` and `b` stand at positions `k` and `k + 1` of `t`. */
  predicate PairAt(t: string, k: nat, a: char, b: char) {
    k + 1 < |t| && t[k] == a && t[k + 1] == b
  }

  /** A line comment outside strings is dropped up to the line break, and the line break itself is kept. */
  lemma LineCommentDropped(t: string, i: nat)
    requires PairAt(t, i, '/', '/')
    ensures var j := LineCommentEnd(t, i + 2);
      && CommentFreeFrom(t, i, Outside) == CommentFreeFrom(t, j, Outside)
      && (j < |t| ==> IsNewline(t[j]) && CommentFreeFrom(t, i, Outside) == [t[j]] + CommentFreeFrom(t, j + 1, Outside))
  {
  }

  /**
   * An unterminated block comment is not dropped whole: the scan stops one
   * character short of the end and copies the text's last character.
   */
  lemma UnterminatedBlockCommentKeepsLastChar(t: string, i: nat)
    requires PairAt(t, i, '/', '*') && i + 2 < |t|
    requires forall k :: i + 2 <= k ==> !PairAt(t, k, '*', '/')
    ensures CommentFreeFrom(t, i, Outside) == [t[|t| - 1]]
  {
    BlockCommentRunsOut(t, i + 2);
    assert CommentFreeFrom(t, i, Outside) == CommentFreeFrom(t, |t| - 1, Outside);
  }

  lemma {:induction false} BlockCommentRunsOut(t: string, i: nat)
    requires i < |t|
    requires forall k :: i <= k ==> !PairAt(t, k, '*', '/')
    ensures BlockCommentEnd(t, i) == |t| - 1
    decreases |t| - i
  {
    if i + 1 < |t| {
      assert !PairAt(t, i, '*', '/');
      BlockCommentRunsOut(t, i + 1);
    }
  }

  // ---------------------------------------------------------------------
  // extract_first_json
  // ---------------------------------------------------------------------

  predicate IsOpener(c: char) { c == '{' || c == '[' }
  predicate IsCloser(c: char) { c == '}' || c == ']' }

  /** The opener a closer must match. */
  function OpenerOf(c: char): char { if c == '}' then '{' else '[' }

  /** Index of the first `{` or `[` of `t`. */
  function FirstOpener(t: string): (r: Option<nat>)
    ensures r.Some? ==> r.value < |t| && IsOpener(t[r.value])
    ensures r.Some? ==> forall k :: 0 <= k < r.value ==> !IsOpener(t[k])
    ensures r.None? ==> forall k :: 0 <= k < |t| ==> !IsOpener(t[k])
    decreases |t|
  {
    if t == [] then None
    else if IsOpener(t[0]) then Some(0)
    else match FirstOpener(t[1..])
      case None => None
      case Some(k) => Some(k + 1)
  }

  /**
   * Where the bracket scan started at `i` with open brackets `stack` ends:
   * just past the closer that empties the stack, at the end of the text when
   * the text runs out first, or None at a closer that does not match.
   */
  function BracketEnd(t: string, i: nat, stack: seq<char>, st: ScanState): (r: Option<nat>)
    requires i <= |t|
    decreases |t| - i
    ensures r.Some? ==> i <= r.value <= |t|
  {
    if i == |t| then Some(|t|)
    else if st.escape || t[i] == '\\' || t[i] == '"' then BracketEnd(t, i + 1, stack, Track(st, t[i]))
    else if st.inString then BracketEnd(t, i + 1, stack, st)
    else if IsOpener(t[i]) then BracketEnd(t, i + 1, stack + [t[i]], st)
    else if IsCloser(t[i]) then
      if stack == [] || stack[|stack| - 1] != OpenerOf(t[i]) then None
      else if |stack| == 1 then Some(i + 1)
      else BracketEnd(t, i + 1, stack[..|stack| - 1], st)
    else BracketEnd(t, i + 1, stack, st)
  }

  /**
   * What `extract_first_json` returns: the stretch from the first opener to
   * its matching closer, the rest of the text when it is truncated, and None
   * for empty text, text without an opener, or a mismatched closer.
   */
  function FirstJson(t: string): (r: Option<string>)
    ensures r.Some? ==> exists a, b :: 0 <= a < b <= |t| && r.value == t[a..b] && IsOpener(t[a])
    ensures FirstOpener(t).None? ==> r.None?
  {
    if t == [] then None
    else match FirstOpener(t)
      case None => None
      case Some(a) =>
        match BracketEnd(t, a, [], Outside)
        case None => None
        case Some(b) =>
          assert b > a by {
            assert IsOpener(t[a]);
            BracketEndPastOpener(t, a);
          }
          Some(t[a..b])
  }

  lemma BracketEndPastOpener(t: string, a: nat)
    requires a < |t| && IsOpener(t[a])
    ensures BracketEnd(t, a, [], Outside).Some? ==> BracketEnd(t, a, [], Outside).value > a
  {
    assert [] + [t[a]] == [t[a]];
    assert BracketEnd(t, a, [], Outside) == BracketEnd(t, a + 1, [t[a]], Outside);
  }

  lemma FirstJsonFrom(t: string, a: nat, b: nat)
    requires FirstOpener(t) == Some(a)
    requires BracketEnd(t, a, [], Outside) == Some(b)
    ensures a <= b <= |t| && FirstJson(t) == Some(t[a..b])
  {
  }

  /** `extract_first_json`: finds the first opener, then scans with a bracket stack, skipping string contents. */
  method ExtractFirstJson(text: string) returns (r: Option<string>)
    ensures r == FirstJson(text)
  {
    if text == [] {
      return None;
    }
    var start := 0;
    while start < |text| && !(text[start] == '{' || text[start] == '[')
      invariant start <= |text|
      invariant forall k :: 0 <= k < start ==> !IsOpener(text[k])
    {
      start := start + 1;
    }
    if start == |text| {
      return None;
    }
    assert FirstOpener(text) == Some(start);
    var stack: seq<char> := [];
    var inString, escape := false, false;
    var i := start;
    while i < |text|
      invariant start <= i <= |text|
      invariant BracketEnd(text, i, stack, ScanState(inString, escape)) == BracketEnd(text, start, [], Outside)
    {
      var ch := text[i];
      if escape {
        escape := false;
      } else if ch == '\\' {
        escape := true;
      } else if ch == '"' {
        inString := !inString;
      } else if inString {
      } else if ch == '{' || ch == '[' {
        stack := stack + [ch];
      } else if ch == '}' || ch == ']' {
        if stack == [] {
          return None;
        }
        var top := stack[|stack| - 1];
        stack := stack[..|stack| - 1];
        if top != OpenerOf(ch) {
          return None;
        }
        if stack == [] {
          return Some(text[start..i + 1]);
        }
      }
      i := i + 1;
    }
    assert BracketEnd(text, start, [], Outside) == Some(|text|);
    assert text[start..] == text[start..|text|];
    return Some(text[start..]);
  }

  /** Well-formed JSON-like text as a tree: plain characters, quoted strings and bracketed groups. */
  datatype Token = Plain(c: char) | Quoted(body: string) | Group(curly: bool, items: seq<Token>)

  predicate PlainChar(c: char) {
    !IsOpener(c) && !IsCloser(c) && c != '"' && c != '\\'
  }

  predicate WellFormed(tok: Token) {
    match tok
    case Plain(c) => PlainChar(c)
    case Quoted(body) => forall k :: 0 <= k < |body| ==> body[k] != '"' && body[k] != '\\'
    case Group(_, items) => forall k :: 0 <= k < |items| ==> WellFormed(items[k])
  }

  function Render(tok: Token): (r: string)
    decreases tok
  {
    match tok
    case Plain(c) => [c]
    case Quoted(body) => "\"" + body + "\""
    case Group(curly, items) => [if curly then '{' else '['] + RenderAll(items) + [if curly then '}' else ']']
  }

  function RenderAll(items: seq<Token>): string
    decreases items
  {
    if items == [] then [] else Render(items[0]) + RenderAll(items[1..])
  }

  /** A quoted string is skipped over by the bracket scan. */
  lemma {:induction false} QuotedBodySkipped(t: string, i: nat, j: nat, stack: seq<char>)
    requires i <= j <= |t|
    requires forall k :: i <= k < j ==> t[k] != '"' && t[k] != '\\'
    ensures BracketEnd(t, i, stack, ScanState(true, false)) == BracketEnd(t, j, stack, ScanState(true, false))
    decreases j - i
  {
    if i < j {
      QuotedBodySkipped(t, i + 1, j, stack);
    }
  }

  /** Inside an open group, a well-formed token leaves the scan where it found it, past the token. */
  lemma {:induction false} TokenSkipped(tok: Token, t: string, i: nat, stack: seq<char>)
    requires WellFormed(tok) && stack != []
    requires i + |Render(tok)| <= |t| && t[i..i + |Render(tok)|] == Render(tok)
    ensures BracketEnd(t, i, stack, Outside) == BracketEnd(t, i + |Render(tok)|, stack, Outside)
    decreases tok, 2
  {
    match tok
    case Plain(c) =>
      assert t[i] == t[i..i + 1][0];
    case Quoted(body) =>
      QuotedSkipped(t, i, body, stack);
    case Group(curly, items) =>
      GroupSkipped(curly, items, t, i, stack);
  }

  /** A quoted string of plain characters is skipped over as a whole. */
  lemma QuotedSkipped(t: string, i: nat, body: string, stack: seq<char>)
    requires forall k :: 0 <= k < |body| ==> body[k] != '"' && body[k] != '\\'
    requires i + |body| + 2 <= |t| && t[i..i + |body| + 2] == "\"" + body + "\""
    ensures BracketEnd(t, i, stack, Outside) == BracketEnd(t, i + |body| + 2, stack, Outside)
  {
    Enclosed(t, i, '"', body, '"');
    forall k | i + 1 <= k < i + 1 + |body|
      ensures t[k] != '"' && t[k] != '\\'
    {
      assert t[k] == t[i + 1..i + 1 + |body|][k - i - 1];
    }
    QuotedBodySkipped(t, i + 1, i + 1 + |body|, stack);
  }

  /** A bracketed group of well-formed items closes the bracket it opens. */
  lemma {:induction false} GroupSkipped(curly: bool, items: seq<Token>, t: string, i: nat, stack: seq<char>)
    requires forall k :: 0 <= k < |items| ==> WellFormed(items[k])
    requires stack != []
    requires i + |Render(Group(curly, items))| <= |t|
    requires t[i..i + |Render(Group(curly, items))|] == Render(Group(curly, items))
    ensures BracketEnd(t, i, stack, Outside) == BracketEnd(t, i + |Render(Group(curly, items))|, stack, Outside)
    decreases Group(curly, items), 1
  {
    var open := if curly then '{' else '[';
    Enclosed(t, i, open, RenderAll(items), if curly then '}' else ']');
    ItemsSkipped(items, t, i + 1, stack + [open]);
    assert (stack + [open])[..|stack|] == stack;
  }

  /** Where `[o] + inner + [c]` sits in `t`, its three parts sit. */
  lemma Enclosed(t: string, i: nat, o: char, inner: string, c: char)
    requires i + |[o] + inner + [c]| <= |t| && t[i..i + |[o] + inner + [c]|] == [o] + inner + [c]
    ensures t[i] == o && t[i + 1 + |inner|] == c
    ensures t[i + 1..i + 1 + |inner|] == inner
  {
    var r := [o] + inner + [c];
    assert t[i] == r[0];
    assert t[i + 1 + |inner|] == r[1 + |inner|];
    assert t[i + 1..i + 1 + |inner|] == inner by {
      forall k | 0 <= k < |inner| ensures t[i + 1 + k] == inner[k] {
        assert t[i + 1 + k] == r[1 + k];
      }
    }
  }

  lemma {:induction false} ItemsSkipped(items: seq<Token>, t: string, i: nat, stack: seq<char>)
    requires forall k :: 0 <= k < |items| ==> WellFormed(items[k])
    requires stack != []
    requires i + |RenderAll(items)| <= |t| && t[i..i + |RenderAll(items)|] == RenderAll(items)
    ensures BracketEnd(t, i, stack, Outside) == BracketEnd(t, i + |RenderAll(items)|, stack, Outside)
    decreases items, 0
  {
    if items != [] {
      var a := Render(items[0]);
      var b := RenderAll(items[1..]);
      assert RenderAll(items) == a + b;
      SliceHalves(t, i, a, b);
      TokenSkipped(items[0], t, i, stack);
      ItemsSkipped(items[1..], t, i + |a|, stack);
    }
  }

  /** Where `a + b` sits in `t`, `a` and then `b` sit. */
  lemma SliceHalves(t: string, i: nat, a: string, b: string)
    requires i + |a + b| <= |t| && t[i..i + |a + b|] == a + b
    ensures t[i..i + |a|] == a && t[i + |a|..i + |a| + |b|] == b
  {
    assert t[i..i + |a|] == a by {
      forall k | 0 <= k < |a| ensures t[i + k] == a[k] {
        assert t[i + k] == (a + b)[k];
      }
    }
    assert t[i + |a|..i + |a| + |b|] == b by {
      forall k | 0 <= k < |b| ensures t[i + |a| + k] == b[k] {
        assert t[i + |a| + k] == (a + b)[|a| + k];
      }
    }
  }

  /**
   * Prose before the first bracket and anything after the matching closer
   * are dropped: the extractor returns exactly the first well-formed group.
   */
  lemma ExtractsFirstGroup(pre: string, g: Token, post: string)
    requires g.Group? && WellFormed(g)
    requires forall k :: 0 <= k < |pre| ==> !IsOpener(pre[k])
    ensures FirstJson(pre + Render(g) + post) == Some(Render(g))
  {
    var r := Render(g);
    var t := pre + r + post;
    var a := |pre|;
    SeqAssoc(pre, r, post);
    FirstOpenerAfterProse(pre, r + post);
    assert t[a..a + |r|] == r;
    GroupCloses(t, a, g);
    FirstJsonFrom(t, a, a + |r|);
  }

  /** The scan from the opener of a well-formed group stops just past its closer. */
  lemma GroupCloses(t: string, a: nat, g: Token)
    requires g.Group? && WellFormed(g)
    requires a + |Render(g)| <= |t| && t[a..a + |Render(g)|] == Render(g)
    ensures BracketEnd(t, a, [], Outside) == Some(a + |Render(g)|)
  {
    GroupText(t, a, g);
    var inner := RenderAll(g.items);
    GroupOpened(t, a, g.items);
    CloserEnds(t, a + 1 + |inner|, t[a]);
  }

  /** Where the opener, the items and the closer of a rendered group sit. */
  lemma GroupText(t: string, a: nat, g: Token)
    requires g.Group?
    requires a + |Render(g)| <= |t| && t[a..a + |Render(g)|] == Render(g)
    ensures var inner := RenderAll(g.items);
      && |Render(g)| == |inner| + 2
      && t[a] == (if g.curly then '{' else '[')
      && t[a + 1..a + 1 + |inner|] == inner
      && t[a + 1 + |inner|] == (if g.curly then '}' else ']')
  {
    var r := Render(g);
    var inner := RenderAll(g.items);
    var open := if g.curly then '{' else '[';
    var close := if g.curly then '}' else ']';
    assert r == [open] + inner + [close];
    assert t[a] == r[0];
    forall k | 0 <= k < |inner| ensures t[a + 1 + k] == inner[k] {
      assert t[a + 1 + k] == r[1 + k];
    }
    assert t[a + 1 + |inner|] == r[1 + |inner|];
  }

  /** The closer of the one open bracket ends the scan. */
  lemma CloserEnds(t: string, e: nat, open: char)
    requires e < |t| && IsCloser(t[e]) && OpenerOf(t[e]) == open
    ensures BracketEnd(t, e, [open], Outside) == Some(e + 1)
  {
  }

  /** A closer that does not match the innermost open bracket makes the extraction fail. */
  lemma MismatchedCloserFails()
    ensures FirstJson("[}") == None
    ensures FirstJson("{\"a\": [1}") == None
  {
    assert FirstOpener("[}") == Some(0);
    assert FirstOpener("{\"a\": [1}") == Some(0);
  }

  lemma FirstOpenerAfterProse(pre: string, rest: string)
    requires forall k :: 0 <= k < |pre| ==> !IsOpener(pre[k])
    requires rest != [] && IsOpener(rest[0])
    ensures FirstOpener(pre + rest) == Some(|pre|)
  {
    assert (pre + rest)[|pre|] == rest[0];
  }

  lemma ScanRunsOut(t: string, i: nat, stack: seq<char>, st: ScanState)
    requires i == |t|
    ensures BracketEnd(t, i, stack, st) == Some(|t|)
  {
  }

  /** The scan from an opener that is followed by well-formed items reaches the end of the items with just that opener open. */
  lemma GroupOpened(t: string, a: nat, items: seq<Token>)
    requires forall k :: 0 <= k < |items| ==> WellFormed(items[k])
    requires a < |t| && IsOpener(t[a])
    requires a + 1 + |RenderAll(items)| <= |t| && t[a + 1..a + 1 + |RenderAll(items)|] == RenderAll(items)
    ensures BracketEnd(t, a, [], Outside) == BracketEnd(t, a + 1 + |RenderAll(items)|, [t[a]], Outside)
  {
    assert [] + [t[a]] == [t[a]];
    ItemsSkipped(items, t, a + 1, [t[a]]);
  }

  lemma GroupRunsOut(t: string, a: nat, items: seq<Token>)
    requires forall k :: 0 <= k < |items| ==> WellFormed(items[k])
    requires a < |t| && IsOpener(t[a])
    requires a + 1 + |RenderAll(items)| == |t| && t[a + 1..] == RenderAll(items)
    ensures BracketEnd(t, a, [], Outside) == Some(|t|)
  {
    GroupOpened(t, a, items);
    ScanRunsOut(t, |t|, [t[a]], Outside);
  }

  /**
   * Truncated JSON: when the text ends before the first group closes,
   * everything from the opener on is returned.
   */
  lemma TruncatedKeepsRest(pre: string, curly: bool, items: seq<Token>)
    requires forall k :: 0 <= k < |items| ==> WellFormed(items[k])
    requires forall k :: 0 <= k < |pre| ==> !IsOpener(pre[k])
    ensures var open := [if curly then '{' else '['];
      FirstJson(pre + open + RenderAll(items)) == Some(open + RenderAll(items))
  {
    var open := [if curly then '{' else '['];
    var inner := RenderAll(items);
    var rest := open + inner;
    var t := pre + rest;
    var a := |pre|;
    assert rest[1..] == inner;
    RestAfterProse(pre, rest);
    GroupRunsOut(t, a, items);
    FirstJsonFrom(t, a, |t|);
    SeqAssoc(pre, open, inner);
  }

  /** Prose without brackets, then text that starts with an opener: where that text sits. */
  lemma RestAfterProse(pre: string, rest: string)
    requires forall k :: 0 <= k < |pre| ==> !IsOpener(pre[k])
    requires rest != [] && IsOpener(rest[0])
    ensures FirstOpener(pre + rest) == Some(|pre|)
    ensures (pre + rest)[|pre|..] == rest && (pre + rest)[|pre|..|pre + rest|] == rest
    ensures (pre + rest)[|pre| + 1..] == rest[1..]
  {
    FirstOpenerAfterProse(pre, rest);
  }

  // ---------------------------------------------------------------------
  // _fix_broken_quoted_strings
  // ---------------------------------------------------------------------

  /** Output so far and tracker state of the newline joiner. */
  datatype JoinState = JoinState(out: string, st: ScanState)

  /**
   * One character of the newline joiner: a line break inside a string becomes
   * a single space (none when the output is empty or already ends in a
   * space); everything else is copied.
   */
  function JoinStep(js: JoinState, c: char): JoinState {
    var st := js.st;
    if st.escape || c == '\\' || c == '"' then JoinState(js.out + [c], Track(st, c))
    else if st.inString && IsNewline(c) then
      JoinState(if js.out != [] && js.out[|js.out| - 1] != ' ' then js.out + [' '] else js.out, st)
    else JoinState(js.out + [c], st)
  }

  /** The joiner's state after reading `s`; its tracker agrees with the shared one. */
  function JoinPrefix(s: string): (r: JoinState)
    decreases |s|
    ensures r.st == StateAfter(s)
    ensures |r.out| <= |s|
  {
    if s == [] then JoinState([], Outside) else JoinStep(JoinPrefix(s[..|s| - 1]), s[|s| - 1])
  }

  /** What `_fix_broken_quoted_strings` returns for `t`. */
  function JoinBrokenStrings(t: string): (r: string)
    ensures |r| <= |t|
  {
    JoinPrefix(t).out
  }

  /** `_fix_broken_quoted_strings`: one pass over the text with the tracker. */
  method FixBrokenQuotedStrings(text: string) returns (out: string)
    ensures out == JoinBrokenStrings(text)
  {
    out := [];
    var inString, escape := false, false;
    for i := 0 to |text|
      invariant JoinPrefix(text[..i]) == JoinState(out, ScanState(inString, escape))
    {
      var ch := text[i];
      JoinPrefixSnoc(text, i);
      if escape {
        out := out + [ch];
        escape := false;
      } else if ch == '\\' {
        out := out + [ch];
        escape := true;
      } else if ch == '"' {
        inString := !inString;
        out := out + [ch];
      } else if inString && (ch == '\n' || ch == '\r') {
        if out != [] && out[|out| - 1] != ' ' {
          out := out + [' '];
        }
      } else {
        out := out + [ch];
      }
    }
    assert text[..|text|] == text;
  }

  lemma JoinPrefixSnoc(text: string, i: nat)
    requires i < |text|
    ensures JoinPrefix(text[..i + 1]) == JoinStep(JoinPrefix(text[..i]), text[i])
  {
    assert text[..i + 1][..i] == text[..i];
  }

  /** No line break of `t` is read inside a string (other than right after a backslash). */
  predicate NoBrokenStrings(t: string) {
    forall k :: 0 <= k < |t| && IsNewline(t[k]) ==> !StateAfter(t[..k]).inString || StateAfter(t[..k]).escape
  }

  lemma AppendKeepsUnbroken(o: string, x: char)
    requires NoBrokenStrings(o)
    requires IsNewline(x) ==> !StateAfter(o).inString || StateAfter(o).escape
    ensures NoBrokenStrings(o + [x])
    ensures StateAfter(o + [x]) == Track(StateAfter(o), x)
  {
    var o2 := o + [x];
    assert o2[..|o|] == o;
    forall k | 0 <= k < |o2| && IsNewline(o2[k])
      ensures !StateAfter(o2[..k]).inString || StateAfter(o2[..k]).escape
    {
      if k < |o| {
        assert o2[..k] == o[..k];
      }
    }
  }

  /** The joiner's output has no broken string left, and ends in the same tracker state as its input. */
  lemma {:induction false} JoinPrefixUnbroken(s: string)
    ensures NoBrokenStrings(JoinPrefix(s).out)
    ensures StateAfter(JoinPrefix(s).out) == StateAfter(s)
    decreases |s|
  {
    if s != [] {
      var p := s[..|s| - 1];
      var c := s[|s| - 1];
      JoinPrefixUnbroken(p);
      var js := JoinPrefix(p);
      var st := js.st;
      if st.escape || c == '\\' || c == '"' {
        AppendKeepsUnbroken(js.out, c);
      } else if st.inString && IsNewline(c) {
        if js.out != [] && js.out[|js.out| - 1] != ' ' {
          AppendKeepsUnbroken(js.out, ' ');
        }
      } else {
        AppendKeepsUnbroken(js.out, c);
      }
    }
  }

  lemma JoinedHasNoBrokenStrings(t: string)
    ensures NoBrokenStrings(JoinBrokenStrings(t))
  {
    JoinPrefixUnbroken(t);
  }

  /** Text without broken strings is left alone. */
  lemma {:induction false} JoinPrefixIdentity(t: string, k: nat)
    requires k <= |t| && NoBrokenStrings(t)
    ensures JoinPrefix(t[..k]).out == t[..k]
    decreases k
  {
    if k > 0 {
      JoinPrefixIdentity(t, k - 1);
      assert t[..k][..k - 1] == t[..k - 1];
      assert t[..k] == t[..k - 1] + [t[k - 1]];
    }
  }

  lemma JoinIdentity(t: string)
    requires NoBrokenStrings(t)
    ensures JoinBrokenStrings(t) == t
  {
    JoinPrefixIdentity(t, |t|);
    assert t[..|t|] == t;
  }

  /** Joining twice is joining once. */
  lemma JoinIdempotent(t: string)
    ensures JoinBrokenStrings(JoinBrokenStrings(t)) == JoinBrokenStrings(t)
  {
    JoinedHasNoBrokenStrings(t);
    JoinIdentity(JoinBrokenStrings(t));
  }

  // ---------------------------------------------------------------------
  // _replace_smart_quotes, _remove_trailing_commas
  // ---------------------------------------------------------------------

  const LeftDouble := '\U{201C}'
  const RightDouble := '\U{201D}'
  const LeftSingle := '\U{2018}'
  const RightSingle := '\U{2019}'

  predicate IsSmartQuote(c: char) {
    c == LeftDouble || c == RightDouble || c == LeftSingle || c == RightSingle
  }

  /** `_replace_smart_quotes`: four chained `str.replace` calls. */
  function ReplaceSmartQuotes(s: string): string {
    Replace(Replace(Replace(Replace(s, [LeftDouble], "\""), [RightDouble], "\""), [LeftSingle], "'"), [RightSingle], "'")
  }

  /** Every `a` in `s` becomes `b`. */
  function MapChar(s: string, a: char, b: char): (r: string)
    ensures |r| == |s|
    ensures forall i :: 0 <= i < |s| ==> r[i] == (if s[i] == a then b else s[i])
  {
    seq(|s|, i requires 0 <= i < |s| => if s[i] == a then b else s[i])
  }

  /** Replacing a one-character string by another is a character map. */
  lemma {:induction false} ReplaceOneChar(s: string, a: char, b: char)
    ensures Replace(s, [a], [b]) == MapChar(s, a, b)
    decreases |s|
  {
    if s != [] {
      ReplaceOneChar(s[1..], a, b);
      assert StartsWith(s, [a]) <==> s[0] == a;
      assert [a][..] == [a];
      assert s[|[a]|..] == s[1..];
    }
  }

  /** The smart-quote replacement maps curly quotes to straight ones, character by character. */
  lemma SmartQuotesStraightened(s: string)
    ensures |ReplaceSmartQuotes(s)| == |s|
    ensures forall i :: 0 <= i < |s| ==> !IsSmartQuote(ReplaceSmartQuotes(s)[i])
    ensures forall i :: 0 <= i < |s| && (s[i] == LeftDouble || s[i] == RightDouble) ==> ReplaceSmartQuotes(s)[i] == '"'
    ensures forall i :: 0 <= i < |s| && (s[i] == LeftSingle || s[i] == RightSingle) ==> ReplaceSmartQuotes(s)[i] == '\''
    ensures forall i :: 0 <= i < |s| && !IsSmartQuote(s[i]) ==> ReplaceSmartQuotes(s)[i] == s[i]
  {
    var s1 := Replace(s, [LeftDouble], "\"");
    ReplaceOneChar(s, LeftDouble, '"');
    var s2 := Replace(s1, [RightDouble], "\"");
    ReplaceOneChar(s1, RightDouble, '"');
    var s3 := Replace(s2, [LeftSingle], "'");
    ReplaceOneChar(s2, LeftSingle, '\'');
    ReplaceOneChar(s3, RightSingle, '\'');
  }

  /** The characters of `s` that satisfy `p`, in order. */
  function Keep(s: string, p: char -> bool): (r: string)
    ensures |r| <= |s|
    decreases |s|
  {
    if s == [] then [] else (if p(s[0]) then [s[0]] else []) + Keep(s[1..], p)
  }

  lemma {:induction false} KeepConcat(a: string, b: string, p: char -> bool)
    ensures Keep(a + b, p) == Keep(a, p) + Keep(b, p)
    decreases |a|
  {
    if a != [] {
      var h := if p(a[0]) then [a[0]] else [];
      assert (a + b)[0] == a[0];
      assert (a + b)[1..] == a[1..] + b;
      KeepConcat(a[1..], b, p);
      assert Keep(a + b, p) == h + (Keep(a[1..], p) + Keep(b, p));
      assert h + (Keep(a[1..], p) + Keep(b, p)) == (h + Keep(a[1..], p)) + Keep(b, p);
      assert Keep(a, p) == h + Keep(a[1..], p);
    } else {
      assert a + b == b;
    }
  }

  lemma {:induction false} KeepNone(a: string, p: char -> bool)
    requires forall k :: 0 <= k < |a| ==> !p(a[k])
    ensures Keep(a, p) == []
    decreases |a|
  {
    if a != [] {
      KeepNone(a[1..], p);
    }
  }

  /** After blanks, the next character closes an object or an array. */
  predicate CloserAfterBlanks(s: string) {
    var k := LeadingCount(s, IsSpace);
    k < |s| && IsCloser(s[k])
  }

  /** `_remove_trailing_commas`: `re.sub(r",\s*(?=[}\]])", "", s)`, each match removed with its blanks. */
  function DropTrailingCommas(s: string): (r: string)
    decreases |s|
    ensures |r| <= |s|
  {
    if s == [] then []
    else if s[0] == ',' && CloserAfterBlanks(s[1..]) then DropTrailingCommas(s[1 + LeadingCount(s[1..], IsSpace)..])
    else [s[0]] + DropTrailingCommas(s[1..])
  }

  predicate NotCommaOrBlank(c: char) { c != ',' && !IsSpace(c) }

  /** Only commas and blanks are removed; every other character survives, in order. */
  lemma {:induction false} TrailingCommasKeepContent(s: string)
    ensures Keep(DropTrailingCommas(s), NotCommaOrBlank) == Keep(s, NotCommaOrBlank)
    decreases |s|
  {
    if s != [] {
      if s[0] == ',' && CloserAfterBlanks(s[1..]) {
        var n := 1 + LeadingCount(s[1..], IsSpace);
        TrailingCommasKeepContent(s[n..]);
        assert s == s[..n] + s[n..];
        KeepConcat(s[..n], s[n..], NotCommaOrBlank);
        KeepNone(s[..n], NotCommaOrBlank);
      } else {
        TrailingCommasKeepContent(s[1..]);
        assert [s[0]] + DropTrailingCommas(s[1..]) == [s[0]] + DropTrailingCommas(s[1..]);
        KeepConcat([s[0]], DropTrailingCommas(s[1..]), NotCommaOrBlank);
      }
    }
  }

  /** Some comma of `s` is followed, after blanks, by a closer. */
  predicate HasTrailingComma(s: string) {
    exists k :: 0 <= k < |s| && s[k] == ',' && CloserAfterBlanks(s[k + 1..])
  }

  /** Without a trailing comma the text is unchanged. */
  lemma {:induction false} NoTrailingCommaIdentity(s: string)
    requires !HasTrailingComma(s)
    ensures DropTrailingCommas(s) == s
    decreases |s|
  {
    if s != [] {
      assert !(s[0] == ',' && CloserAfterBlanks(s[1..]));
      forall k | 0 <= k < |s| - 1
        ensures !(s[1..][k] == ',' && CloserAfterBlanks(s[1..][k + 1..]))
      {
        assert s[1..][k + 1..] == s[k + 2..];
        assert !(s[k + 1] == ',' && CloserAfterBlanks(s[k + 1 + 1..]));
      }
      NoTrailingCommaIdentity(s[1..]);
    }
  }

  /** A comma followed by blanks and a closer is removed together with the blanks. */
  lemma TrailingCommaRemoved(blanks: string, closer: char, rest: string)
    requires forall k :: 0 <= k < |blanks| ==> IsSpace(blanks[k])
    requires IsCloser(closer)
    ensures DropTrailingCommas([','] + blanks + [closer] + rest) == [closer] + DropTrailingCommas(rest)
  {
    var s := [','] + blanks + [closer] + rest;
    assert s[1..] == blanks + [closer] + rest;
    BlanksCounted(blanks, [closer] + rest);
    assert s[1..][|blanks|] == closer;
    assert s[1 + |blanks|..] == [closer] + rest;
    assert ([closer] + rest)[1..] == rest;
  }

  lemma {:induction false} BlanksCounted(blanks: string, rest: string)
    requires forall k :: 0 <= k < |blanks| ==> IsSpace(blanks[k])
    requires rest != [] && !IsSpace(rest[0])
    ensures LeadingCount(blanks + rest, IsSpace) == |blanks|
    decreases |blanks|
  {
    if blanks != [] {
      assert (blanks + rest)[1..] == blanks[1..] + rest;
      BlanksCounted(blanks[1..], rest);
    }
  }

  // ---------------------------------------------------------------------
  // _replace_single_quotes_conservative
  // ---------------------------------------------------------------------

  predicate IsKeyChar(c: char) { IsLetter(c) || IsDigit(c) || c == '_' || c == '-' || c == ' ' }

  predicate IsNotSingleQuote(c: char) { c != '\'' }

  /**
   * A single-quoted key starts at `i`: the character before it is `{`, `[`
   * or a blank, one or more key characters sit between the quotes, and a
   * colon follows after blanks. Returns the closing quote and the match end.
   */
  function KeyMatch(s: string, i: nat): (r: Option<(nat, nat)>)
    ensures r.Some? ==> i + 1 < r.value.0 < r.value.1 <= |s|
    ensures r.Some? ==> 0 < i && s[i] == '\'' && s[r.value.0] == '\'' && s[r.value.1 - 1] == ':'
    ensures r.Some? ==> forall j :: r.value.0 < j < r.value.1 - 1 ==> IsSpace(s[j])
  {
    if i == 0 || i >= |s| || s[i] != '\'' || !(IsOpener(s[i - 1]) || IsSpace(s[i - 1])) then None
    else
      var k := SpanEnd(s, i + 1, IsKeyChar);
      if k == i + 1 || k >= |s| || s[k] != '\'' then None
      else
        var m := SpanEnd(s, k + 1, IsSpace);
        if m >= |s| || s[m] != ':' then None else Some((k, m + 1))
  }

  /** The replacement `"key":` for a single-quoted key. */
  function RequotedKey(key: string): string {
    "\"" + key + "\":"
  }

  /** First pass, from position `i` on: each quoted key becomes `"key":`. */
  function QuoteKeysFrom(s: string, i: nat): string
    requires i <= |s|
    decreases |s| - i
  {
    if i == |s| then []
    else
      var m := KeyMatch(s, i);
      if m.Some? then RequotedKey(s[i + 1..m.value.0]) + QuoteKeysFrom(s, m.value.1)
      else [s[i]] + QuoteKeysFrom(s, i + 1)
  }

  /**
   * A single-quoted value starts after the colon at `i`: blanks, a quote,
   * anything up to the next quote, then blanks and a comma or a closer.
   * Returns the two quotes' positions.
   */
  function ValueMatch(s: string, i: nat): (r: Option<(nat, nat)>)
    ensures r.Some? ==> i < r.value.0 < r.value.1 < |s|
    ensures r.Some? ==> s[i] == ':' && s[r.value.0] == '\'' && s[r.value.1] == '\''
    ensures r.Some? ==> forall j :: i < j < r.value.0 ==> IsSpace(s[j])
  {
    if i >= |s| || s[i] != ':' then None
    else
      var a := SpanEnd(s, i + 1, IsSpace);
      if a >= |s| || s[a] != '\'' then None
      else
        var b := SpanEnd(s, a + 1, IsNotSingleQuote);
        if b >= |s| then None
        else
          var c := SpanEnd(s, b + 1, IsSpace);
          if c >= |s| || !(s[c] == ',' || IsCloser(s[c])) then None else Some((a, b))
  }

  /** The replacement `: "value"` for a single-quoted value. */
  function RequotedValue(body: string): string {
    ": \"" + body + "\""
  }

  /** Second pass, from position `i` on: each quoted value becomes `: "value"`. */
  function QuoteValuesFrom(s: string, i: nat): string
    requires i <= |s|
    decreases |s| - i
  {
    if i == |s| then []
    else
      var m := ValueMatch(s, i);
      if m.Some? then RequotedValue(s[m.value.0 + 1..m.value.1]) + QuoteValuesFrom(s, m.value.1 + 1)
      else [s[i]] + QuoteValuesFrom(s, i + 1)
  }

  /** `_replace_single_quotes_conservative`: the key pass, then the value pass. */
  function ReplaceSingleQuotes(s: string): string {
    var keyed := QuoteKeysFrom(s, 0);
    QuoteValuesFrom(keyed, 0)
  }

  predicate HasNoSingleQuote(s: string) {
    forall k :: 0 <= k < |s| ==> s[k] != '\''
  }

  lemma {:induction false} QuoteKeysIdentity(s: string, i: nat)
    requires i <= |s| && HasNoSingleQuote(s)
    ensures QuoteKeysFrom(s, i) == s[i..]
    decreases |s| - i
  {
    if i < |s| {
      assert KeyMatch(s, i).None?;
      KeysNoMatch(s, i);
      QuoteKeysIdentity(s, i + 1);
      assert s[i..] == [s[i]] + s[i + 1..];
    }
  }

  lemma {:induction false} QuoteValuesIdentity(s: string, i: nat)
    requires i <= |s| && HasNoSingleQuote(s)
    ensures QuoteValuesFrom(s, i) == s[i..]
    decreases |s| - i
  {
    if i < |s| {
      assert ValueMatch(s, i).None?;
      ValuesNoMatch(s, i);
      QuoteValuesIdentity(s, i + 1);
      assert s[i..] == [s[i]] + s[i + 1..];
    }
  }

  /** Text without single quotes is not touched. */
  lemma SingleQuotesIdentity(s: string)
    requires HasNoSingleQuote(s)
    ensures ReplaceSingleQuotes(s) == s
  {
    QuoteKeysIdentity(s, 0);
    assert s[0..] == s;
    QuoteValuesIdentity(s, 0);
  }

  /** Neither a quote of either kind nor a blank. */
  predicate IsContent(c: char) { c != '\'' && c != '"' && !IsSpace(c) }

  lemma KeepSingleton(c: char, p: char -> bool)
    ensures Keep([c], p) == (if p(c) then [c] else [])
  {
    assert [c][1..] == [];
  }

  lemma KeepAround(pre: string, mid: string, post: string, p: char -> bool)
    requires Keep(pre, p) == []
    ensures Keep(pre + mid + post, p) == Keep(mid, p) + Keep(post, p)
  {
    KeepConcat(pre, mid, p);
    assert Keep(pre, p) + Keep(mid, p) == Keep(mid, p);
    KeepConcat(pre + mid, post, p);
  }

  lemma KeepSwap(x: string, y: string, r1: string, r2: string, p: char -> bool)
    requires Keep(x, p) == Keep(y, p) && Keep(r1, p) == Keep(r2, p)
    ensures Keep(x + r1, p) == Keep(y + r2, p)
  {
    KeepConcat(x, r1, p);
    KeepConcat(y, r2, p);
  }

  lemma KeepThree(x: string, y: string, z: string, p: char -> bool)
    ensures Keep(x + y + z, p) == Keep(x, p) + Keep(y, p) + Keep(z, p)
  {
    KeepConcat(x + y, z, p);
    KeepConcat(x, y, p);
  }

  /** `s[i..k]` cut at `j`. */
  lemma SliceSplit(s: string, i: nat, j: nat, k: nat)
    requires i <= j <= k <= |s|
    ensures s[i..k] == s[i..j] + s[j..k]
  {
  }

  lemma QuotedKeyTail(blanks: string)
    requires forall j :: 0 <= j < |blanks| ==> IsSpace(blanks[j])
    ensures Keep(['\''] + blanks + [':'], IsContent) == [':']
  {
    var a := ['\''] + blanks;
    BlanksDropped(blanks);
    assert !IsContent('\'') && IsContent(':');
    KeepSingleton('\'', IsContent);
    KeepSingleton(':', IsContent);
    assert Keep(['\''], IsContent) == [] && Keep([':'], IsContent) == [':'];
    KeepConcat(['\''], blanks, IsContent);
    assert Keep(a, IsContent) == [];
    KeepConcat(a, [':'], IsContent);
  }

  /** Blanks carry no content. */
  lemma BlanksDropped(blanks: string)
    requires forall j :: 0 <= j < |blanks| ==> IsSpace(blanks[j])
    ensures Keep(blanks, IsContent) == []
  {
    KeepNone(blanks, IsContent);
  }

  lemma RequotedKeyTail()
    ensures Keep(['"', ':'], IsContent) == [':']
  {
    assert ['"', ':'][1..] == [':'];
    KeepSingleton(':', IsContent);
  }

  /** A quoted key and its re-quoted form agree apart from quotes and blanks. */
  lemma KeyMatchContent(s: string, i: nat, k: nat, e: nat)
    requires KeyMatch(s, i) == Some((k, e))
    ensures Keep(s[i..e], IsContent) == Keep(RequotedKey(s[i + 1..k]), IsContent)
  {
    KeyMatchShape(s, i, k, e);
    KeySwapped(s[i + 1..k], s[k + 1..e - 1]);
  }

  /** The text a key match covers: `'`, the key, `'`, blanks and `:`. */
  lemma KeyMatchShape(s: string, i: nat, k: nat, e: nat)
    requires i + 1 < k < e <= |s| && s[i] == '\'' && s[k] == '\'' && s[e - 1] == ':'
    requires forall j :: k < j < e - 1 ==> IsSpace(s[j])
    ensures s[i..e] == ['\''] + s[i + 1..k] + (['\''] + s[k + 1..e - 1] + [':'])
    ensures All(s[k + 1..e - 1], IsSpace)
  {
    var key := s[i + 1..k];
    var blanks := s[k + 1..e - 1];
    assert s[i..i + 1] == ['\''] && s[k..k + 1] == ['\''] && s[e - 1..e] == [':'];
    SliceSplit(s, k, k + 1, e - 1);
    SliceSplit(s, k, e - 1, e);
    assert s[k..e] == ['\''] + blanks + [':'];
    SliceSplit(s, i + 1, k, e);
    SliceSplit(s, i, i + 1, e);
    AllSlice(s, k + 1, e - 1, IsSpace);
  }

  /** Apart from quotes and blanks, `'key' :` is `"key":`. */
  lemma KeySwapped(key: string, blanks: string)
    requires forall j :: 0 <= j < |blanks| ==> IsSpace(blanks[j])
    ensures Keep(['\''] + key + (['\''] + blanks + [':']), IsContent) == Keep(RequotedKey(key), IsContent)
  {
    KeepSingleton('\'', IsContent);
    KeepAround(['\''], key, ['\''] + blanks + [':'], IsContent);
    QuotedKeyTail(blanks);
    assert RequotedKey(key) == ['"'] + key + ['"', ':'];
    KeepSingleton('"', IsContent);
    KeepAround(['"'], key, ['"', ':'], IsContent);
    RequotedKeyTail();
  }

  lemma KeysAtMatch(s: string, i: nat, k: nat, e: nat)
    requires i < |s| && KeyMatch(s, i) == Some((k, e))
    ensures QuoteKeysFrom(s, i) == RequotedKey(s[i + 1..k]) + QuoteKeysFrom(s, e)
  {
  }

  lemma KeysNoMatch(s: string, i: nat)
    requires i < |s| && KeyMatch(s, i).None?
    ensures QuoteKeysFrom(s, i) == [s[i]] + QuoteKeysFrom(s, i + 1)
  {
  }

  /** The key pass only re-quotes: apart from quotes and blanks, its output is its input. */
  lemma {:induction false} QuoteKeysKeepContent(s: string, i: nat)
    requires i <= |s|
    ensures Keep(QuoteKeysFrom(s, i), IsContent) == Keep(s[i..], IsContent)
    decreases |s| - i
  {
    if i < |s| {
      var e := KeysNext(s, i);
      QuoteKeysKeepContent(s, e);
      KeyKept(s, i, e);
    }
  }

  /** Where the key pass resumes after position `i`. */
  function KeysNext(s: string, i: nat): (e: nat)
    requires i < |s|
    ensures i < e <= |s|
  {
    var m := KeyMatch(s, i);
    if m.Some? then m.value.1 else i + 1
  }

  /** The key pass keeps the content from `i`, given that it does from where it resumes. */
  lemma KeyKept(s: string, i: nat, e: nat)
    requires i < |s| && e == KeysNext(s, i)
    requires Keep(QuoteKeysFrom(s, e), IsContent) == Keep(s[e..], IsContent)
    ensures Keep(QuoteKeysFrom(s, i), IsContent) == Keep(s[i..], IsContent)
  {
    var m := KeyMatch(s, i);
    if m.Some? {
      KeyKeptAtMatch(s, i, m.value.0, m.value.1);
    } else {
      KeyKeptPlain(s, i);
    }
  }

  /** The key pass keeps the content at a match, given that it does after it. */
  lemma KeyKeptAtMatch(s: string, i: nat, k: nat, e: nat)
    requires i < |s| && KeyMatch(s, i) == Some((k, e))
    requires Keep(QuoteKeysFrom(s, e), IsContent) == Keep(s[e..], IsContent)
    ensures Keep(QuoteKeysFrom(s, i), IsContent) == Keep(s[i..], IsContent)
  {
    KeysAtMatch(s, i, k, e);
    KeyMatchContent(s, i, k, e);
    assert s[i..] == s[i..e] + s[e..];
    KeepSwap(RequotedKey(s[i + 1..k]), s[i..e], QuoteKeysFrom(s, e), s[e..], IsContent);
  }

  /** The key pass keeps the content where there is no match, given that it does after it. */
  lemma KeyKeptPlain(s: string, i: nat)
    requires i < |s| && KeyMatch(s, i).None?
    requires Keep(QuoteKeysFrom(s, i + 1), IsContent) == Keep(s[i + 1..], IsContent)
    ensures Keep(QuoteKeysFrom(s, i), IsContent) == Keep(s[i..], IsContent)
  {
    KeysNoMatch(s, i);
    assert s[i..] == [s[i]] + s[i + 1..];
    KeepSwap([s[i]], [s[i]], QuoteKeysFrom(s, i + 1), s[i + 1..], IsContent);
  }

  lemma QuotedValueHead(blanks: string)
    requires forall j :: 0 <= j < |blanks| ==> IsSpace(blanks[j])
    ensures Keep([':'] + blanks + ['\''], IsContent) == [':']
  {
    BlanksDropped(blanks);
    QuoteDropped();
    KeepHead(':', blanks, ['\''], IsContent);
  }

  lemma QuoteDropped()
    ensures IsContent(':') && Keep(['\''], IsContent) == []
  {
    KeepSingleton('\'', IsContent);
  }

  /** A kept character followed by dropped ones is all that is kept. */
  lemma KeepHead(c: char, y: string, z: string, p: char -> bool)
    requires p(c) && Keep(y, p) == [] && Keep(z, p) == []
    ensures Keep([c] + y + z, p) == [c]
  {
    KeepOnlyFirst([c], y, z, p);
    KeepSingleton(c, p);
  }

  lemma KeepOnlyFirst(x: string, y: string, z: string, p: char -> bool)
    requires Keep(y, p) == [] && Keep(z, p) == []
    ensures Keep(x + y + z, p) == Keep(x, p)
  {
    KeepThree(x, y, z, p);
    assert Keep(x, p) + [] + [] == Keep(x, p);
  }

  lemma RequotedValueHead()
    ensures Keep([':', ' ', '"'], IsContent) == [':']
  {
    assert [':', ' ', '"'] == [':'] + [' ', '"'];
    KeepConcat([':'], [' ', '"'], IsContent);
    KeepSingleton(':', IsContent);
    KeepNone([' ', '"'], IsContent);
  }

  /** A quoted value and its re-quoted form agree apart from quotes and blanks. */
  lemma ValueMatchContent(s: string, i: nat, a: nat, b: nat)
    requires ValueMatch(s, i) == Some((a, b))
    ensures Keep(s[i..b + 1], IsContent) == Keep(RequotedValue(s[a + 1..b]), IsContent)
  {
    ValueMatchShape(s, i, a, b);
    ValueSwapped(s[a + 1..b], s[i + 1..a]);
  }

  /** The text a value match covers: `:`, blanks, `'`, the value and `'`. */
  lemma ValueMatchShape(s: string, i: nat, a: nat, b: nat)
    requires i < a < b < |s| && s[i] == ':' && s[a] == '\'' && s[b] == '\''
    requires forall j :: i < j < a ==> IsSpace(s[j])
    ensures s[i..b + 1] == ([':'] + s[i + 1..a] + ['\'']) + s[a + 1..b] + ['\'']
    ensures All(s[i + 1..a], IsSpace)
  {
    var body := s[a + 1..b];
    var blanks := s[i + 1..a];
    assert s[i..i + 1] == [':'] && s[a..a + 1] == ['\''] && s[b..b + 1] == ['\''];
    SliceSplit(s, i, i + 1, a);
    SliceSplit(s, i, a, a + 1);
    assert s[i..a + 1] == [':'] + blanks + ['\''];
    SliceSplit(s, i, a + 1, b);
    SliceSplit(s, i, b, b + 1);
    AllSlice(s, i + 1, a, IsSpace);
  }

  /** Apart from quotes and blanks, `: 'value'` is `: "value"`. */
  lemma ValueSwapped(body: string, blanks: string)
    requires forall j :: 0 <= j < |blanks| ==> IsSpace(blanks[j])
    ensures Keep(([':'] + blanks + ['\'']) + body + ['\''], IsContent) == Keep(RequotedValue(body), IsContent)
  {
    assert RequotedValue(body) == [':', ' ', '"'] + body + ['"'];
    QuotedValueHead(blanks);
    RequotedValueHead();
    KeepSingleton('\'', IsContent);
    KeepSingleton('"', IsContent);
    KeepThree([':'] + blanks + ['\''], body, ['\''], IsContent);
    KeepThree([':', ' ', '"'], body, ['"'], IsContent);
  }

  lemma ValuesAtMatch(s: string, i: nat, a: nat, b: nat)
    requires i < |s| && ValueMatch(s, i) == Some((a, b))
    ensures QuoteValuesFrom(s, i) == RequotedValue(s[a + 1..b]) + QuoteValuesFrom(s, b + 1)
  {
    var m := ValueMatch(s, i);
    assert m.value.0 == a && m.value.1 == b;
  }

  lemma ValuesNoMatch(s: string, i: nat)
    requires i < |s| && ValueMatch(s, i).None?
    ensures QuoteValuesFrom(s, i) == [s[i]] + QuoteValuesFrom(s, i + 1)
  {
  }

  /** The value pass only re-quotes: apart from quotes and blanks, its output is its input. */
  lemma {:induction false} QuoteValuesKeepContent(s: string, i: nat)
    requires i <= |s|
    ensures Keep(QuoteValuesFrom(s, i), IsContent) == Keep(s[i..], IsContent)
    decreases |s| - i
  {
    if i < |s| {
      var e := ValuesNext(s, i);
      QuoteValuesKeepContent(s, e);
      ValueKept(s, i, e);
    }
  }

  /** Where the value pass resumes after position `i`. */
  function ValuesNext(s: string, i: nat): (e: nat)
    requires i < |s|
    ensures i < e <= |s|
  {
    var m := ValueMatch(s, i);
    if m.Some? then m.value.1 + 1 else i + 1
  }

  /** The value pass keeps the content from `i`, given that it does from where it resumes. */
  lemma ValueKept(s: string, i: nat, e: nat)
    requires i < |s| && e == ValuesNext(s, i)
    requires Keep(QuoteValuesFrom(s, e), IsContent) == Keep(s[e..], IsContent)
    ensures Keep(QuoteValuesFrom(s, i), IsContent) == Keep(s[i..], IsContent)
  {
    var m := ValueMatch(s, i);
    if m.Some? {
      ValueKeptAtMatch(s, i, m.value.0, m.value.1);
    } else {
      ValueKeptPlain(s, i);
    }
  }

  /** The value pass keeps the content at a match, given that it does after it. */
  lemma ValueKeptAtMatch(s: string, i: nat, a: nat, b: nat)
    requires i < |s| && ValueMatch(s, i) == Some((a, b))
    requires Keep(QuoteValuesFrom(s, b + 1), IsContent) == Keep(s[b + 1..], IsContent)
    ensures Keep(QuoteValuesFrom(s, i), IsContent) == Keep(s[i..], IsContent)
  {
    ValuesAtMatch(s, i, a, b);
    ValueMatchContent(s, i, a, b);
    assert s[i..] == s[i..b + 1] + s[b + 1..];
    KeepSwap(RequotedValue(s[a + 1..b]), s[i..b + 1], QuoteValuesFrom(s, b + 1), s[b + 1..], IsContent);
  }

  /** The value pass keeps the content where there is no match, given that it does after it. */
  lemma ValueKeptPlain(s: string, i: nat)
    requires i < |s| && ValueMatch(s, i).None?
    requires Keep(QuoteValuesFrom(s, i + 1), IsContent) == Keep(s[i + 1..], IsContent)
    ensures Keep(QuoteValuesFrom(s, i), IsContent) == Keep(s[i..], IsContent)
  {
    ValuesNoMatch(s, i);
    assert s[i..] == [s[i]] + s[i + 1..];
    KeepSwap([s[i]], [s[i]], QuoteValuesFrom(s, i + 1), s[i + 1..], IsContent);
  }

  /** The conservative repair changes quotes and blanks only. */
  lemma SingleQuotesKeepContent(s: string)
    ensures Keep(ReplaceSingleQuotes(s), IsContent) == Keep(s, IsContent)
  {
    QuoteKeysKeepContent(s, 0);
    QuoteValuesKeepContent(QuoteKeysFrom(s, 0), 0);
    assert s[0..] == s;
    assert QuoteKeysFrom(s, 0)[0..] == QuoteKeysFrom(s, 0);
  }

  // ---------------------------------------------------------------------
  // _remove_fences
  // ---------------------------------------------------------------------

  /** `json` in any letter case starts `s`. */
  predicate StartsWithJsonTag(s: string) {
    |s| >= 4 && Lower(s[..4]) == "json"
  }

  /** `re.sub(fence + r"(?:json)?\s*", "", s, flags=re.IGNORECASE)`: an opening fence, its language tag and the blanks after it go. */
  function DropOpeningFences(s: string, fence: string): (r: string)
    requires fence != []
    decreases |s|
  {
    if s == [] then []
    else if StartsWith(s, fence) then
      var rest := s[|fence|..];
      var untagged := if StartsWithJsonTag(rest) then rest[4..] else rest;
      DropOpeningFences(untagged[LeadingCount(untagged, IsSpace)..], fence)
    else [s[0]] + DropOpeningFences(s[1..], fence)
  }

  /** `re.sub(r"\s*" + fence, "", s)`: a fence and the blanks before it go. */
  function DropClosingFences(s: string, fence: string): (r: string)
    requires fence != []
    decreases |s|
  {
    if s == [] then []
    else
      var k := LeadingCount(s, IsSpace);
      if OccursAt(s, fence, k) then DropClosingFences(s[k + |fence|..], fence)
      else [s[0]] + DropClosingFences(s[1..], fence)
  }

  const Backticks := "```"
  const Tildes := "~~~"

  /** `_remove_fences`: backtick fences, then tilde fences, then `strip()`. */
  function RemoveFences(s: string): (r: string)
    ensures r == [] || (!IsSpace(r[0]) && !IsSpace(r[|r| - 1]))
  {
    var t1 := DropOpeningFences(s, Backticks);
    var t2 := DropClosingFences(t1, Backticks);
    var t3 := DropOpeningFences(t2, Tildes);
    var t4 := DropClosingFences(t3, Tildes);
    Strip(t4)
  }

  /** Text without the fence character passes an opening-fence pass unchanged, whatever follows it. */
  lemma {:induction false} OpeningFencesSkipPlain(x: string, y: string, fence: string)
    requires fence != [] && Lacks(x, fence[0])
    ensures DropOpeningFences(x + y, fence) == x + DropOpeningFences(y, fence)
    decreases |x|
  {
    if x != [] {
      var s := x + y;
      ConcatTail(x, y);
      OpeningFenceCopies(s, fence);
      OpeningFencesSkipPlain(x[1..], y, fence);
      ConsJoin(x, DropOpeningFences(s, fence), DropOpeningFences(x[1..] + y, fence), DropOpeningFences(y, fence));
    } else {
      assert x + y == y;
    }
  }

  /** Where no fence starts, the first character is copied. */
  lemma OpeningFenceCopies(s: string, fence: string)
    requires fence != [] && s != [] && s[0] != fence[0]
    ensures DropOpeningFences(s, fence) == [s[0]] + DropOpeningFences(s[1..], fence)
  {
    assert !StartsWith(s, fence) by {
      if |fence| <= |s| { assert s[..|fence|][0] == s[0]; }
    }
  }

  lemma {:induction false} ClosingFencesIdentity(s: string, fence: string)
    requires fence != [] && Lacks(s, fence[0])
    ensures DropClosingFences(s, fence) == s
    decreases |s|
  {
    if s != [] {
      var k := LeadingCount(s, IsSpace);
      assert !OccursAt(s, fence, k) by {
        if k + |fence| <= |s| { assert s[k..k + |fence|][0] == s[k]; }
      }
      ClosingFencesIdentity(s[1..], fence);
      assert s == [s[0]] + s[1..];
    }
  }

  lemma OpeningFencesIdentity(s: string, fence: string)
    requires fence != [] && Lacks(s, fence[0])
    ensures DropOpeningFences(s, fence) == s
  {
    OpeningFencesSkipPlain(s, [], fence);
    assert s + [] == s;
  }

  lemma StripTrailingNewline(b: string)
    requires b != [] && !IsSpace(b[0]) && !IsSpace(b[|b| - 1])
    ensures Strip(b + "\n") == b
  {
    var s := b + "\n";
    assert LeadingCount(s, IsSpace) == 0;
    assert s[0..] == s;
    assert s[..|s| - 1] == b;
    assert TrailingCount(s, IsSpace) == 1 + TrailingCount(b, IsSpace);
    assert TrailingCount(b, IsSpace) == 0;
    assert s[..|s| - 1] == b;
  }

  /** A body fenced as a `json` code block comes out as the bare body. */
  lemma FencedBlockUnwrapped(body: string)
    requires body != [] && !IsSpace(body[0]) && !IsSpace(body[|body| - 1])
    requires Lacks(body, '`') && Lacks(body, '~')
    ensures RemoveFences("```json\n" + body + "\n```") == body
  {
    var t1 := body + "\n";
    OpeningFenceDropped(body);
    ClosingFencesIdentity(t1, Backticks);
    OpeningFencesIdentity(t1, Tildes);
    ClosingFencesIdentity(t1, Tildes);
    StripTrailingNewline(body);
  }

  /** The opening fence with its `json` tag and line break goes, and so does the closing fence. */
  lemma OpeningFenceDropped(body: string)
    requires body != [] && !IsSpace(body[0])
    requires Lacks(body, '`')
    ensures DropOpeningFences("```json\n" + body + "\n```", Backticks) == body + "\n"
  {
    var x := body + "\n";
    OpeningFenceSkipped(body);
    NewlineKeepsLacks(body, '`');
    FenceAfterPlain(x);
    FenceAppended(body);
  }

  lemma FenceAppended(body: string)
    ensures body + "\n```" == (body + "\n") + Backticks
  {
    assert "\n```" == "\n" + Backticks;
  }

  lemma NewlineKeepsLacks(s: string, c: char)
    requires Lacks(s, c) && c != '\n'
    ensures Lacks(s + "\n", c)
  {
    var x := s + "\n";
    forall k | 0 <= k < |x| ensures x[k] != c {
      if k < |s| {
        assert x[k] == s[k];
      }
    }
  }

  /** A trailing fence after plain text is dropped and the text is kept. */
  lemma FenceAfterPlain(x: string)
    requires Lacks(x, '`')
    ensures DropOpeningFences(x + Backticks, Backticks) == x
  {
    OpeningFencesSkipPlain(x, Backticks, Backticks);
    assert DropOpeningFences(Backticks, Backticks) == [] by {
      assert StartsWith(Backticks, Backticks);
      assert Backticks[3..] == [];
    }
    assert x + [] == x;
  }

  /** The pass over the fenced block resumes at the body. */
  lemma OpeningFenceSkipped(body: string)
    requires body != [] && !IsSpace(body[0])
    ensures DropOpeningFences("```json\n" + body + "\n```", Backticks) == DropOpeningFences(body + "\n```", Backticks)
  {
    var s := "```json\n" + body + "\n```";
    assert StartsWith(s, Backticks) by {
      assert s[..3] == Backticks;
    }
    var rest := s[3..];
    assert rest == "json\n" + body + "\n```";
    assert rest[..4] == "json";
    assert StartsWithJsonTag(rest);
    var untagged := rest[4..];
    assert untagged == "\n" + body + "\n```";
    assert untagged[1..] == body + "\n```";
    assert LeadingCount(untagged, IsSpace) == 1 by {
      assert untagged[1..][0] == body[0];
    }
  }

  // ---------------------------------------------------------------------
  // clean_json_text, parse_json_from_llm
  // ---------------------------------------------------------------------

  /** `clean_json_text`: None gives the empty text; otherwise the seven repairs in order, then `strip()`. */
  function CleanJsonText(text: Option<string>): (r: string)
    ensures text.None? ==> r == []
    ensures r == [] || (!IsSpace(r[0]) && !IsSpace(r[|r| - 1]))
  {
    match text
    case None => []
    case Some(t) => Strip(Repaired(t))
  }

  /** The seven repairs of `clean_json_text`, before the final `strip()`. */
  function Repaired(t: string): string {
    var straight := ReplaceSmartQuotes(StripComments(RemoveFences(t)));
    var block := MainBlock(straight);
    DropTrailingCommas(JoinBrokenStrings(ReplaceSingleQuotes(block)))
  }

  /** The first balanced block when there is a non-empty one, otherwise the whole text. */
  function MainBlock(straight: string): string {
    match FirstJson(straight)
    case Some(e) => if e != [] then e else straight
    case None => straight
  }

  /** `re.sub(r"(?<!\\)'", '"', s)`: every single quote not preceded by a backslash becomes a double quote. */
  function ReplaceUnescapedSingleQuotes(s: string): (r: string)
    ensures |r| == |s|
    ensures forall k :: 0 <= k < |s| && s[k] == '\'' && (k == 0 || s[k - 1] != '\\') ==> r[k] == '"'
    ensures forall k :: 0 <= k < |s| && s[k] != '\'' ==> r[k] == s[k]
    ensures forall k :: 0 <= k < |r| && r[k] == '\'' ==> k > 0 && r[k - 1] == '\\'
  {
    seq(|s|, k requires 0 <= k < |s| => if s[k] == '\'' && (k == 0 || s[k - 1] != '\\') then '"' else s[k])
  }

  /** One entry of the attempt record: whether the stage parsed, its error message, and the text it tried. */
  datatype StageRecord = StageRecord(success: bool, error: Option<string>, text: Option<string>)

  /** The detail a parse failure carries. */
  datatype ParseDetail = ParseDetail(original: string, direct: StageRecord, cleaned: StageRecord, aggressive: StageRecord)

  /** `ParseError`: a message and the detail of every attempt. */
  datatype ParseError = ParseError(message: string, detail: ParseDetail)

  const ParseFailureMessage := "Failed to parse JSON from LLM output."

  /** The text the third stage parses: aggressive quote replacement, then trailing-comma removal. */
  function AggressiveText(cleaned: string): string {
    DropTrailingCommas(ReplaceUnescapedSingleQuotes(cleaned))
  }

  /**
   * `parse_json_from_llm`: the raw text, then the cleaned text, then the
   * aggressive repair, each given to the JSON decoder `loads`; the first
   * stage that decodes wins, and when none does the error records all three.
   */
  function ParseJsonFromLlm(text: Option<string>, loads: string -> Result<Json, string>): (r: Result<Json, ParseError>)
    ensures var original := text.GetOr([]);
      var cleaned := CleanJsonText(Some(original));
      var aggressive := AggressiveText(cleaned);
      && (loads(original).Ok? ==> r == Ok(loads(original).value))
      && (loads(original).Err? && loads(cleaned).Ok? ==> r == Ok(loads(cleaned).value))
      && (loads(original).Err? && loads(cleaned).Err? && loads(aggressive).Ok? ==> r == Ok(loads(aggressive).value))
      && (r.Err? <==> loads(original).Err? && loads(cleaned).Err? && loads(aggressive).Err?)
      && (r.Err? ==> r.error == ParseError(ParseFailureMessage, ParseDetail(original,
            StageRecord(false, Some(loads(original).error), None),
            StageRecord(false, Some(loads(cleaned).error), Some(cleaned)),
            StageRecord(false, Some(loads(aggressive).error), Some(aggressive)))))
  {
    var original := text.GetOr([]);
    match loads(original)
    case Ok(v) => Ok(v)
    case Err(e0) =>
      var cleaned := CleanJsonText(Some(original));
      match loads(cleaned)
      case Ok(v) => Ok(v)
      case Err(e1) =>
        var aggressive := AggressiveText(cleaned);
        match loads(aggressive)
        case Ok(v) => Ok(v)
        case Err(e2) =>
          Err(ParseError(ParseFailureMessage, ParseDetail(original,
            StageRecord(false, Some(e0), None),
            StageRecord(false, Some(e1), Some(cleaned)),
            StageRecord(false, Some(e2), Some(aggressive)))))
  }
}
