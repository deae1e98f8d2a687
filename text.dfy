/**
 * String helpers shared by the model. Python's and JavaScript's whitespace,
 * case mapping and alphanumeric tests are Unicode-aware; here they are
 * defined on ASCII only (see README, "Left out").
 */
module Text {

  /** The ASCII characters of JavaScript's `\s` and `String.prototype.trim`. */
  predicate IsJsSpace(c: char) {
    c == ' ' || c == '\t' || c == '\n' || c == '\r' || c == '\U{0B}' || c == '\U{0C}'
  }

  /**
   * The ASCII characters of Python's `str.isspace`, which `str.strip()` and the
   * `\s` of `re` on `str` patterns use: JavaScript's six and the separators
   * `\x1c`–`\x1f`.
   */
  predicate IsSpace(c: char) {
    IsJsSpace(c) || '\U{1C}' <= c <= '\U{1F}'
  }

  predicate IsNewline(c: char) { c == '\n' || c == '\r' }

  predicate IsUpper(c: char) { 'A' <= c <= 'Z' }
  predicate IsLower(c: char) { 'a' <= c <= 'z' }
  predicate IsLetter(c: char) { IsUpper(c) || IsLower(c) }
  predicate IsDigit(c: char) { '0' <= c <= '9' }
  predicate IsAlnum(c: char) { IsLetter(c) || IsDigit(c) }
  predicate IsAscii(c: char) { c < '\U{80}' }

  function ToLowerChar(c: char): (r: char)
    ensures IsUpper(c) ==> IsLower(r)
    ensures !IsUpper(c) ==> r == c
  {
    if IsUpper(c) then (c as int + 32) as char else c
  }

  function ToUpperChar(c: char): (r: char)
    ensures IsLower(c) ==> IsUpper(r)
    ensures !IsLower(c) ==> r == c
  {
    if IsLower(c) then (c as int - 32) as char else c
  }

  /** `str.lower()` on ASCII text. */
  function Lower(s: string): (r: string)
    ensures |r| == |s|
    ensures forall i :: 0 <= i < |s| ==> r[i] == ToLowerChar(s[i])
  {
    seq(|s|, i requires 0 <= i < |s| => ToLowerChar(s[i]))
  }

  /** Character `i` of `str.title()`: upper-cased at the start of a run of letters, lower-cased inside one. */
  function TitleAt(s: string, i: nat): char
    requires i < |s|
  {
    if i > 0 && IsLetter(s[i - 1]) then ToLowerChar(s[i]) else ToUpperChar(s[i])
  }

  /** `str.title()` on ASCII text. */
  function Title(s: string): (r: string)
    ensures |r| == |s|
    ensures forall i :: 0 <= i < |s| ==> r[i] == TitleAt(s, i)
  {
    seq(|s|, i requires 0 <= i < |s| => TitleAt(s, i))
  }

  /**
   * `str.title()` changes only letters, keeps each letter the same letter, and
   * makes it upper-case exactly when it begins a run of letters.
   */
  lemma TitleWords(s: string, i: nat)
    requires i < |s|
    ensures IsLetter(Title(s)[i]) <==> IsLetter(s[i])
    ensures !IsLetter(s[i]) ==> Title(s)[i] == s[i]
    ensures IsLetter(s[i]) ==> (IsUpper(Title(s)[i]) <==> (i == 0 || !IsLetter(s[i - 1])))
    ensures ToLowerChar(Title(s)[i]) == ToLowerChar(s[i])
  {
  }

  /** The character `c` does not occur in `s`. */
  predicate Lacks(s: string, c: char) {
    forall k :: 0 <= k < |s| ==> s[k] != c
  }

  predicate StartsWith(s: string, prefix: string) {
    |prefix| <= |s| && s[..|prefix|] == prefix
  }

  predicate EndsWith(s: string, suffix: string) {
    |suffix| <= |s| && s[|s| - |suffix|..] == suffix
  }

  predicate OccursAt(s: string, pat: string, i: nat) {
    i + |pat| <= |s| && s[i..i + |pat|] == pat
  }

  /** Index of the first occurrence of `pat` in `s` at or after `from`. */
  function IndexOfFrom(s: string, pat: string, from: nat): (r: Option<nat>)
    decreases |s| - from
    ensures r.Some? ==> from <= r.value && OccursAt(s, pat, r.value)
    ensures r.Some? ==> forall j :: from <= j < r.value ==> !OccursAt(s, pat, j)
    ensures r.None? ==> forall j :: from <= j ==> !OccursAt(s, pat, j)
  {
    if from + |pat| > |s| then None
    else if OccursAt(s, pat, from) then Some(from)
    else IndexOfFrom(s, pat, from + 1)
  }

  function IndexOf(s: string, pat: string): (r: Option<nat>)
    ensures r.Some? ==> OccursAt(s, pat, r.value) && forall j :: 0 <= j < r.value ==> !OccursAt(s, pat, j)
    ensures r.None? ==> forall j :: 0 <= j ==> !OccursAt(s, pat, j)
  {
    IndexOfFrom(s, pat, 0)
  }

  /** Python's `pat in s`. */
  predicate Contains(s: string, pat: string) {
    IndexOf(s, pat).Some?
  }

  /** `s.split(sep, 1)[1]`: the text after the first occurrence of `sep`, or None when `sep` does not occur. */
  function AfterFirst(s: string, sep: string): (r: Option<string>)
    ensures r.Some? <==> Contains(s, sep)
    ensures r.Some? ==> exists i: nat :: OccursAt(s, sep, i) && r.value == s[i + |sep|..]
                          && forall j :: 0 <= j < i ==> !OccursAt(s, sep, j)
  {
    match IndexOf(s, sep)
    case None => None
    case Some(i) => Some(s[i + |sep|..])
  }

  /** `s.split(sep)[0]`: the text before the first occurrence of `sep`, or all of `s`. */
  function BeforeFirst(s: string, sep: string): (r: string)
    ensures StartsWith(s, r)
  {
    match IndexOf(s, sep)
    case None => s
    case Some(i) => s[..i]
  }

  /** Number of leading characters of `s` that satisfy `p`. */
  function LeadingCount(s: string, p: char -> bool): (k: nat)
    ensures k <= |s|
    ensures forall j :: 0 <= j < k ==> p(s[j])
    ensures k == |s| || !p(s[k])
  {
    if s == [] || !p(s[0]) then 0 else 1 + LeadingCount(s[1..], p)
  }

  /** `LeadingCount` is the one count that its three properties describe. */
  lemma LeadingCountIs(s: string, p: char -> bool, k: nat)
    requires k <= |s|
    requires forall j :: 0 <= j < k ==> p(s[j])
    requires k == |s| || !p(s[k])
    ensures LeadingCount(s, p) == k
  {
  }

  /** The head and the tail of a concatenation whose first part is not empty. */
  lemma ConcatTail(a: string, b: string)
    requires a != []
    ensures (a + b)[0..] == a + b && (a + b)[0] == a[0] && (a + b)[1..] == a[1..] + b
  {
  }

  /** Putting the first character back in front. */
  lemma ConsJoin(a: string, x: string, y: string, rest: string)
    requires a != [] && x == [a[0]] + y && y == a[1..] + rest
    ensures x == a + rest
  {
    assert [a[0]] + (a[1..] + rest) == ([a[0]] + a[1..]) + rest;
    assert [a[0]] + a[1..] == a;
  }

  lemma SeqAssoc(a: string, b: string, c: string)
    ensures a + (b + c) == (a + b) + c
  {
  }

  /** The end of the run of characters satisfying `p` that starts at `i`. */
  function SpanEnd(s: string, i: nat, p: char -> bool): (j: nat)
    requires i <= |s|
    decreases |s| - i
    ensures i <= j <= |s|
    ensures forall k :: i <= k < j ==> p(s[k])
    ensures j == |s| || !p(s[j])
  {
    if i == |s| || !p(s[i]) then i else SpanEnd(s, i + 1, p)
  }

  /** `SpanEnd` is the one position with its three properties. */
  lemma SpanEndIs(s: string, i: nat, p: char -> bool, j: nat)
    requires i <= j <= |s|
    requires forall k :: i <= k < j ==> p(s[k])
    requires j == |s| || !p(s[j])
    ensures SpanEnd(s, i, p) == j
  {
  }

  /** Number of trailing characters of `s` that satisfy `p`. */
  function TrailingCount(s: string, p: char -> bool): (k: nat)
    ensures k <= |s|
    ensures forall j :: |s| - k <= j < |s| ==> p(s[j])
    ensures k == |s| || !p(s[|s| - 1 - k])
  {
    if s == [] || !p(s[|s| - 1]) then 0 else 1 + TrailingCount(s[..|s| - 1], p)
  }

  /** Every character of `s` satisfies `p`. */
  predicate All(s: string, p: char -> bool) {
    forall k :: 0 <= k < |s| ==> p(s[k])
  }

  /** `t` is `s[i..j]`, and every character of `s` outside `i..j` satisfies `q`. */
  predicate SliceAt(s: string, t: string, q: char -> bool, i: nat, j: nat) {
    i <= j <= |s| && t == s[i..j] && All(s[..i], q) && All(s[j..], q)
  }

  /** `t` is `s` with a prefix and a suffix of characters satisfying `q` removed. */
  ghost predicate TrimmedSlice(s: string, t: string, q: char -> bool) {
    exists i: nat, j: nat :: SliceAt(s, t, q, i, j)
  }

  /**
   * `s.strip(chars)` for the set of characters `p`: the slice left once every
   * leading and every trailing character in the set is removed.
   */
  function TrimBy(s: string, p: char -> bool): (r: string)
    ensures r == [] || (!p(r[0]) && !p(r[|r| - 1]))
    ensures TrimmedSlice(s, r, p)
    ensures (s == [] || (!p(s[0]) && !p(s[|s| - 1]))) ==> r == s
  {
    var a := LeadingCount(s, p);
    var rest := s[a..];
    var b := TrailingCount(rest, p);
    TrimByEnds(s, p, a, b);
    assert rest[..|rest| - b] == s[a..|s| - b];
    rest[..|rest| - b]
  }

  lemma TrimByEnds(s: string, p: char -> bool, a: nat, b: nat)
    requires a == LeadingCount(s, p) && b == TrailingCount(s[a..], p)
    ensures a <= |s| - b && SliceAt(s, s[a..|s| - b], p, a, |s| - b)
  {
    LeadingAll(s, p, a);
    TrailingAll(s, p, a, b);
  }

  lemma LeadingAll(s: string, p: char -> bool, a: nat)
    requires a == LeadingCount(s, p)
    ensures All(s[..a], p)
  {
    forall k | 0 <= k < a ensures p(s[..a][k]) {
      assert s[..a][k] == s[k];
    }
  }

  lemma TrailingAll(s: string, p: char -> bool, a: nat, b: nat)
    requires a <= |s| && b == TrailingCount(s[a..], p)
    ensures a <= |s| - b && All(s[|s| - b..], p)
  {
    var rest := s[a..];
    var tail := s[|s| - b..];
    forall k | 0 <= k < |tail| ensures p(tail[k]) {
      assert tail[k] == rest[|rest| - b + k];
    }
  }

  /** `TrailingCount` is the one count that its three properties describe. */
  lemma TrailingCountIs(s: string, p: char -> bool, k: nat)
    requires k <= |s|
    requires forall j :: |s| - k <= j < |s| ==> p(s[j])
    requires k == |s| || !p(s[|s| - 1 - k])
    ensures TrailingCount(s, p) == k
  {
    if s != [] && p(s[|s| - 1]) {
      TrailingCountIs(s[..|s| - 1], p, k - 1);
    }
  }

  /**
   * Stripping `a + m + b`, where `a` and `b` consist of stripped characters and
   * `m` has none at its ends, leaves exactly `m`.
   */
  lemma {:induction false} TrimByIs(a: string, m: string, b: string, p: char -> bool)
    requires All(a, p) && All(b, p)
    requires m == [] || (!p(m[0]) && !p(m[|m| - 1]))
    ensures TrimBy(a + m + b, p) == m
  {
    var s := a + m + b;
    if m == [] {
      assert s == a + b;
      LeadingCountIs(s, p, |s|);
      assert TrailingCount(s[|s|..], p) == 0;
    } else {
      assert s[|a|] == m[0];
      LeadingCountIs(s, p, |a|);
      var rest := s[|a|..];
      assert rest == m + b;
      assert rest[|rest| - 1 - |b|] == m[|m| - 1];
      TrailingCountIs(rest, p, |b|);
      assert rest[..|rest| - |b|] == m;
    }
  }

  /** `s.strip()`: the slice left once the leading and trailing whitespace is removed. */
  function Strip(s: string): (r: string)
    ensures r == [] || (!IsSpace(r[0]) && !IsSpace(r[|r| - 1]))
    ensures TrimmedSlice(s, r, IsSpace)
  {
    TrimBy(s, IsSpace)
  }

  /** JavaScript's `s.trim()`: the slice left once the leading and trailing whitespace is removed. */
  function Trim(s: string): (r: string)
    ensures r == [] || (!IsJsSpace(r[0]) && !IsJsSpace(r[|r| - 1]))
    ensures TrimmedSlice(s, r, IsJsSpace)
  {
    TrimBy(s, IsJsSpace)
  }

  /** A character that `StripQuotes` may remove: whitespace or either quote. */
  predicate IsBlankOrQuote(c: char) { IsSpace(c) || c == '"' || c == '\'' }

  predicate IsDoubleQuote(c: char) { c == '"' }
  predicate IsSingleQuote(c: char) { c == '\'' }

  /** `s.strip().strip('"').strip("'")`, the quote-stripping chain the source uses on selector values. */
  function StripQuotes(s: string): (r: string)
    ensures r == [] || (r[0] != '\'' && r[|r| - 1] != '\'')
    ensures TrimmedSlice(s, r, IsBlankOrQuote)
  {
    StripChainTrims(s);
    TrimBy(TrimBy(Strip(s), IsDoubleQuote), IsSingleQuote)
  }

  lemma StripChainTrims(s: string)
    ensures TrimmedSlice(s, TrimBy(TrimBy(Strip(s), IsDoubleQuote), IsSingleQuote), IsBlankOrQuote)
  {
    var s1 := Strip(s);
    var s2 := TrimBy(s1, IsDoubleQuote);
    var r := TrimBy(s2, IsSingleQuote);
    WidenSlice(s, s1, IsSpace, IsBlankOrQuote);
    WidenSlice(s1, s2, IsDoubleQuote, IsBlankOrQuote);
    WidenSlice(s2, r, IsSingleQuote, IsBlankOrQuote);
    SliceTrans(s, s1, s2, IsBlankOrQuote);
    SliceTrans(s, s2, r, IsBlankOrQuote);
  }

  lemma WidenSlice(s: string, t: string, p: char -> bool, q: char -> bool)
    requires TrimmedSlice(s, t, p)
    requires forall c :: p(c) ==> q(c)
    ensures TrimmedSlice(s, t, q)
  {
    var i: nat, j: nat :| SliceAt(s, t, p, i, j);
    assert All(s[..i], q) && All(s[j..], q);
    assert SliceAt(s, t, q, i, j);
  }

  /** Trimming the ends of a trimmed slice trims the ends of the original. */
  lemma Compose(s: string, i1: nat, j1: nat, i2: nat, j2: nat, q: char -> bool)
    requires i1 <= j1 <= |s| && i2 <= j2 <= j1 - i1
    requires All(s[..i1], q) && All(s[j1..], q)
    requires All(s[i1..j1][..i2], q) && All(s[i1..j1][j2..], q)
    ensures All(s[..i1 + i2], q) && All(s[i1 + j2..], q)
    ensures s[i1..j1][i2..j2] == s[i1 + i2..i1 + j2]
  {
    forall k | 0 <= k < j2 - i2
      ensures s[i1..j1][i2..j2][k] == s[i1 + i2..i1 + j2][k]
    {
      assert s[i1..j1][i2..j2][k] == s[i1..j1][i2 + k] == s[i1 + i2 + k];
    }
    var t := s[i1..j1];
    AllJoin(s[..i1], t[..i2], q);
    AllJoin(t[j2..], s[j1..], q);
    assert s[..i1 + i2] == s[..i1] + t[..i2];
    assert s[i1 + j2..] == t[j2..] + s[j1..];
  }

  lemma SliceTrans(s: string, t: string, r: string, q: char -> bool)
    requires TrimmedSlice(s, t, q) && TrimmedSlice(t, r, q)
    ensures TrimmedSlice(s, r, q)
  {
    var i1: nat, j1: nat :| SliceAt(s, t, q, i1, j1);
    var i2: nat, j2: nat :| SliceAt(t, r, q, i2, j2);
    Compose(s, i1, j1, i2, j2, q);
    assert SliceAt(s, r, q, i1 + i2, i1 + j2);
  }

  /** A stretch of characters that all satisfy `q` is a slice of which `All` holds. */
  lemma AllSlice(s: string, lo: nat, hi: nat, q: char -> bool)
    requires lo <= hi <= |s|
    requires forall j :: lo <= j < hi ==> q(s[j])
    ensures All(s[lo..hi], q)
  {
    var t := s[lo..hi];
    forall j | 0 <= j < |t| ensures q(t[j]) {
      assert t[j] == s[lo + j];
    }
  }

  lemma AllJoin(a: string, b: string, q: char -> bool)
    requires All(a, q) && All(b, q)
    ensures All(a + b, q)
  {
    forall k | 0 <= k < |a + b|
      ensures q((a + b)[k])
    {
      if k < |a| {
        assert (a + b)[k] == a[k];
      } else {
        assert (a + b)[k] == b[k - |a|];
      }
    }
  }

  /** Stripping quotes from a value quoted with `"` and holding no outer blanks or quotes gives the bare value. */
  lemma StripQuotesUnquotes(x: string)
    requires x == [] || (!IsBlankOrQuote(x[0]) && !IsBlankOrQuote(x[|x| - 1]))
    ensures StripQuotes(x) == x
    ensures StripQuotes("\"" + x + "\"") == x
  {
    StripQuotesKeeps(x);
    StripQuotesDrops(x);
  }

  lemma StripQuotesKeeps(x: string)
    requires x == [] || (!IsBlankOrQuote(x[0]) && !IsBlankOrQuote(x[|x| - 1]))
    ensures StripQuotes(x) == x
  {
    StripQuotesOf(x, x);
  }

  lemma StripQuotesDrops(x: string)
    requires x == [] || (!IsBlankOrQuote(x[0]) && !IsBlankOrQuote(x[|x| - 1]))
    ensures StripQuotes("\"" + x + "\"") == x
  {
    var q := "\"" + x + "\"";
    assert q[0] == '"' && q[|q| - 1] == '"';
    TrimByIs("\"", x, "\"", IsDoubleQuote);
    StripQuotesOf(q, x);
  }

  /** The quote-stripping chain on a text without outer blanks, whose `"`-stripped form `r` has no outer `'`. */
  lemma StripQuotesOf(s: string, r: string)
    requires s == [] || (!IsSpace(s[0]) && !IsSpace(s[|s| - 1]))
    requires TrimBy(s, IsDoubleQuote) == r
    requires r == [] || (!IsSingleQuote(r[0]) && !IsSingleQuote(r[|r| - 1]))
    ensures StripQuotes(s) == r
  {
    assert Strip(s) == s;
    assert TrimBy(r, IsSingleQuote) == r;
  }

  /** `s.replace(old, repl)`: every non-overlapping occurrence, scanning left to right. */
  function Replace(s: string, target: string, repl: string): (r: string)
    requires target != []
    decreases |s|
    ensures !Contains(s, target) ==> r == s
  {
    if s == [] then []
    else if StartsWith(s, target) then repl + Replace(s[|target|..], target, repl)
    else
      assert !Contains(s, target) ==> !Contains(s[1..], target) by {
        if Contains(s[1..], target) {
          var i := IndexOf(s[1..], target).value;
          assert OccursAt(s, target, i + 1);
        }
      }
      [s[0]] + Replace(s[1..], target, repl)
  }

  /**
   * At the first occurrence of the target, `replace` copies the text before it,
   * emits the replacement and goes on after the occurrence.
   */
  lemma {:induction false} ReplaceAtFirst(a: string, t: string, b: string, u: string)
    requires t != []
    requires forall j :: 0 <= j < |a| ==> !OccursAt(a + t, t, j)
    ensures Replace(a + t + b, t, u) == a + u + Replace(b, t, u)
    decreases |a|, 1
  {
    if a == [] {
      ReplaceAtStart(a, t, b, u);
    } else {
      ReplaceAtFirstStep(a, t, b, u);
    }
  }

  /** One step of `ReplaceAtFirst`: the first character of `a` is copied. */
  lemma ReplaceAtFirstStep(a: string, t: string, b: string, u: string)
    requires t != [] && a != []
    requires forall j :: 0 <= j < |a| ==> !OccursAt(a + t, t, j)
    ensures Replace(a + t + b, t, u) == a + u + Replace(b, t, u)
    decreases |a|, 0
  {
    FirstLater(a, t, b);
    ReplaceAtFirst(a[1..], t, b, u);
    ReplaceTail(a, t, b, u, Replace(b, t, u));
  }

  lemma ReplaceAtStart(a: string, t: string, b: string, u: string)
    requires t != [] && a == []
    ensures Replace(a + t + b, t, u) == a + u + Replace(b, t, u)
  {
    var s := a + t + b;
    assert s == t + b;
    assert s[..|t|] == t;
    assert s[|t|..] == b;
    assert a + u == u;
  }

  lemma ReplaceTail(a: string, t: string, b: string, u: string, rb: string)
    requires t != [] && a != [] && !StartsWith(a + t + b, t)
    requires (a + t + b)[1..] == a[1..] + t + b
    requires Replace(a[1..] + t + b, t, u) == a[1..] + u + rb
    ensures Replace(a + t + b, t, u) == a + u + rb
  {
    var s := a + t + b;
    assert s[0] == a[0];
    assert Replace(s, t, u) == [a[0]] + (a[1..] + u + rb);
    ConsAssoc(a, u, rb);
  }

  lemma ConsAssoc(a: string, u: string, r: string)
    requires a != []
    ensures [a[0]] + (a[1..] + u + r) == a + u + r
  {
    assert [a[0]] + a[1..] == a;
  }

  /** When the first occurrence is not at the start, dropping the first character moves it one place left. */
  lemma FirstLater(a: string, t: string, b: string)
    requires t != [] && a != []
    requires forall j :: 0 <= j < |a| ==> !OccursAt(a + t, t, j)
    ensures !StartsWith(a + t + b, t)
    ensures (a + t + b)[1..] == a[1..] + t + b
    ensures forall j :: 0 <= j < |a| - 1 ==> !OccursAt(a[1..] + t, t, j)
  {
    var s := a + t + b;
    assert !OccursAt(a + t, t, 0);
    assert s[..|t|] == (a + t)[..|t|];
    assert s[1..] == a[1..] + t + b;
    forall j | 0 <= j < |a| - 1
      ensures !OccursAt(a[1..] + t, t, j)
    {
      assert !OccursAt(a + t, t, j + 1);
      assert (a[1..] + t)[j..j + |t|] == (a + t)[j + 1..j + 1 + |t|];
    }
  }

  function Join(parts: seq<string>, sep: string): string {
    if parts == [] then []
    else if |parts| == 1 then parts[0]
    else parts[0] + sep + Join(parts[1..], sep)
  }

  function DigitChar(d: nat): char
    requires d < 10
  {
    ('0' as int + d) as char
  }

  /** Decimal rendering of a natural number, as `str(n)`. */
  function NatToString(n: nat): (r: string)
    ensures |r| >= 1
    ensures forall i :: 0 <= i < |r| ==> IsDigit(r[i])
  {
    if n < 10 then [DigitChar(n)] else NatToString(n / 10) + [DigitChar(n % 10)]
  }

  /** Decimal rendering of an integer, as `str(i)`. */
  function IntToString(i: int): string {
    if i < 0 then "-" + NatToString(-i) else NatToString(i)
  }

  /** Value of a non-empty string of ASCII digits, as `int(d)`. */
  function DigitsValue(s: string): (v: nat)
    requires forall i :: 0 <= i < |s| ==> IsDigit(s[i])
  {
    if s == [] then 0
    else
      assert IsDigit(s[|s| - 1]);
      DigitsValue(s[..|s| - 1]) * 10 + (s[|s| - 1] as int - '0' as int)
  }

  /** `f"{n:04d}"`: zero-padded to at least four digits. */
  function ZeroPad4(n: nat): (r: string)
    ensures |r| >= 4
    ensures forall i :: 0 <= i < |r| ==> IsDigit(r[i])
  {
    var d := NatToString(n);
    if |d| >= 4 then d else seq(4 - |d|, _ => '0') + d
  }

  import opened Wrappers
}
