/**
 * The values `json.loads` produces, as Python sees them, with Python's
 * truthiness and its `str`/`repr` renderings. Numbers are integers only.
 */
module Json {
  import opened Wrappers
  import opened Text

  datatype Json =
    | JNull
    | JBool(b: bool)
    | JNum(n: int)
    | JStr(s: string)
    | JArr(items: seq<Json>)
    | JObj(fields: seq<(string, Json)>)

  /** Python's `bool(v)`: the falsy values are None, False, 0, the empty text, `[]` and `{}`. */
  predicate Truthy(v: Json)
    ensures Truthy(v) <==>
      !(v == JNull || v == JBool(false) || v == JNum(0) || v == JStr("") || v == JArr([]) || v == JObj([]))
  {
    match v
    case JNull => false
    case JBool(b) => b
    case JNum(n) => n != 0
    case JStr(s) => s != ""
    case JArr(items) => items != []
    case JObj(fields) => fields != []
  }

  /** `key in d`. */
  predicate HasKey(fields: seq<(string, Json)>, key: string) {
    fields != [] && (fields[0].0 == key || HasKey(fields[1..], key))
  }

  /** `key in d` holds exactly when some entry has that key. */
  lemma {:induction false} HasKeyIff(fields: seq<(string, Json)>, key: string)
    ensures HasKey(fields, key) <==> exists i :: 0 <= i < |fields| && fields[i].0 == key
  {
    if fields != [] {
      HasKeyIff(fields[1..], key);
      if exists i :: 0 <= i < |fields| && fields[i].0 == key {
        var i :| 0 <= i < |fields| && fields[i].0 == key;
        if i > 0 { assert fields[1..][i - 1].0 == key; }
      }
      if HasKey(fields[1..], key) && fields[0].0 != key {
        var i :| 0 <= i < |fields[1..]| && fields[1..][i].0 == key;
        assert fields[i + 1].0 == key;
      }
    }
  }

  /** Entry `i` is the first with key `key`. */
  predicate FirstWith(fields: seq<(string, Json)>, key: string, i: nat)
    requires i < |fields|
  {
    fields[i].0 == key && forall j :: 0 <= j < i ==> fields[j].0 != key
  }

  /** `d.get(key)`, the missing key read as None (`JNull`). */
  function Get(fields: seq<(string, Json)>, key: string): (v: Json)
    ensures !HasKey(fields, key) ==> v == JNull
  {
    if fields == [] then JNull
    else if fields[0].0 == key then fields[0].1
    else Get(fields[1..], key)
  }

  /** `d.get(key)` of a present key is the value of the first entry with that key. */
  lemma {:induction false} GetIsFirst(fields: seq<(string, Json)>, key: string, i: nat)
    requires i < |fields| && FirstWith(fields, key, i)
    ensures Get(fields, key) == fields[i].1
  {
    if i > 0 {
      assert FirstWith(fields[1..], key, i - 1);
      GetIsFirst(fields[1..], key, i - 1);
    }
  }

  /** `d[key] = v`: an existing key keeps its place, a new key goes last. */
  function Set(fields: seq<(string, Json)>, key: string, v: Json): (r: seq<(string, Json)>)
    ensures HasKey(r, key) && Get(r, key) == v
    ensures !HasKey(fields, key) ==> r == fields + [(key, v)]
    ensures forall k {:trigger Get(r, k)} :: k != key ==> Get(r, k) == Get(fields, k)
    ensures forall k {:trigger HasKey(r, k)} :: k != key ==> HasKey(r, k) == HasKey(fields, k)
  {
    if fields == [] then [(key, v)]
    else if fields[0].0 == key then [(key, v)] + fields[1..]
    else
      var r := [fields[0]] + Set(fields[1..], key, v);
      assert r[1..] == Set(fields[1..], key, v);
      r
  }

  /** The quote `repr` puts around a text: `"` when it holds `'` and no `"`, `'` otherwise. */
  function ReprQuote(s: string): (q: char)
    ensures q == '"' <==> (!Lacks(s, '\'') && Lacks(s, '"'))
    ensures q == '"' || q == '\''
  {
    if !Lacks(s, '\'') && Lacks(s, '"') then '"' else '\''
  }

  /** Lower-case hexadecimal digit, as `%x` writes it. */
  function HexDigit(d: nat): char
    requires d < 16
  {
    if d < 10 then ('0' as int + d) as char else ('a' as int + d - 10) as char
  }

  predicate IsHexDigit(c: char) { '0' <= c <= '9' || 'a' <= c <= 'f' }

  function HexValue(c: char): nat
    requires IsHexDigit(c)
  {
    if c <= '9' then c as int - '0' as int else c as int - 'a' as int + 10
  }

  /**
   * How `repr` writes one character inside quotes `q`: a backslash before the
   * quote and the backslash, `\t`, `\n`, `\r` for those controls, `\xhh` for
   * the other ASCII controls, and the character itself otherwise.
   */
  function EscapeChar(c: char, q: char): string {
    if c == q || c == '\\' then ['\\', c]
    else if c == '\t' then "\\t"
    else if c == '\n' then "\\n"
    else if c == '\r' then "\\r"
    else if c < ' ' || c == '\U{7F}' then ['\\', 'x', HexDigit(c as int / 16), HexDigit(c as int % 16)]
    else [c]
  }

  /** The body of `repr` of a text quoted with `q`. */
  function Escape(s: string, q: char): string {
    if s == [] then [] else EscapeChar(s[0], q) + Escape(s[1..], q)
  }

  /** How Python reads the body of a string literal back: the escapes `Escape` writes are undone. */
  function Unescape(e: string): string
    decreases |e|
  {
    if e == [] then []
    else if e[0] == '\\' && |e| >= 2 then
      if e[1] == 't' then "\t" + Unescape(e[2..])
      else if e[1] == 'n' then "\n" + Unescape(e[2..])
      else if e[1] == 'r' then "\r" + Unescape(e[2..])
      else if e[1] == 'x' && |e| >= 4 && IsHexDigit(e[2]) && IsHexDigit(e[3]) then
        [(HexValue(e[2]) * 16 + HexValue(e[3])) as char] + Unescape(e[4..])
      else [e[1]] + Unescape(e[2..])
    else [e[0]] + Unescape(e[1..])
  }

  /** Reading back one escaped character gives the character. */
  lemma UnescapeChar(c: char, q: char, rest: string)
    requires q == '"' || q == '\''
    ensures Unescape(EscapeChar(c, q) + rest) == [c] + Unescape(rest)
  {
    var e := EscapeChar(c, q) + rest;
    if c == q || c == '\\' {
      assert e[2..] == rest;
    } else if c == '\t' || c == '\n' || c == '\r' {
      assert e[2..] == rest;
    } else if c < ' ' || c == '\U{7F}' {
      var hi, lo := c as int / 16, c as int % 16;
      assert HexValue(HexDigit(hi)) == hi && HexValue(HexDigit(lo)) == lo;
      assert e[4..] == rest;
    } else {
      assert e[1..] == rest;
    }
  }

  /** `Unescape` undoes `Escape`: a repr'd text reads back as itself. */
  lemma {:induction false} UnescapeEscape(s: string, q: char)
    requires q == '"' || q == '\''
    ensures Unescape(Escape(s, q)) == s
  {
    if s != [] {
      UnescapeChar(s[0], q, Escape(s[1..], q));
      UnescapeEscape(s[1..], q);
      assert [s[0]] + s[1..] == s;
    }
  }

  /** Inside the body, the chosen quote only appears right after a backslash. */
  lemma {:induction false} EscapeHidesQuote(s: string, q: char, k: nat)
    requires q == '"' || q == '\''
    requires k < |Escape(s, q)| && Escape(s, q)[k] == q
    ensures k > 0 && Escape(s, q)[k - 1] == '\\'
  {
    var e := EscapeChar(s[0], q);
    assert Escape(s, q) == e + Escape(s[1..], q);
    if k < |e| {
      assert e[k] == q;
    } else {
      EscapeHidesQuote(s[1..], q, k - |e|);
      assert Escape(s, q)[k] == Escape(s[1..], q)[k - |e|];
      if k - |e| > 0 {
        assert Escape(s, q)[k - 1] == Escape(s[1..], q)[k - |e| - 1];
      }
    }
  }

  /** Python's `repr` of a text. */
  function QuoteRepr(s: string): (r: string)
    ensures |r| >= 2 && r[0] == r[|r| - 1] == ReprQuote(s)
    ensures Unescape(r[1..|r| - 1]) == s
  {
    var q := ReprQuote(s);
    var r := [q] + Escape(s, q) + [q];
    assert r[1..|r| - 1] == Escape(s, q);
    UnescapeEscape(s, q);
    r
  }

  /** A text holding `'` and no `"` is quoted with `"` and not escaped; one without `'` is quoted with `'`. */
  lemma ReprExamples()
    ensures QuoteRepr("a'b") == "\"a'b\""
    ensures QuoteRepr("ab") == "'ab'"
    ensures QuoteRepr("a\nb") == "'a\\nb'"
  {
    ReprDoubleQuoted();
    ReprSingleQuoted();
    ReprLineFeed();
  }

  lemma ReprDoubleQuoted()
    ensures QuoteRepr("a'b") == "\"a'b\""
  {
    assert !Lacks("a'b", '\'') by { assert "a'b"[1] == '\''; }
    assert "a'b"[1..] == "'b" && "'b"[1..] == "b" && "b"[1..] == [];
  }

  lemma ReprSingleQuoted()
    ensures QuoteRepr("ab") == "'ab'"
  {
    assert "ab"[1..] == "b" && "b"[1..] == [];
  }

  lemma ReprLineFeed()
    ensures QuoteRepr("a\nb") == "'a\\nb'"
  {
    assert "a\nb"[1..] == "\nb" && "\nb"[1..] == "b" && "b"[1..] == [];
  }

  /** Python's `repr(v)`: a text is quoted so that it reads back as itself; other values print as `str` does. */
  function PyRepr(v: Json): (r: string)
    decreases v, 1
    ensures v.JStr? ==> |r| >= 2 && (r[0] == r[|r| - 1] == '\'' || r[0] == r[|r| - 1] == '"')
    ensures v.JStr? ==> Unescape(r[1..|r| - 1]) == v.s
    ensures !v.JStr? ==> r == PyStr(v)
  {
    match v
    case JStr(s) => QuoteRepr(s)
    case _ => PyStr(v)
  }

  /** Python's `str(v)`: a text is itself, a list prints in brackets and a dict in braces. */
  function PyStr(v: Json): (r: string)
    decreases v, 0
    ensures v.JStr? ==> r == v.s
    ensures v.JArr? ==> |r| >= 2 && r[0] == '[' && r[|r| - 1] == ']'
    ensures v.JObj? ==> |r| >= 2 && r[0] == '{' && r[|r| - 1] == '}'
  {
    match v
    case JNull => "None"
    case JBool(b) => if b then "True" else "False"
    case JNum(n) => IntToString(n)
    case JStr(s) => s
    case JArr(items) =>
      "[" + Join(seq(|items|, i requires 0 <= i < |items| => PyRepr(items[i])), ", ") + "]"
    case JObj(fields) =>
      "{" + Join(seq(|fields|, i requires 0 <= i < |fields| =>
                   QuoteRepr(fields[i].0) + ": " + PyRepr(fields[i].1)), ", ") + "}"
  }

  /** A character `repr` writes as itself inside quotes `q`. */
  predicate Plain(c: char, q: char) {
    c != q && c != '\\' && ' ' <= c && c != '\U{7F}'
  }

  /** A text of plain characters is its own escaped body. */
  lemma {:induction false} EscapePlain(s: string, q: char)
    requires forall k :: 0 <= k < |s| ==> Plain(s[k], q)
    ensures Escape(s, q) == s
  {
    if s != [] {
      EscapePlain(s[1..], q);
      assert [s[0]] + s[1..] == s;
    }
  }

  /** A one-entry dict prints as `{` key's repr `: ` value's repr `}`. */
  lemma OneEntryStr(key: string, v: Json)
    ensures PyStr(JObj([(key, v)])) == "{" + QuoteRepr(key) + ": " + PyRepr(v) + "}"
  {
    var fields := [(key, v)];
    var parts := seq(|fields|, i requires 0 <= i < |fields| => QuoteRepr(fields[i].0) + ": " + PyRepr(fields[i].1));
    assert parts == [QuoteRepr(key) + ": " + PyRepr(v)];
    assert Join(parts, ", ") == parts[0];
  }

  /** A text of plain characters is quoted with `q` and nothing inside is escaped. */
  lemma QuotePlain(s: string, q: char)
    requires q == ReprQuote(s)
    requires forall k :: 0 <= k < |s| ==> Plain(s[k], q)
    ensures QuoteRepr(s) == [q] + s + [q]
  {
    EscapePlain(s, q);
  }

  /**
   * A one-entry dict of texts prints as `{'key': value}` with the value quoted
   * by `repr`; an error message holding `'` and no `"` comes out in double quotes.
   */
  lemma OneEntryDict(key: string, m: string)
    requires forall k :: 0 <= k < |key| ==> Plain(key[k], '\'')
    requires !Lacks(m, '\'') && Lacks(m, '"')
    requires forall k :: 0 <= k < |m| ==> Plain(m[k], '"')
    ensures PyStr(JObj([(key, JStr(m))])) == "{'" + key + "': \"" + m + "\"}"
  {
    assert Lacks(key, '\'') by {
      forall k | 0 <= k < |key| ensures key[k] != '\'' { assert Plain(key[k], '\''); }
    }
    QuotePlain(key, '\'');
    QuotePlain(m, '"');
    OneEntryStr(key, JStr(m));
    DictShape(key, m);
  }

  /** Regrouping the pieces of a printed one-entry dict. */
  lemma DictShape(key: string, m: string)
    ensures "{" + (['\''] + key + ['\'']) + ": " + (['"'] + m + ['"']) + "}" == "{'" + key + "': \"" + m + "\"}"
  {
    assert "{'" == "{" + ['\''];
    assert "': \"" == ['\''] + ": " + ['"'];
    assert "\"}" == ['"'] + "}";
  }
}
