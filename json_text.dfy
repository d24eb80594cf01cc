/**
 * The two string operations the channel summary applies to a purpose or a
 * topic: Python's `json.dumps(value, ensure_ascii=False)` for a string, which
 * escapes as section 7 of RFC 8259 describes, and `str.strip(chars)`.
 * A JSON string decoder is given beside the encoder as its inverse.
 */
module JsonText {
  import opened Wrappers

  const QUOTE: char := '"'
  const BACKSLASH: char := '\\'

  /** A character the encoder rewrites: quote, backslash, and U+0000 to U+001F. */
  predicate NeedsEscape(c: char) { c == QUOTE || c == BACKSLASH || c < ' ' }

  /** A string the encoder leaves as it is. */
  predicate IsPlain(s: string) { forall i | 0 <= i < |s| :: !NeedsEscape(s[i]) }

  function HexValue(c: char): (r: Option<nat>)
    ensures r.Some? ==> r.value < 16
  {
    if '0' <= c <= '9' then Some(c as int - '0' as int)
    else if 'a' <= c <= 'f' then Some(c as int - 'a' as int + 10)
    else if 'A' <= c <= 'F' then Some(c as int - 'A' as int + 10)
    else None
  }

  /** A lower-case hexadecimal digit, as Python's '{0:04x}' writes it. */
  function HexDigit(n: nat): (c: char)
    requires n < 16
    ensures HexValue(c) == Some(n)
  {
    if n < 10 then ('0' as int + n) as char else ('a' as int + n - 10) as char
  }

  /** The escape Python's encoder writes for one character. */
  function EscapeChar(c: char): (e: string)
    ensures |e| >= 1 && e[0] != QUOTE
    ensures e[|e| - 1] == QUOTE <==> c == QUOTE
    ensures !NeedsEscape(c) <==> e == [c]
  {
    if c == QUOTE then [BACKSLASH, QUOTE]
    else if c == BACKSLASH then [BACKSLASH, BACKSLASH]
    else if c == '\n' then [BACKSLASH, 'n']
    else if c == '\r' then [BACKSLASH, 'r']
    else if c == '\t' then [BACKSLASH, 't']
    else if c as int == 0x08 then [BACKSLASH, 'b']
    else if c as int == 0x0C then [BACKSLASH, 'f']
    else if c < ' ' then [BACKSLASH, 'u', '0', '0', HexDigit(c as int / 16), HexDigit(c as int % 16)]
    else [c]
  }

  /** The body of the JSON string literal for `s`, without the enclosing quotes. */
  function Escape(s: string): (e: string)
    ensures |e| >= |s|
    ensures s != [] ==> e[0] != QUOTE
  {
    if s == [] then [] else EscapeChar(s[0]) + Escape(s[1..])
  }

  /** json.dumps(s, ensure_ascii=False) for a string `s`. */
  function Dumps(s: string): (t: string)
    ensures |t| >= 2 && t[0] == QUOTE && t[|t| - 1] == QUOTE
  {
    [QUOTE] + Escape(s) + [QUOTE]
  }

  /** str.lstrip(q): drops every leading `q`. */
  function StripLeading(s: string, q: char): (r: string)
    ensures |r| <= |s| && r == s[|s| - |r|..]
    ensures r == [] || r[0] != q
    ensures forall k | 0 <= k < |s| - |r| :: s[k] == q
  {
    if |s| > 0 && s[0] == q then StripLeading(s[1..], q) else s
  }

  /** str.rstrip(q): drops every trailing `q`. */
  function StripTrailing(s: string, q: char): (r: string)
    ensures |r| <= |s| && r == s[..|r|]
    ensures r == [] || r[|r| - 1] != q
    ensures forall k | |r| <= k < |s| :: s[k] == q
  {
    if |s| > 0 && s[|s| - 1] == q then StripTrailing(s[..|s| - 1], q) else s
  }

  /** One trailing `q` after a text that does not end in `q` is all rstrip removes. */
  lemma StripTrailingOnce(front: string, q: char)
    requires front == [] || front[|front| - 1] != q
    ensures StripTrailing(front + [q], q) == front
  {
    assert (front + [q])[..|front|] == front;
  }

  /** `r` is `s[i..]` cut to length |r|, with only `q` on either side of it. */
  predicate TrimmedAt(s: string, q: char, i: int, r: string) {
    && 0 <= i <= |s| - |r|
    && r == s[i..i + |r|]
    && (forall k | 0 <= k < i :: s[k] == q)
    && (forall k | i + |r| <= k < |s| :: s[k] == q)
  }

  /** str.strip(q): both ends. */
  function Strip(s: string, q: char): (r: string)
    ensures r == [] || (r[0] != q && r[|r| - 1] != q)
    ensures TrimmedAt(s, q, |s| - |StripLeading(s, q)|, r)
  {
    StripTrimmed(s, q);
    StripTrailing(StripLeading(s, q), q)
  }

  lemma StripTrimmed(s: string, q: char)
    ensures TrimmedAt(s, q, |s| - |StripLeading(s, q)|, StripTrailing(StripLeading(s, q), q))
  {
    var l := StripLeading(s, q);
    TrimmedFrom(s, q, l, StripTrailing(l, q));
  }

  /** A suffix of `s` past leading `q`s, then a prefix of it before trailing `q`s. */
  lemma TrimmedFrom(s: string, q: char, l: string, r: string)
    requires |l| <= |s| && l == s[|s| - |l|..]
    requires forall k | 0 <= k < |s| - |l| :: s[k] == q
    requires |r| <= |l| && r == l[..|r|]
    requires forall k | |r| <= k < |l| :: l[k] == q
    ensures TrimmedAt(s, q, |s| - |l|, r)
  {
    var i := |s| - |l|;
    assert s[i..][..|r|] == s[i..i + |r|];
    forall k | i + |r| <= k < |s|
      ensures s[k] == q
    {
      assert s[k] == l[k - i];
    }
  }

  /** The character a one-letter JSON escape stands for. */
  function ShortUnescape(c: char): Option<char> {
    match c
    case '"' => Some(QUOTE)
    case '\\' => Some(BACKSLASH)
    case '/' => Some('/')
    case 'b' => Some(0x08 as char)
    case 'f' => Some(0x0C as char)
    case 'n' => Some('\n')
    case 'r' => Some('\r')
    case 't' => Some('\t')
    case _ => None
  }

  /** The character a \uXXXX escape stands for; surrogate pairs are not decoded. */
  function UnicodeUnescape(h: string): Option<char>
    requires |h| == 4
  {
    var a, b, c, d := HexValue(h[0]), HexValue(h[1]), HexValue(h[2]), HexValue(h[3]);
    if a.None? || b.None? || c.None? || d.None? then None
    else
      var v := ((a.value * 16 + b.value) * 16 + c.value) * 16 + d.value;
      assert v < 0x10000;
      if 0xD800 <= v < 0xE000 then None else Some(v as char)
  }

  function Prepend(c: char, r: Option<string>): Option<string> {
    match r
    case None => None
    case Some(s) => Some([c] + s)
  }

  /**
   * Decodes the body of a JSON string literal; None when it is malformed
   * (a raw quote or control character, or a broken escape).
   */
  function Unescape(t: string): Option<string>
    decreases |t|
  {
    if t == [] then Some([])
    else if t[0] == BACKSLASH then
      if |t| < 2 then None
      else if t[1] == 'u' then
        if |t| < 6 then None
        else match UnicodeUnescape(t[2..6])
          case None => None
          case Some(c) => Prepend(c, Unescape(t[6..]))
      else match ShortUnescape(t[1])
        case None => None
        case Some(c) => Prepend(c, Unescape(t[2..]))
    else if NeedsEscape(t[0]) then None
    else Prepend(t[0], Unescape(t[1..]))
  }

  /** Prepending the decoded text of `s` to whatever the rest decodes to. */
  function PrependAll(s: string, r: Option<string>): Option<string> {
    match r
    case None => None
    case Some(x) => Some(s + x)
  }

  lemma UnescapeEscapeChar(c: char, rest: string)
    ensures Unescape(EscapeChar(c) + rest) == Prepend(c, Unescape(rest))
  {
    var t := EscapeChar(c) + rest;
    if !NeedsEscape(c) {
      assert t[1..] == rest;
    } else if c < ' ' && c != '\n' && c != '\r' && c != '\t' && c as int != 0x08 && c as int != 0x0C {
      assert t[2..6] == EscapeChar(c)[2..6];
      assert t[6..] == rest;
      assert UnicodeUnescape(t[2..6]) == Some(c);
    } else {
      assert t[2..] == rest;
    }
  }

  /** Decoding an escaped prefix yields the original prefix. */
  lemma {:induction false} UnescapeEscapeThen(s: string, rest: string)
    ensures Unescape(Escape(s) + rest) == PrependAll(s, Unescape(rest))
  {
    if s != [] {
      var tail := Escape(s[1..]) + rest;
      assert Escape(s) + rest == EscapeChar(s[0]) + tail;
      UnescapeEscapeChar(s[0], tail);
      UnescapeEscapeThen(s[1..], rest);
      PrependOnto(s[0], s[1..], Unescape(rest));
      assert [s[0]] + s[1..] == s;
    } else {
      assert Escape(s) + rest == rest;
      if Unescape(rest).Some? { assert s + Unescape(rest).value == Unescape(rest).value; }
    }
  }

  /** Prepending one character after prepending a string prepends both. */
  lemma PrependOnto(c: char, s: string, r: Option<string>)
    ensures Prepend(c, PrependAll(s, r)) == PrependAll([c] + s, r)
  {
    if r.Some? {
      assert [c] + (s + r.value) == ([c] + s) + r.value;
    }
  }

  /** The escaping is lossless: decoding it gives back the original string. */
  lemma EscapeRoundTrip(s: string)
    ensures Unescape(Escape(s)) == Some(s)
  {
    UnescapeEscapeThen(s, []);
    assert Escape(s) + [] == Escape(s);
    assert s + [] == s;
  }

  /** A string without quote, backslash or control characters is not rewritten. */
  lemma {:induction false} EscapePlain(s: string)
    requires IsPlain(s)
    ensures Escape(s) == s
  {
    if s != [] {
      EscapePlain(s[1..]);
      assert [s[0]] + s[1..] == s;
    }
  }

  /** Escaping works character by character, so it can be extended at the end. */
  lemma {:induction false} EscapeSnoc(s: string, c: char)
    ensures Escape(s + [c]) == Escape(s) + EscapeChar(c)
  {
    if s == [] {
      assert [] + [c] == [c];
      assert [c][1..] == [];
    } else {
      assert (s + [c])[1..] == s[1..] + [c];
      EscapeSnoc(s[1..], c);
    }
  }
}
