/** JSON strings: the decoding scanner, the skipping scanner and the bounded escaper. */
module JsonString {
  import opened Bytes

  // ---- what the scanners accept ---------------------------------------------------

  /** The five escapes the scanners know; RFC 8259 section 7 has four more. */
  function Unescape(c: char): Option<char> {
    match c
    case '"' => Some('"')
    case '\\' => Some('\\')
    case 'n' => Some('\n')
    case 'r' => Some('\r')
    case 't' => Some('\t')
    case _ => None
  }

  /** Puts already decoded characters in front of a scan. */
  function Prepend(d: string, r: Scan<string>): Scan<string> {
    if r.Fail? then Fail else Got(d + r.value, r.rest)
  }

  /** Decodes from just after the opening quote. */
  function DecodeBody(t: string): (r: Scan<string>)
    ensures r.Got? ==> |r.rest| < |t|
  {
    var c := Hd(t);
    if c == '"' then Got("", t[1..])
    else if c < ' ' then Fail
    else if c == '\\' then
      match Unescape(Hd(t[1..]))
      case None => Fail
      case Some(d) => Prepend([d], DecodeBody(t[2..]))
    else Prepend([c], DecodeBody(t[1..]))
  }

  function Decode(t: string): (r: Scan<string>)
    ensures r.Got? ==> |r.rest| < |t|
  {
    if Hd(t) == '"' then DecodeBody(t[1..]) else Fail
  }

  /** The skipping scanner: the unread text after the closing quote. */
  function SkipBody(t: string): (r: Option<string>)
    ensures r.Some? ==> |r.value| < |t|
  {
    var c := Hd(t);
    if c == '"' then Some(t[1..])
    else if c < ' ' then None
    else if c == '\\' then
      if Hd(t[1..]) in "\"\\nrt" then SkipBody(t[2..]) else None
    else SkipBody(t[1..])
  }

  function Skip(t: string): (r: Option<string>)
    ensures r.Some? ==> |r.value| < |t|
  {
    if Hd(t) == '"' then SkipBody(t[1..]) else None
  }

  lemma {:induction false} BodiesAgree(t: string)
    ensures SkipBody(t) == if DecodeBody(t).Fail? then None else Some(DecodeBody(t).rest)
    decreases |t|
  {
    var c := Hd(t);
    if c != '"' && c >= ' ' {
      if c == '\\' {
        if Unescape(Hd(t[1..])).Some? {
          BodiesAgree(t[2..]);
        }
      } else {
        BodiesAgree(t[1..]);
      }
    }
  }

  /** The two scanners accept the same strings and stop at the same place. */
  lemma ScannersAgree(t: string)
    ensures Skip(t) == if Decode(t).Fail? then None else Some(Decode(t).rest)
  {
    if Hd(t) == '"' {
      BodiesAgree(t[1..]);
    }
  }

  // ---- escaping -------------------------------------------------------------------

  function HexDigit(n: nat): char
    requires n < 16
  {
    "0123456789abcdef"[n]
  }

  function EscapeChar(c: char): (e: string)
    ensures 1 <= |e| <= 6
    ensures forall i | 0 <= i < |e| :: e[i] >= ' '
  {
    match c
    case '"' => "\\\""
    case '\\' => "\\\\"
    case '\n' => "\\n"
    case '\r' => "\\r"
    case '\t' => "\\t"
    case _ =>
      if c < ' ' then "\\u00" + [HexDigit(c as int / 16), HexDigit(c as int % 16)]
      else [c]
  }

  /** The whole escape of a C string, before any buffer cuts it. */
  function Escape(t: string): string {
    if Hd(t) == '\0' then "" else EscapeChar(t[0]) + Escape(t[1..])
  }

  function Quote(t: string): string {
    "\"" + Escape(t) + "\""
  }

  /** A character the decoder can produce: not a NUL, no control byte but \n, \r, \t. */
  predicate CanDecode(c: char) {
    c >= ' ' || c == '\n' || c == '\r' || c == '\t'
  }

  predicate Encodable(t: string) {
    forall i | 0 <= i < |t| :: CanDecode(t[i])
  }

  lemma {:induction false} DecodedIsEncodable(t: string)
    requires DecodeBody(t).Got?
    ensures Encodable(DecodeBody(t).value)
    decreases |t|
  {
    var c := Hd(t);
    if c == '\\' {
      DecodedIsEncodable(t[2..]);
    } else if c != '"' {
      DecodedIsEncodable(t[1..]);
    }
  }

  lemma EscapedHead(c: char, t: string)
    requires c != '\0'
    ensures Escape([c] + t) == EscapeChar(c) + Escape(t)
  {
    assert ([c] + t)[1..] == t;
  }

  /** One escaped character in front of a body is decoded back, or refused. */
  lemma DecodeEscapedChar(c: char, t: string)
    requires c != '\0'
    ensures DecodeBody(EscapeChar(c) + t)
         == if CanDecode(c) then Prepend([c], DecodeBody(t)) else Fail
  {
    var u := EscapeChar(c) + t;
    if |EscapeChar(c)| == 1 {
      assert u[0] == c && u[1..] == t;
    } else {
      assert u[0] == '\\' && u[1..][0] == EscapeChar(c)[1];
      if |EscapeChar(c)| == 2 {
        assert u[2..] == t;
      }
    }
  }

  /** Decoding after escaping is the identity on exactly the encodable strings; the
      escape of any other NUL-free string is refused. */
  lemma {:induction false} DecodeAfterEscapeBody(d: string, rest: string)
    requires '\0' !in d
    ensures DecodeBody(Escape(d) + "\"" + rest) == if Encodable(d) then Got(d, rest) else Fail
  {
    if d == "" {
      assert Escape(d) + "\"" + rest == "\"" + rest;
      assert ("\"" + rest)[1..] == rest;
    } else {
      var tail := Escape(d[1..]) + "\"" + rest;
      assert d[0] in d;
      assert Escape(d) + "\"" + rest == EscapeChar(d[0]) + tail;
      DecodeEscapedChar(d[0], tail);
      DecodeAfterEscapeBody(d[1..], rest);
      assert d == [d[0]] + d[1..];
      assert Encodable(d) <==> CanDecode(d[0]) && Encodable(d[1..]) by {
        assert forall i | 1 <= i < |d| :: d[i] == d[1..][i - 1];
        assert forall i | 0 <= i < |d| - 1 :: d[1..][i] == d[i + 1];
      }
    }
  }

  lemma DecodeAfterEscape(d: string, rest: string)
    requires '\0' !in d
    ensures Decode(Quote(d) + rest) == if Encodable(d) then Got(d, rest) else Fail
  {
    assert (Quote(d) + rest)[1..] == Escape(d) + "\"" + rest;
    DecodeAfterEscapeBody(d, rest);
  }

  lemma EncodableHasNoNul(d: string)
    requires Encodable(d)
    ensures '\0' !in d
  {}

  lemma DecodeQuoted(d: string, rest: string)
    requires Encodable(d)
    ensures Decode(Quote(d) + rest) == Got(d, rest)
  {
    EncodableHasNoNul(d);
    DecodeAfterEscape(d, rest);
  }

  lemma EscapeUnescaped(e: char)
    requires Unescape(e).Some?
    ensures EscapeChar(Unescape(e).value) == ['\\', e] && Unescape(e).value != '\0'
  {}

  lemma ReadOneEscaped(t: string, u: string, d: char, v: string, rest: string)
    requires d != '\0' && t == EscapeChar(d) + u && u == Escape(v) + "\"" + rest
    ensures t == Escape([d] + v) + "\"" + rest
  {
    EscapedHead(d, v);
    assert EscapeChar(d) + (Escape(v) + "\"" + rest) == EscapeChar(d) + Escape(v) + "\"" + rest;
  }

  /** Escaping after decoding gives back the body that was read. */
  lemma {:induction false} EscapeAfterDecodeBody(t: string)
    requires DecodeBody(t).Got?
    ensures t == Escape(DecodeBody(t).value) + "\"" + DecodeBody(t).rest
    decreases |t|
  {
    var c := Hd(t);
    if c == '"' {
      assert t == "\"" + t[1..];
    } else if c == '\\' {
      var e := Hd(t[1..]);
      EscapeAfterDecodeBody(t[2..]);
      EscapeUnescaped(e);
      assert t == ['\\', e] + t[2..];
      ReadOneEscaped(t, t[2..], Unescape(e).value, DecodeBody(t[2..]).value, DecodeBody(t).rest);
    } else {
      EscapeAfterDecodeBody(t[1..]);
      assert t == [c] + t[1..];
      ReadOneEscaped(t, t[1..], c, DecodeBody(t[1..]).value, DecodeBody(t).rest);
    }
  }

  lemma EscapeAfterDecode(t: string)
    requires Decode(t).Got?
    ensures t == Quote(Decode(t).value) + Decode(t).rest && Encodable(Decode(t).value)
  {
    EscapeAfterDecodeBody(t[1..]);
    DecodedIsEncodable(t[1..]);
    assert t == "\"" + t[1..];
  }

  /** What the decoder produced at most doubles when it is escaped again. */
  lemma {:induction false} EscapeAtMostDoubles(t: string)
    requires Encodable(t)
    ensures |Escape(t)| <= 2 * |t|
  {
    if t != "" {
      assert CanDecode(t[0]);
      EscapeAtMostDoubles(t[1..]);
    }
  }

  lemma {:induction false} EscapeAtMostSix(t: string)
    ensures |Escape(t)| <= 6 * |t|
  {
    if Hd(t) != '\0' {
      EscapeAtMostSix(t[1..]);
    }
  }

  /** Characters that escaping leaves alone. */
  predicate Plain(t: string) {
    forall i | 0 <= i < |t| :: t[i] >= ' ' && t[i] != '"' && t[i] != '\\'
  }

  lemma {:induction false} EscapePlain(t: string)
    requires Plain(t)
    ensures Escape(t) == t && Encodable(t)
  {
    if t != "" {
      EscapePlain(t[1..]);
    }
  }

  predicate Printable(t: string) {
    forall i | 0 <= i < |t| :: t[i] >= ' '
  }

  lemma {:induction false} ConcatPrintable(parts: seq<string>)
    requires forall i | 0 <= i < |parts| :: Printable(parts[i])
    ensures Printable(Concat(parts))
  {
    if parts != [] {
      ConcatPrintable(parts[1..]);
    }
  }

  /** No control character survives escaping, whatever the text. */
  lemma {:induction false} EscapePrintable(t: string)
    ensures Printable(Escape(t))
  {
    if Hd(t) != '\0' {
      EscapePrintable(t[1..]);
    }
  }

  lemma PrintableHasNoNul(t: string)
    requires Printable(t)
    ensures '\0' !in t
  {}

  // ---- the methods ----------------------------------------------------------------

  /** One character of a string body: what it decodes to, if the scanner accepts it. */
  method NextChar(s: string, p: nat) returns (c: Option<char>, q: nat)
    requires p < |s| && s[p] != '"'
    ensures p <= q <= |s|
    ensures c.None? ==> DecodeBody(s[p..]).Fail?
    ensures c.Some? ==> p < q && DecodeBody(s[p..]) == Prepend([c.value], DecodeBody(s[q..]))
  {
    ghost var t := s[p..];
    assert t[1..] == s[p + 1..];
    if s[p] < ' ' {
      return None, p;
    }
    if s[p] != '\\' {
      return Some(s[p]), p + 1;
    }
    c := Unescape(At(s, p + 1));
    if c.None? {
      return c, p;
    }
    assert t[2..] == s[p + 2..];
    return c, p + 2;
  }

  /** `parse_json_string`: decodes the string at p into out. */
  method ParseString(s: string, p: nat, out: array<char>) returns (ok: bool, q: nat)
    requires p <= |s|
    modifies out
    ensures ok == (Decode(s[p..]).Got? && |Decode(s[p..]).value| < out.Length)
    ensures p <= q <= |s|
    ensures ok ==> s[q..] == Decode(s[p..]).rest && Holds(out, Decode(s[p..]).value)
  {
    if At(s, p) != '"' || out.Length == 0 {
      return false, p;
    }
    q := p + 1;
    assert s[p..][1..] == s[q..];
    out[0] := '\0';
    var used := 0;
    ghost var d := "";
    StartDecode(DecodeBody(s[q..]));
    while At(s, q) != '\0'
      invariant p < q <= |s|
      invariant used == |d| && Holds(out, d)
      invariant Decode(s[p..]) == Prepend(d, DecodeBody(s[q..]))
      decreases |s| - q
    {
      if s[q] == '"' {
        assert s[q..][1..] == s[q + 1..];
        return true, q + 1;
      }
      var c, r := NextChar(s, q);
      if c.None? {
        return false, q;
      }
      StepDecode(d, c.value, DecodeBody(s[r..]));
      var fits := AppendChar(out, used, c.value, d);
      if !fits {
        return false, q;
      }
      d := d + [c.value];
      used := used + 1;
      q := r;
    }
    return false, q;
  }

  lemma StartDecode(r: Scan<string>)
    ensures Prepend("", r) == r
  {
    if r.Got? {
      assert "" + r.value == r.value;
    }
  }

  lemma StepDecode(d: string, c: char, r: Scan<string>)
    ensures Prepend(d, Prepend([c], r)) == Prepend(d + [c], r)
    ensures Prepend(d, Prepend([c], r)).Got? ==> |d| < |Prepend(d, Prepend([c], r)).value|
  {
    if r.Got? {
      assert d + ([c] + r.value) == (d + [c]) + r.value;
    }
  }

  method SkipString(s: string, p: nat) returns (ok: bool, q: nat)
    requires p <= |s|
    ensures ok == Skip(s[p..]).Some?
    ensures p <= q <= |s| && (ok ==> p < q && s[q..] == Skip(s[p..]).value)
  {
    if At(s, p) != '"' {
      return false, p;
    }
    q := p + 1;
    assert s[p..][1..] == s[q..];
    while At(s, q) != '\0'
      invariant p < q <= |s|
      invariant Skip(s[p..]) == SkipBody(s[q..])
      decreases |s| - q
    {
      var c := s[q];
      assert s[q..][1..] == s[q + 1..];
      if c == '"' {
        return true, q + 1;
      }
      if c < ' ' {
        return false, q;
      }
      if c == '\\' {
        q := q + 1;
        if At(s, q) !in "\"\\nrt" {
          return false, q;
        }
        assert s[q - 1..][2..] == s[q + 1..];
      }
      q := q + 1;
    }
    return false, q;
  }

  method AppendText(out: array<char>, used: nat, text: string, ghost t: string) returns (ok: bool)
    requires Holds(out, t) && used == |t|
    modifies out
    ensures ok == (used + |text| < out.Length)
    ensures Holds(out, Trunc(t + text, out.Length))
  {
    var i := 0;
    assert t + text[..0] == t;
    while i < |text|
      invariant 0 <= i <= |text|
      invariant Holds(out, t + text[..i])
    {
      assert t + text[..i] + [text[i]] == t + text[..i + 1];
      assert t + text == t + text[..i] + text[i..];
      ok := AppendChar(out, used + i, text[i], t + text[..i]);
      if !ok {
        assert (t + text)[..out.Length - 1] == t + text[..i];
        return false;
      }
      i := i + 1;
    }
    assert text[..i] == text;
    return true;
  }

  lemma TruncIgnoresTail(u: string, v: string, n: nat)
    requires 0 < n <= |u|
    ensures Trunc(u + v, n) == Trunc(u, n)
  {
    assert (u + v)[..n - 1] == u[..n - 1];
  }

  /** The escaper's switch on one character. */
  method EmitEscaped(out: array<char>, used: nat, c: char, ghost t: string) returns (ok: bool)
    requires Holds(out, t) && used == |t|
    modifies out
    ensures ok == (used + |EscapeChar(c)| < out.Length)
    ensures Holds(out, Trunc(t + EscapeChar(c), out.Length))
  {
    if c in "\"\\\n\r\t" {
      ok := AppendText(out, used, EscapeChar(c), t);
    } else if c < ' ' {
      ok := Snprintf(out, used, EscapeChar(c), t);
    } else {
      ok := AppendChar(out, used, c, t);
      assert (t + [c])[..|t|] == t;
    }
  }

  /** `anything_json_escape_string`: the buffer always holds the escape, cut to fit, and
      the result is success exactly when nothing was cut. */
  method EscapeString(input: string, out: array<char>) returns (ok: bool)
    modifies out
    ensures ok == (|Escape(input)| < out.Length)
    ensures out.Length > 0 ==> Holds(out, Trunc(Escape(input), out.Length))
  {
    if out.Length == 0 {
      return false;
    }
    out[0] := '\0';
    ghost var t := "";
    var used, i := 0, 0;
    while At(input, i) != '\0'
      invariant 0 <= i <= |input|
      invariant used == |t| && Holds(out, t)
      invariant Escape(input) == t + Escape(input[i..])
      decreases |input| - i
    {
      ghost var e, rest := EscapeChar(input[i]), Escape(input[i + 1..]);
      assert input[i..][1..] == input[i + 1..];
      assert t + (e + rest) == t + e + rest;
      ok := EmitEscaped(out, used, input[i], t);
      if !ok {
        TruncIgnoresTail(t + e, rest, out.Length);
        return false;
      }
      used := used + |EscapeChar(input[i])|;
      t := t + e;
      i := i + 1;
    }
    assert Escape(input[i..]) == "";
    return true;
  }
}
