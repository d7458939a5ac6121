/** The string of RFC 8259 section 7, read the way the standard says, as the measure for the
    project's own scanners and escaper. */
module JsonStandard {
  import opened Bytes
  import opened JsonString

  function HexValue(c: char): Option<nat> {
    if '0' <= c <= '9' then Some(c as nat - '0' as nat)
    else if 'a' <= c <= 'f' then Some(c as nat - 'a' as nat + 10)
    else if 'A' <= c <= 'F' then Some(c as nat - 'A' as nat + 10)
    else None
  }

  /** The code unit of the four digits t starts with. */
  function HexFour(t: string): Option<nat> {
    if |t| < 4 || exists i | 0 <= i < 4 :: HexValue(t[i]).None? then None
    else
      var a, b, c, d := HexValue(t[0]), HexValue(t[1]), HexValue(t[2]), HexValue(t[3]);
      Some(4096 * a.value + 256 * b.value + 16 * c.value + d.value)
  }

  /** The character of a two-character escape. */
  function Simple(c: char): Option<nat> {
    match c
    case '"' => Some(0x22)
    case '\\' => Some(0x5c)
    case '/' => Some(0x2f)
    case 'b' => Some(0x08)
    case 'f' => Some(0x0c)
    case 'n' => Some(0x0a)
    case 'r' => Some(0x0d)
    case 't' => Some(0x09)
    case _ => None
  }

  function More(code: nat, r: Scan<seq<nat>>): Scan<seq<nat>> {
    if r.Got? then Got([code] + r.value, r.rest) else Fail
  }

  /** Reads from just after the opening quote, as code units. */
  function Standard(t: string): Scan<seq<nat>>
    decreases |t|
  {
    if t == "" || t[0] < ' ' then Fail
    else if t[0] == '"' then Got([], t[1..])
    else if t[0] != '\\' then More(t[0] as nat, Standard(t[1..]))
    else if |t| < 2 then Fail
    else if t[1] == 'u' then
      var code := HexFour(t[2..]);
      if code.Some? then More(code.value, Standard(t[6..])) else Fail
    else if Simple(t[1]).Some? then More(Simple(t[1]).value, Standard(t[2..]))
    else Fail
  }

  function Codes(t: string): seq<nat> {
    if t == "" then [] else [t[0] as nat] + Codes(t[1..])
  }

  /** The standard reads an escaped character as that character, control characters
      included. */
  lemma StandardReadsEscaped(c: char, u: string)
    requires c != '\0'
    ensures Standard(EscapeChar(c) + u) == More(c as nat, Standard(u))
  {
    var e := EscapeChar(c);
    var t := e + u;
    if |e| == 1 {
      assert t[0] == c && t[1..] == u;
    } else if |e| == 2 {
      assert t[0] == '\\' && t[1] == e[1] && t[2..] == u;
    } else {
      HexDigitsRead(c as nat / 16, c as nat % 16);
      assert t[0] == '\\' && t[1] == 'u' && t[6..] == u;
      assert t[2..][0] == '0' && t[2..][1] == '0' && t[2..][2] == e[4] && t[2..][3] == e[5];
    }
  }

  lemma HexDigitsRead(m: nat, n: nat)
    requires m < 16 && n < 16
    ensures HexValue(HexDigit(m)) == Some(m) && HexValue(HexDigit(n)) == Some(n)
  {}

  /** Any reader of the standard gets back exactly what was escaped, for every text. */
  lemma {:induction false} StandardReadsEscape(d: string, rest: string)
    requires '\0' !in d
    ensures Standard(Escape(d) + "\"" + rest) == Got(Codes(d), rest)
  {
    hide Standard, EscapeChar;
    if d == "" {
      assert Escape(d) + "\"" + rest == "\"" + rest;
      EmptyString(rest);
    } else {
      var tail := Escape(d[1..]) + "\"" + rest;
      assert d[0] in d;
      assert Escape(d) + "\"" + rest == EscapeChar(d[0]) + tail;
      StandardReadsEscaped(d[0], tail);
      StandardReadsEscape(d[1..], rest);
    }
  }

  lemma EmptyString(rest: string)
    ensures Standard("\"" + rest) == Got([], rest)
  {
    assert ("\"" + rest)[1..] == rest;
  }

  /** The string that t starts uses only the five escapes of the scanners. */
  predicate OnlyFive(t: string)
    decreases |t|
  {
    if t == "" || t[0] == '"' then true
    else if t[0] != '\\' then OnlyFive(t[1..])
    else |t| >= 2 && t[1] in {'"', '\\', 'n', 'r', 't'} && OnlyFive(t[2..])
  }

  /** The scanner accepts exactly the strings of the standard that use only these escapes,
      and reads from them what the standard says. */
  lemma {:induction false} DecodeIsStandard(t: string)
    ensures DecodeBody(t).Got? <==> Standard(t).Got? && OnlyFive(t)
    ensures DecodeBody(t).Got? ==> Standard(t) == Got(Codes(DecodeBody(t).value), DecodeBody(t).rest)
    decreases |t|
  {
    if t != "" && t[0] >= ' ' && t[0] != '"' {
      if t[0] != '\\' {
        DecodeIsStandard(t[1..]);
        CodesOne(t[0], DecodeBody(t[1..]));
      } else if |t| >= 2 {
        FiveAgree(t[1]);
        assert Hd(t[1..]) == t[1];
        if t[1] in {'"', '\\', 'n', 'r', 't'} {
          DecodeIsStandard(t[2..]);
          CodesOne(Unescape(t[1]).value, DecodeBody(t[2..]));
        }
      }
    }
  }

  lemma FiveAgree(c: char)
    ensures Unescape(c).Some? <==> c in {'"', '\\', 'n', 'r', 't'}
    ensures Unescape(c).Some? ==> Simple(c) == Some(Unescape(c).value as nat)
  {}

  lemma CodesOne(c: char, r: Scan<string>)
    ensures r.Got? ==> Codes(Prepend([c], r).value) == [c as nat] + Codes(r.value)
  {
    if r.Got? {
      assert ([c] + r.value)[1..] == r.value;
    }
  }
}
