/** C strings and the bounded buffers they are written to.

    A text is a sequence of characters standing for bytes.  Reading past its end, or
    reading a '\0' inside it, is reading the terminating NUL of the C string. */
module Bytes {

  datatype Option<+T> = None | Some(value: T)

  /** The outcome of a scanner: what it read and the text it left unread. */
  datatype Scan<+T> = Fail | Got(value: T, rest: string)

  /** The character under a cursor whose unread text is t. */
  function Hd(t: string): char {
    if t == "" then '\0' else t[0]
  }

  /** The character at index p, NUL at the end of the text. */
  function At(s: string, p: nat): (c: char)
    requires p <= |s|
    ensures c == Hd(s[p..])
  {
    if p == |s| then '\0' else s[p]
  }

  /** `isspace` in the C locale. */
  predicate IsSpace(c: char) {
    c == ' ' || '\t' <= c <= '\r'
  }

  predicate IsBlank(t: string) {
    forall i | 0 <= i < |t| :: IsSpace(t[i])
  }

  /** r is what is left of t after some prefix was read. */
  predicate IsSuffix(r: string, t: string) {
    |r| <= |t| && r == t[|t| - |r|..]
  }

  /** The part of t that was read to leave r. */
  function Read(t: string, r: string): (u: string)
    requires IsSuffix(r, t)
    ensures t == u + r
  {
    t[..|t| - |r|]
  }

  function SkipWs(t: string): (r: string)
    ensures |r| <= |t|
  {
    if t != "" && IsSpace(t[0]) then SkipWs(t[1..]) else t
  }

  lemma ReadMore(t: string, r: string)
    requires t != "" && IsSuffix(r, t[1..])
    ensures IsSuffix(r, t) && Read(t, r) == [t[0]] + Read(t[1..], r)
  {}

  /** Skipping reads only whitespace and stops at something else. */
  lemma {:induction false} SkipWsReads(t: string)
    ensures var r := SkipWs(t);
      IsSuffix(r, t) && IsBlank(Read(t, r)) && !IsSpace(Hd(r)) && t == Read(t, r) + r
  {
    if t != "" && IsSpace(t[0]) {
      SkipWsReads(t[1..]);
      ReadMore(t, SkipWs(t[1..]));
    }
  }

  lemma SplitWs(t: string) returns (w: string, r: string)
    ensures r == SkipWs(t) && t == w + r && IsBlank(w) && !IsSpace(Hd(r))
  {
    SkipWsReads(t);
    r := SkipWs(t);
    w := Read(t, r);
  }

  lemma {:induction false} SkipWsBlank(w: string, r: string)
    requires IsBlank(w) && !IsSpace(Hd(r))
    ensures SkipWs(w + r) == r
  {
    if w == "" {
      assert w + r == r;
    } else {
      assert (w + r)[1..] == w[1..] + r;
      SkipWsBlank(w[1..], r);
    }
  }

  method SkipSpaces(s: string, p: nat) returns (q: nat)
    requires p <= |s|
    ensures p <= q <= |s| && s[q..] == SkipWs(s[p..])
  {
    q := p;
    while IsSpace(At(s, q))
      invariant p <= q <= |s|
      invariant SkipWs(s[q..]) == SkipWs(s[p..])
      decreases |s| - q
    {
      assert s[q..][1..] == s[q + 1..];
      q := q + 1;
    }
  }

  /** The buffer out holds the C string t: its characters, then a NUL. */
  predicate Holds(out: array<char>, t: string)
    reads out
  {
    |t| < out.Length && out[..|t|] == t && out[|t|] == '\0'
  }

  /** The C string in a buffer: what `strcmp` and `%s` see. */
  function UpToNul(t: string): string {
    if Hd(t) == '\0' then "" else [t[0]] + UpToNul(t[1..])
  }

  lemma {:induction false} UpToNulPrefix(t: string, u: string)
    requires '\0' !in t && Hd(u) == '\0'
    ensures UpToNul(t + u) == t
  {
    if t == "" {
      assert t + u == u;
    } else {
      assert (t + u)[1..] == t[1..] + u;
      assert t[0] in t;
      UpToNulPrefix(t[1..], u);
    }
  }

  lemma ReadBack(out: array<char>, t: string)
    requires Holds(out, t) && '\0' !in t
    ensures UpToNul(out[..]) == t
  {
    assert out[..] == out[..|t|] + out[|t|..];
    UpToNulPrefix(t, out[|t|..]);
  }

  /** A character is appended only if it and the terminator fit; decoded and escaped
      characters reach a buffer in no other way. */
  method AppendChar(out: array<char>, used: nat, c: char, ghost t: string) returns (ok: bool)
    requires Holds(out, t) && used == |t|
    modifies out
    ensures ok == (used + 1 < out.Length)
    ensures Holds(out, if ok then t + [c] else t)
  {
    if used + 1 >= out.Length {
      return false;
    }
    out[used] := c;
    out[used + 1] := '\0';
    assert out[..used] == t;
    assert out[..used + 1] == out[..used] + [c];
    return true;
  }

  /** What a buffer of n bytes keeps of t. */
  function Trunc(t: string, n: nat): (r: string)
    requires n > 0
    ensures |r| < n && r <= t && (r == t || |r| == n - 1)
  {
    if |t| < n then t else t[..n - 1]
  }

  /** `snprintf` at the end of what is already written: the formatted text goes after what
      the buffer holds and is cut to fit; the result says whether nothing was cut. */
  method Snprintf(out: array<char>, used: nat, text: string, ghost t: string) returns (whole: bool)
    requires used == |t| < out.Length && out[..used] == t
    modifies out
    ensures whole == (used + |text| < out.Length)
    ensures Holds(out, Trunc(t + text, out.Length))
  {
    whole := used + |text| < out.Length;
    var n := if whole then |text| else out.Length - used - 1;
    var i := 0;
    while i < n
      invariant 0 <= i <= n
      invariant out[..used + i] == t + text[..i]
    {
      out[used + i] := text[i];
      assert out[..used + i + 1] == out[..used + i] + [text[i]];
      assert text[..i + 1] == text[..i] + [text[i]];
      i := i + 1;
    }
    out[used + n] := '\0';
    assert out[..used + n] == t + text[..n];
    assert Trunc(t + text, out.Length) == t + text[..n];
  }

  function Concat(parts: seq<string>): string {
    if parts == [] then "" else parts[0] + Concat(parts[1..])
  }

  lemma ConcatFirst(a: string, parts: seq<string>)
    ensures Concat([a] + parts) == a + Concat(parts)
  {
    assert ([a] + parts)[1..] == parts;
  }

  lemma {:induction false} ConcatAppend(a: seq<string>, b: seq<string>)
    ensures Concat(a + b) == Concat(a) + Concat(b)
  {
    if a == [] {
      assert a + b == b;
    } else {
      assert (a + b)[1..] == a[1..] + b;
      ConcatAppend(a[1..], b);
      assert a[0] + (Concat(a[1..]) + Concat(b)) == (a[0] + Concat(a[1..])) + Concat(b);
    }
  }

  lemma ConcatFive(a: string, b: string, c: string, d: string, e: string)
    ensures Concat([a, b, c, d, e]) == a + b + c + d + e
  {
    var p := [a, b, c, d, e];
    assert p[1..] == [b, c, d, e] && p[1..][1..] == [c, d, e] && p[1..][1..][1..] == [d, e];
    assert [d, e][1..] == [e] && [e][1..] == [];
    assert Concat([e]) == e + "";
    assert Concat([d, e]) == d + (e + "");
    assert Concat([b, c, d, e]) == b + (c + (d + (e + "")));
  }

  /** `%lu` and `%d` for non-negative values. */
  function Decimal(n: nat): (d: string)
    ensures |d| > 0
    ensures forall i | 0 <= i < |d| :: '0' <= d[i] <= '9'
  {
    var last := ['0' + (n % 10) as char];
    if n < 10 then last else Decimal(n / 10) + last
  }

  /** `%ld` */
  function Number(n: int): string {
    if n < 0 then "-" + Decimal(-n) else Decimal(n)
  }

  /** Reading decimal digits most significant first. */
  function Digits(d: string, acc: nat): (n: nat)
    requires forall i | 0 <= i < |d| :: '0' <= d[i] <= '9'
  {
    if d == "" then acc else Digits(d[1..], 10 * acc + (d[0] as int - '0' as int))
  }

  lemma {:induction false} DigitsAppend(d: string, c: char, acc: nat)
    requires forall i | 0 <= i < |d| :: '0' <= d[i] <= '9'
    requires '0' <= c <= '9'
    ensures Digits(d + [c], acc) == 10 * Digits(d, acc) + (c as int - '0' as int)
  {
    if d == "" {
      assert d + [c] == [c];
      assert [c][1..] == "";
    } else {
      assert (d + [c])[1..] == d[1..] + [c];
      DigitsAppend(d[1..], c, 10 * acc + (d[0] as int - '0' as int));
    }
  }

  /** Reading a printed number gives it back, so printing is injective. */
  lemma {:induction false} DecimalRoundTrip(n: nat)
    ensures Digits(Decimal(n), 0) == n
  {
    var last := '0' + (n % 10) as char;
    if n < 10 {
      assert Decimal(n) == [last];
      assert [last][1..] == "";
    } else {
      DecimalRoundTrip(n / 10);
      DigitsAppend(Decimal(n / 10), last, 0);
    }
  }
}
