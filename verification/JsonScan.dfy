/** The bracket matcher and the value skipper, and the tokens that explain them. */
module JsonScan {
  import opened Bytes
  import opened JsonString

  const MAX_PARAMS: nat := 1024

  /** The copier counts braces; inside an array the skipper counts square brackets. */
  datatype Bracket = Brace | Square {
    function Open(): char { if Brace? then '{' else '[' }
    function Close(): char { if Brace? then '}' else ']' }
  }

  // ---- what the code scans --------------------------------------------------------

  /** Reads on from inside an opened bracket to the one that closes it: the text read. */
  function MatchClose(t: string, depth: nat, b: Bracket): (r: Scan<string>)
    ensures r.Got? ==> |r.rest| < |t|
    decreases |t|
  {
    var c := Hd(t);
    if c == '\0' then Fail
    else if c == '"' then
      var r := Skip(t);
      if r.None? then Fail
      else Prepend(t[..|t| - |r.value|], MatchClose(r.value, depth, b))
    else if c == b.Close() && depth <= 1 then Got([c], t[1..])
    else Prepend([c], MatchClose(t[1..], depth + (if c == b.Open() then 1 else 0)
                                               - (if c == b.Close() then 1 else 0), b))
  }

  /** The object that t starts with. */
  function ObjectSlice(t: string): (r: Scan<string>)
    ensures r.Got? ==> |r.rest| < |t|
  {
    if Hd(t) == '{' then Prepend("{", MatchClose(t[1..], 1, Brace)) else Fail
  }

  predicate EndsScalar(c: char) {
    c == '\0' || c == ',' || c == '}' || c == ']'
  }

  function SkipScalar(t: string): (r: string)
    ensures |r| <= |t|
  {
    if EndsScalar(Hd(t)) then t else SkipScalar(t[1..])
  }

  function AfterObject(t: string): (r: Option<string>)
    ensures r.Some? ==> |r.value| < |t|
  {
    var r := ObjectSlice(t);
    if r.Got? && |r.value| < MAX_PARAMS then Some(r.rest) else None
  }

  function AfterArray(t: string): (r: Option<string>)
    requires t != ""
    ensures r.Some? ==> |r.value| < |t|
  {
    var r := MatchClose(t[1..], 1, Square);
    if r.Got? then Some(r.rest) else None
  }

  /** `skip_json_value`: the unread text after one value of any kind. */
  function SkipValue(t: string): (r: Option<string>)
    ensures r.Some? ==> |r.value| <= |t|
  {
    var u := SkipWs(t);
    match Hd(u)
    case '"' => Skip(u)
    case '{' => AfterObject(u)
    case '[' => AfterArray(u)
    case _ => Some(SkipScalar(u))
  }

  lemma SkipValueCases(t: string)
    requires !IsSpace(Hd(t))
    ensures Hd(t) == '"' ==> SkipValue(t) == Skip(t)
    ensures Hd(t) == '{' ==> SkipValue(t) == AfterObject(t)
    ensures Hd(t) == '[' ==> SkipValue(t) == AfterArray(t)
    ensures Hd(t) !in {'"', '{', '['} ==> SkipValue(t) == Some(SkipScalar(t))
  {
    assert SkipWs(t) == t;
  }

  // ---- what it means --------------------------------------------------------------

  /** A JSON text outside its strings is single characters; brackets in strings are
      part of a string token and are not counted. */
  datatype Token = Str(body: string) | Chr(c: char)

  predicate ValidToken(k: Token) {
    match k
    case Str(body) => Encodable(body)
    case Chr(c) => c != '"' && c != '\0'
  }

  predicate ValidTokens(ks: seq<Token>) {
    forall i | 0 <= i < |ks| :: ValidToken(ks[i])
  }

  function TokenText(k: Token): string {
    match k
    case Str(body) => Quote(body)
    case Chr(c) => [c]
  }

  function TokensText(ks: seq<Token>): string {
    if ks == [] then "" else TokenText(ks[0]) + TokensText(ks[1..])
  }

  function Delta(k: Token, b: Bracket): int {
    if k == Chr(b.Open()) then 1 else if k == Chr(b.Close()) then -1 else 0
  }

  /** The depth is positive before every token and zero after the last: the tokens are
      the shortest run that closes the brackets that are open. */
  predicate Closes(ks: seq<Token>, depth: int, b: Bracket) {
    if ks == [] then depth == 0 else depth > 0 && Closes(ks[1..], depth + Delta(ks[0], b), b)
  }

  lemma MatchCloseEnds(t: string, depth: nat, b: Bracket)
    ensures Hd(t) == '\0' ==> MatchClose(t, depth, b) == Fail
    ensures Hd(t) == b.Close() && depth <= 1 ==> MatchClose(t, depth, b) == Got([t[0]], t[1..])
  {}

  lemma MatchCloseNeeds(t: string, depth: nat, b: Bracket)
    requires MatchClose(t, depth, b).Got?
    ensures Hd(t) != '\0' && (Hd(t) == '"' ==> Skip(t).Some?)
  {}

  lemma NoTokens(b: Bracket)
    ensures ValidTokens([]) && Closes([], 0, b) && TokensText([]) == ""
  {}

  lemma MatchCloseStep(t: string, depth: nat, b: Bracket)
    requires Hd(t) != '\0' && Hd(t) != '"' && !(Hd(t) == b.Close() && depth <= 1)
    ensures MatchClose(t, depth, b)
         == Prepend([t[0]], MatchClose(t[1..], depth + Delta(Chr(t[0]), b), b))
  {}

  lemma MatchCloseString(t: string, depth: nat, b: Bracket)
    requires Hd(t) == '"' && Skip(t).Some?
    ensures Decode(t).Got? && Encodable(Decode(t).value)
    ensures t == Quote(Decode(t).value) + Skip(t).value
    ensures MatchClose(t, depth, b)
         == Prepend(Quote(Decode(t).value), MatchClose(Skip(t).value, depth, b))
  {
    ScannersAgree(t);
    EscapeAfterDecode(t);
    assert t[..|t| - |Skip(t).value|] == Quote(Decode(t).value);
  }

  lemma AddToken(k: Token, more: seq<Token>, depth: int, b: Bracket, r: string)
    requires depth > 0 && ValidToken(k) && ValidTokens(more) && Closes(more, depth + Delta(k, b), b)
    ensures ValidTokens([k] + more) && Closes([k] + more, depth, b)
    ensures TokensText([k] + more) == TokenText(k) + TokensText(more)
    ensures TokenText(k) + (TokensText(more) + r) == TokensText([k] + more) + r
  {
    hide ValidToken, TokenText, Delta;
    var ks := [k] + more;
    assert ks[1..] == more;
    assert forall i | 0 <= i < |ks| :: ks[i] == if i == 0 then k else more[i - 1];
  }

  /** What the matcher reads is a run of tokens that closes the bracket. */
  lemma {:induction false} MatchIsTokens(t: string, depth: nat, b: Bracket) returns (ks: seq<Token>)
    requires depth > 0 && MatchClose(t, depth, b).Got?
    ensures ValidTokens(ks) && Closes(ks, depth, b)
    ensures MatchClose(t, depth, b).value == TokensText(ks)
    ensures t == TokensText(ks) + MatchClose(t, depth, b).rest
    decreases |t|
  {
    hide MatchClose, Skip, Decode, Quote, Encodable, Closes, TokensText, ValidTokens;
    var c := Hd(t);
    MatchCloseNeeds(t, depth, b);
    NoTokens(b);
    var r := MatchClose(t, depth, b).rest;
    var k, more := Chr(c), [];
    if c == '"' {
      MatchCloseString(t, depth, b);
      k := Str(Decode(t).value);
      more := MatchIsTokens(Skip(t).value, depth, b);
    } else {
      assert t == [c] + t[1..];
      if c != b.Close() || depth > 1 {
        MatchCloseStep(t, depth, b);
        more := MatchIsTokens(t[1..], depth + Delta(k, b), b);
      } else {
        MatchCloseEnds(t, depth, b);
        assert t == [c] + ("" + r);
      }
    }
    AddToken(k, more, depth, b, r);
    ks := [k] + more;
  }

  /** A run of tokens that closes the bracket is read whole, whatever follows it. */
  lemma {:induction false} TokensMatch(ks: seq<Token>, depth: nat, b: Bracket, rest: string)
    requires depth > 0 && ValidTokens(ks) && Closes(ks, depth, b)
    ensures MatchClose(TokensText(ks) + rest, depth, b) == Got(TokensText(ks), rest)
  {
    var k, more := ks[0], ks[1..];
    var tail := TokensText(more) + rest;
    var t := TokensText(ks) + rest;
    assert t == TokenText(k) + tail;
    if k.Str? {
      TokensMatch(more, depth, b, rest);
      DecodeQuoted(k.body, tail);
      ScannersAgree(t);
      MatchCloseString(t, depth, b);
    } else {
      assert t[0] == k.c && t[1..] == tail;
      if k.c == b.Close() && depth <= 1 {
        assert more == [] && tail == rest;
        assert TokensText(ks) == [k.c] + "";
      } else {
        MatchCloseStep(t, depth, b);
        TokensMatch(more, depth + Delta(k, b), b, rest);
      }
    }
  }

  lemma {:induction false} TokensHaveNoNul(ks: seq<Token>)
    requires ValidTokens(ks)
    ensures '\0' !in TokensText(ks)
  {
    if ks != [] {
      TokensHaveNoNul(ks[1..]);
      if ks[0].Str? {
        EscapePrintable(ks[0].body);
      }
    }
  }

  ghost predicate IsObjectText(u: string) {
    exists ks :: ValidTokens(ks) && Closes(ks, 1, Brace) && u == "{" + TokensText(ks)
  }

  lemma SliceIsObject(t: string)
    requires ObjectSlice(t).Got?
    ensures t == ObjectSlice(t).value + ObjectSlice(t).rest && IsObjectText(ObjectSlice(t).value)
  {
    hide MatchClose, Closes, ValidTokens;
    var ks := MatchIsTokens(t[1..], 1, Brace);
    assert t == "{" + t[1..];
    assert "{" + (TokensText(ks) + ObjectSlice(t).rest) == ("{" + TokensText(ks)) + ObjectSlice(t).rest;
  }

  lemma ObjectIsSlice(u: string, rest: string)
    requires IsObjectText(u)
    ensures ObjectSlice(u + rest) == Got(u, rest)
  {
    hide MatchClose, Closes, ValidTokens, TokensText;
    var ks :| ValidTokens(ks) && Closes(ks, 1, Brace) && u == "{" + TokensText(ks);
    assert (u + rest)[1..] == TokensText(ks) + rest;
    TokensMatch(ks, 1, Brace, rest);
  }

  /** The object slice, both ways: it succeeds exactly when the text has a prefix that
      is an object (its brace depth outside well-formed strings first returns to zero at
      the prefix's end), and then it is that prefix. */
  lemma ObjectSliceExact(t: string, u: string, rest: string)
    ensures ObjectSlice(t) == Got(u, rest) <==> t == u + rest && IsObjectText(u)
  {
    if ObjectSlice(t) == Got(u, rest) {
      SliceIsObject(t);
    }
    if t == u + rest && IsObjectText(u) {
      ObjectIsSlice(u, rest);
    }
  }

  /** Scanning the copied slice again reads all of it and gives it back. */
  lemma RescanReproduces(t: string, more: string)
    requires ObjectSlice(t).Got?
    ensures ObjectSlice(ObjectSlice(t).value + more) == Got(ObjectSlice(t).value, more)
  {
    var u := ObjectSlice(t).value;
    ObjectSliceExact(t, u, ObjectSlice(t).rest);
    ObjectSliceExact(u + more, u, more);
  }

  // ---- the methods ----------------------------------------------------------------

  /** One more stretch s[q..r] of what was read since p. */
  lemma ReadOn(s: string, p: nat, q: nat, r: nat, x: Scan<string>)
    requires p <= q <= r <= |s|
    ensures Prepend(s[p..q], Prepend(s[q..r], x)) == Prepend(s[p..r], x)
  {
    if x.Got? {
      assert s[p..q] + (s[q..r] + x.value) == s[p..r] + x.value;
    }
  }

  /** One step inside the brackets: the next cursor and the next depth. */
  method MatchStep(s: string, p: nat, depth: nat, b: Bracket) returns (ok: bool, q: nat, d: nat)
    requires p < |s| && s[p] != '\0' && depth > 0 && !(s[p] == b.Close() && depth == 1)
    ensures p <= q <= |s| && (ok ==> p < q && d > 0)
    ensures MatchClose(s[p..], depth, b)
         == if ok then Prepend(s[p..q], MatchClose(s[q..], d, b)) else Fail
  {
    ghost var t := s[p..];
    d := depth;
    if s[p] == '"' {
      ok, q := SkipString(s, p);
      if ok {
        MatchCloseString(t, depth, b);
        assert t[..q - p] == s[p..q];
      }
      return;
    }
    ok, q := true, p + 1;
    assert t[1..] == s[q..] && s[p..q] == [s[p]];
    MatchCloseStep(t, depth, b);
    if s[p] == b.Open() {
      d := d + 1;
    } else if s[p] == b.Close() {
      d := d - 1;
    }
  }

  /** The loop shared by the object copier and the array case of the value skipper. */
  method FindClose(s: string, p: nat, b: Bracket) returns (ok: bool, q: nat)
    requires p < |s| && s[p] == b.Open()
    ensures p <= q <= |s| && (ok ==> p + 1 < q)
    ensures MatchClose(s[p + 1..], 1, b) == if ok then Got(s[p + 1..q], s[q..]) else Fail
  {
    hide MatchClose;
    q := p + 1;
    var depth := 1;
    StartDecode(MatchClose(s[q..], 1, b));
    assert s[p + 1..q] == "";
    while At(s, q) != '\0'
      invariant p < q <= |s| && depth > 0
      invariant MatchClose(s[p + 1..], 1, b) == Prepend(s[p + 1..q], MatchClose(s[q..], depth, b))
      decreases |s| - q
    {
      if s[q] == b.Close() && depth == 1 {
        MatchCloseEnds(s[q..], 1, b);
        assert s[q..][1..] == s[q + 1..] && s[p + 1..q] + [s[q]] == s[p + 1..q + 1];
        return true, q + 1;
      }
      var fine, r, d := MatchStep(s, q, depth, b);
      if !fine {
        return false, q;
      }
      ReadOn(s, p + 1, q, r, MatchClose(s[r..], d, b));
      q, depth := r, d;
    }
    MatchCloseEnds(s[q..], depth, b);
    return false, q;
  }

  /** `copy_json_object_raw` */
  method CopyObject(s: string, p: nat, out: array<char>) returns (ok: bool, q: nat)
    requires p <= |s|
    modifies out
    ensures ok == (ObjectSlice(s[p..]).Got? && |ObjectSlice(s[p..]).value| < out.Length)
    ensures p <= q <= |s|
    ensures ok ==> ObjectSlice(s[p..]) == Got(s[p..q], s[q..]) && Holds(out, s[p..q])
  {
    if At(s, p) != '{' {
      return false, p;
    }
    assert s[p..][1..] == s[p + 1..];
    ok, q := FindClose(s, p, Brace);
    if !ok {
      return;
    }
    assert "{" + s[p + 1..q] == s[p..q];
    if q - p >= out.Length {
      return false, q;
    }
    var cut := Snprintf(out, 0, s[p..q], "");
    assert "" + s[p..q] == s[p..q];
  }

  method SkipValueAt(s: string, p: nat) returns (ok: bool, q: nat)
    requires p <= |s|
    ensures ok == SkipValue(s[p..]).Some?
    ensures p <= q <= |s| && (ok ==> s[q..] == SkipValue(s[p..]).value)
  {
    q := SkipSpaces(s, p);
    var c := At(s, q);
    if c == '"' {
      ok, q := SkipString(s, q);
    } else if c == '{' {
      var scratch := new char[MAX_PARAMS];
      ok, q := CopyObject(s, q, scratch);
    } else if c == '[' {
      assert s[q..][1..] == s[q + 1..];
      ok, q := FindClose(s, q, Square);
    } else {
      ok := true;
      while !EndsScalar(At(s, q))
        invariant p <= q <= |s|
        invariant Some(SkipScalar(s[q..])) == SkipValue(s[p..])
        decreases |s| - q
      {
        assert s[q..][1..] == s[q + 1..];
        q := q + 1;
      }
    }
  }
}
