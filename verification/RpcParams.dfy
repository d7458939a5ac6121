/** Looking up a string member of the raw params object. */
module RpcParams {
  import opened Bytes
  import opened JsonString
  import opened JsonScan
  import opened RpcGrammar
  import opened RpcMembers

  /** A comma and the whitespace after it, if there is one. */
  function SkipComma(t: string): (r: string)
    ensures |r| <= |t|
  {
    if Hd(t) == ',' then SkipWs(t[1..]) else t
  }

  function SearchMembers(t: string, key: string, limit: nat): Option<string>
    decreases |t|
  {
    if Hd(t) == '\0' || Hd(t) == '}' then None
    else
      var k := TakeKey(t);
      if k.Fail? then None
      else if k.value == key then
        var v := Bounded(Decode(k.rest), limit);
        if v.Got? then Some(v.value) else None
      else
        var r := SkipValue(k.rest);
        if r.None? then None else SearchMembers(SkipComma(SkipWs(r.value)), key, limit)
  }

  /** `anything_rpc_extract_param_string` into a buffer of `limit` bytes. */
  function Extract(params: string, key: string, limit: nat): Option<string> {
    var t := SkipWs(params);
    if Hd(t) == '{' then SearchMembers(SkipWs(t[1..]), key, limit) else None
  }

  // ---- what it finds ----------------------------------------------------------------

  /** An object with well-formed members at depth 1, and what follows it. */
  function ObjectText(lead: string, open: string, ms: seq<Member>, end: string): string {
    lead + ("{" + open) + (if ms == [] then "}" + end else MembersText(ms, true, end))
  }

  /** The first member with the key decides.  Keys of 64 bytes and more do not fit the
      key buffer and end the search. */
  function FirstMatch(ms: seq<Member>, key: string, limit: nat): Option<string> {
    if ms == [] || |ms[0].key| >= MAX_KEY then None
    else if ms[0].key == key then
      if ms[0].value.StrV? && |ms[0].value.text| < limit then Some(ms[0].value.text) else None
    else FirstMatch(ms[1..], key, limit)
  }

  lemma LongKeyFails(m: Member, rest: string)
    requires Encodable(m.key) && |m.key| >= MAX_KEY
    ensures TakeKey(MemberText(m) + rest) == Fail
  {
    var u := (m.gap + ":") + m.pad + ValueText(m.value) + m.trail + rest;
    assert MemberText(m) + rest == Quote(m.key) + u;
    DecodeQuoted(m.key, u);
  }

  lemma KeyOfMember(m: Member, rest: string)
    requires WellFormedMember(m) && |m.key| < MAX_KEY && Hd(rest) in {',', '}'}
    ensures TakeKey(MemberText(m) + rest) == Got(m.key, ValueText(m.value) + m.trail + rest)
  {
    var v := ValueText(m.value) + m.trail + rest;
    assert MemberText(m) + rest == Quote(m.key) + (m.gap + ":") + m.pad + v;
    assert !IsSpace(Hd(v));
    TakeKeyOfText(m, v);
  }

  /** Decoding reads a string value and refuses every other kind. */
  lemma DecodeValue(v: Value, rest: string, trail: string)
    requires WellFormedValue(v) && IsBlank(trail) && Hd(rest) in {',', '}'}
    ensures Decode(ValueText(v) + trail + rest) == if v.StrV? then Got(v.text, trail + rest) else Fail
  {
    hide DecodeBody, Closes, ValidTokens, Quote, Encodable;
    assert ValueText(v) + trail + rest == ValueText(v) + (trail + rest);
    if v.StrV? {
      DecodeQuoted(v.text, trail + rest);
    } else {
      ValueHead(v, trail + rest);
    }
  }

  lemma ValueHead(v: Value, more: string)
    requires WellFormedValue(v) && !v.StrV? && Hd(more) != '"'
    ensures Hd(ValueText(v) + more) != '"'
  {
    hide Closes, ValidTokens, TokensText;
    if v.Scalar? && v.raw == "" {
      assert v.raw + more == more;
    }
  }

  lemma SearchStep(t: string, key: string, limit: nat, k: string, u: string)
    requires Hd(t) == '"' && TakeKey(t) == Got(k, u)
    ensures k == key ==>
              var v := Bounded(Decode(u), limit);
              SearchMembers(t, key, limit) == if v.Got? then Some(v.value) else None
    ensures k != key && SkipValue(u).Some? ==>
              SearchMembers(t, key, limit) == SearchMembers(SkipComma(SkipWs(SkipValue(u).value)), key, limit)
  {}

  lemma SearchStops(t: string, key: string, limit: nat)
    requires Hd(t) == '}' || TakeKey(t).Fail?
    ensures SearchMembers(t, key, limit) == None
  {}

  lemma CommaThenMember(next: string, more: string, u: string)
    requires Hd(u) == ',' && u[1..] == next + more && IsBlank(next) && !IsSpace(Hd(more))
    ensures SkipComma(u) == more
  {
    SkipWsBlank(next, more);
  }

  lemma SearchOneMember(m: Member, u: string, key: string, limit: nat)
    requires WellFormedMember(m) && Hd(u) in {',', '}'}
    ensures SearchMembers(MemberText(m) + u, key, limit)
         == if |m.key| >= MAX_KEY || m.key == key then FirstMatch([m], key, limit)
            else SearchMembers(SkipComma(u), key, limit)
  {
    hide TakeKey, SearchMembers, SkipValue, SkipWs, SkipComma, MemberText, IsSpace, WellFormedValue, Decode;
    var t := MemberText(m) + u;
    MemberStarts(m, u);
    if |m.key| >= MAX_KEY {
      LongKeyFails(m, u);
      SearchStops(t, key, limit);
    } else {
      KeyOfMember(m, u);
      SearchStep(t, key, limit, m.key, ValueText(m.value) + m.trail + u);
      if m.key == key {
        DecodeValue(m.value, u, m.trail);
      } else {
        SkipValueText(m.value, m.trail, u);
      }
    }
  }

  /** On every well-formed object the search returns the first depth-1 match, and nothing
      inside strings, arrays or nested objects ever matches. */
  lemma {:induction false} SearchFindsFirst(ms: seq<Member>, end: string, key: string, limit: nat)
    requires WellFormedMembers(ms) && ms != []
    ensures SearchMembers(MembersText(ms, true, end), key, limit) == FirstMatch(ms, key, limit)
  {
    hide SearchMembers, SkipComma, MemberText, IsSpace, WellFormedValue, ValueText;
    var m, more := ms[0], MembersText(ms[1..], true, end);
    var u := Separator(ms, true) + more;
    assert MembersText(ms, true, end) == MemberText(m) + u;
    SearchOneMember(m, u, key, limit);
    if |m.key| < MAX_KEY && m.key != key {
      if |ms| == 1 {
        NoComma(u);
        SearchStops(u, key, limit);
      } else {
        NotSpaceAtMember(ms[1..], true, end);
        assert u[1..] == m.next + more;
        CommaThenMember(m.next, more, u);
        SearchFindsFirst(ms[1..], end, key, limit);
      }
    }
  }

  lemma NoComma(u: string)
    requires Hd(u) != ','
    ensures SkipComma(u) == u
  {}

  lemma ExtractFindsFirst(lead: string, open: string, ms: seq<Member>, end: string, key: string, limit: nat)
    requires IsBlank(lead) && IsBlank(open) && WellFormedMembers(ms)
    ensures Extract(ObjectText(lead, open, ms, end), key, limit) == FirstMatch(ms, key, limit)
  {
    var body := if ms == [] then "}" + end else MembersText(ms, true, end);
    var t := "{" + (open + body);
    assert ObjectText(lead, open, ms, end) == lead + t;
    SkipWsBlank(lead, t);
    assert t[1..] == open + body;
    if ms != [] {
      NotSpaceAtMember(ms, true, end);
    }
    SkipWsBlank(open, body);
    if ms == [] {
      SearchStops(body, key, limit);
    } else {
      SearchFindsFirst(ms, end, key, limit);
    }
  }

  // ---- the method -------------------------------------------------------------------

  /** Reads a key into its buffer and moves to what follows the colon. */
  method ReadKey(s: string, p: nat, key: array<char>) returns (ok: bool, q: nat)
    requires p <= |s| && key.Length == MAX_KEY
    modifies key
    ensures ok == TakeKey(s[p..]).Got?
    ensures p <= q <= |s|
    ensures ok ==> p < q && TakeKey(s[p..]) == Got(UpToNul(key[..]), s[q..])
  {
    ok, q := ParseString(s, p, key);
    if !ok {
      return;
    }
    ghost var k := Decode(s[p..]).value;
    DecodedHasNoNul(s[p..]);
    ReadBack(key, k);
    q := SkipSpaces(s, q);
    if At(s, q) != ':' {
      return false, q;
    }
    assert s[q..][1..] == s[q + 1..];
    q := SkipSpaces(s, q + 1);
  }

  lemma DecodedHasNoNul(t: string)
    requires Decode(t).Got?
    ensures '\0' !in Decode(t).value
  {
    DecodedIsEncodable(t[1..]);
    EncodableHasNoNul(Decode(t).value);
  }

  method ExtractParam(params: string, key: string, out: array<char>) returns (ok: bool)
    modifies out
    ensures ok == Extract(params, key, out.Length).Some?
    ensures ok ==> Holds(out, Extract(params, key, out.Length).value)
  {
    hide TakeKey, SkipValue, SkipWs, Decode, IsSpace, UpToNul;
    var p := SkipSpaces(params, 0);
    assert params[0..] == params;
    if At(params, p) != '{' {
      return false;
    }
    assert params[p..][1..] == params[p + 1..];
    p := SkipSpaces(params, p + 1);
    while At(params, p) != '\0' && At(params, p) != '}'
      invariant p <= |params|
      invariant Extract(params, key, out.Length) == SearchMembers(params[p..], key, out.Length)
      decreases |params| - p
    {
      var found := new char[MAX_KEY];
      var fine, q := ReadKey(params, p, found);
      if !fine {
        return false;
      }
      if UpToNul(found[..]) == key {
        ok, q := ParseString(params, q, out);
        return;
      }
      fine, q := SkipValueAt(params, q);
      if !fine {
        return false;
      }
      p := SkipSpaces(params, q);
      if At(params, p) == ',' {
        assert params[p..][1..] == params[p + 1..];
        p := SkipSpaces(params, p + 1);
      }
    }
    return false;
  }
}
