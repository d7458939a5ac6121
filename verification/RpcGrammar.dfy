/** The request grammar that the parser is measured against: what a well-formed request
    document is and what it means, without reference to any cursor. */
module RpcGrammar {
  import opened Bytes
  import opened JsonString
  import opened JsonScan

  const MAX_KEY: nat := 64
  const MAX_ID: nat := 64
  const MAX_METHOD: nat := 64

  /** Brackets and strings inside an object or an array are kept as raw tokens: nothing
      below depth 1 has a meaning. */
  datatype Value =
    | StrV(text: string)
    | ObjV(inner: seq<Token>)
    | ArrV(inner: seq<Token>)
    | Scalar(raw: string)

  function ValueText(v: Value): string {
    match v
    case StrV(text) => Quote(text)
    case ObjV(inner) => "{" + TokensText(inner)
    case ArrV(inner) => "[" + TokensText(inner)
    case Scalar(raw) => raw
  }

  predicate NeverEndsScalar(u: string) {
    forall i | 0 <= i < |u| :: !EndsScalar(u[i])
  }

  predicate WellFormedScalar(raw: string) {
    && NeverEndsScalar(raw)
    && Hd(raw) !in {'"', '{', '['} && !IsSpace(Hd(raw))
  }

  predicate WellFormedValue(v: Value) {
    match v
    case StrV(text) => Encodable(text)
    case ObjV(inner) => ValidTokens(inner) && Closes(inner, 1, Brace) && |ValueText(v)| < MAX_PARAMS
    case ArrV(inner) => ValidTokens(inner) && Closes(inner, 1, Square)
    case Scalar(raw) => WellFormedScalar(raw)
  }

  /** `"key" gap : pad value trail`; next is the whitespace after the comma that follows. */
  datatype Member = Member(key: string, gap: string, pad: string, value: Value, trail: string, next: string)

  function MemberText(m: Member): string {
    Quote(m.key) + (m.gap + ":") + m.pad + ValueText(m.value) + m.trail
  }

  predicate WellFormedMember(m: Member) {
    && Encodable(m.key) && WellFormedValue(m.value)
    && IsBlank(m.gap) && IsBlank(m.pad) && IsBlank(m.trail) && IsBlank(m.next)
    && (m.value == Scalar("") ==> m.trail == "")
  }

  predicate WellFormedMembers(ms: seq<Member>) {
    forall i | 0 <= i < |ms| :: WellFormedMember(ms[i])
  }

  /** Members separated by commas.  The last one is followed by the closing brace, or by
      one more comma and the end of the text; then comes `end`. */
  function MembersText(ms: seq<Member>, closed: bool, end: string): string {
    if ms == [] then end
    else MemberText(ms[0]) + Separator(ms, closed) + MembersText(ms[1..], closed, end)
  }

  function Separator(ms: seq<Member>, closed: bool): string
    requires ms != []
  {
    if |ms| == 1 && closed then "}" else "," + ms[0].next
  }

  // ---- the request members --------------------------------------------------------

  /** The keys that the request object reserves at depth 1. */
  datatype Role = Version | Id | Method | Params | Extra

  function RoleOf(key: string): Role {
    if key == "jsonrpc" then Version
    else if key == "id" then Id
    else if key == "method" then Method
    else if key == "params" then Params
    else Extra
  }

  /** What a reserved member must hold; JSON-RPC 2.0 section 4 also allows number ids,
      null ids and array params. */
  predicate RoleAllows(role: Role, v: Value) {
    match role
    case Version => v == StrV("2.0")
    case Id => v.StrV? && |v.text| < MAX_ID
    case Method => v.StrV? && |v.text| < MAX_METHOD
    case Params => v.ObjV?
    case Extra => true
  }

  predicate RequestMember(m: Member) {
    WellFormedMember(m) && |m.key| < MAX_KEY && RoleAllows(RoleOf(m.key), m.value)
  }

  predicate RequestMembers(ms: seq<Member>) {
    forall i | 0 <= i < |ms| :: RequestMember(ms[i])
  }

  function Count(ms: seq<Member>, role: Role): nat {
    if ms == [] then 0 else (if RoleOf(ms[0].key) == role then 1 else 0) + Count(ms[1..], role)
  }

  /** The value of the member with a role, if there is one. */
  function Lookup(ms: seq<Member>, role: Role): Option<Value> {
    if ms == [] then None
    else if RoleOf(ms[0].key) == role then Some(ms[0].value)
    else Lookup(ms[1..], role)
  }

  /** A request document: `lead { open members } trail junk`, where junk is hidden behind
      the NUL, or the same without the closing brace and with one more comma. */
  datatype Document = Document(
    lead: string, open: string, members: seq<Member>, closed: bool, trail: string, junk: string)

  function DocumentText(d: Document): string {
    d.lead + ("{" + d.open) + MembersText(d.members, d.closed, d.trail + d.junk)
  }

  predicate WellFormedDocument(d: Document) {
    && IsBlank(d.lead) && IsBlank(d.open) && IsBlank(d.trail)
    && Hd(d.junk) == '\0'
    && (d.closed || d.trail == "")
    && RequestMembers(d.members)
    && Count(d.members, Version) == 1 && Count(d.members, Id) == 1
    && Count(d.members, Method) == 1 && Count(d.members, Params) <= 1
  }

  // ---- scanning the text of a value or a member ------------------------------------

  lemma {:induction false} SkipScalarStops(u: string, rest: string)
    requires NeverEndsScalar(u)
    requires EndsScalar(Hd(rest))
    ensures SkipScalar(u + rest) == rest
  {
    if u == "" {
      assert u + rest == rest;
    } else {
      assert (u + rest)[1..] == u[1..] + rest;
      SkipScalarStops(u[1..], rest);
    }
  }

  lemma {:induction false} SkipScalarReads(t: string)
    ensures var r := SkipScalar(t);
      IsSuffix(r, t) && NeverEndsScalar(Read(t, r)) && t == Read(t, r) + r
  {
    if !EndsScalar(Hd(t)) {
      SkipScalarReads(t[1..]);
      ReadMore(t, SkipScalar(t[1..]));
    }
  }

  /** A scalar is everything up to the first comma, closing bracket of either kind, or the
      end of the text. */
  lemma SkipScalarExact(t: string, u: string, r: string)
    ensures SkipScalar(t) == r && t == u + r <==>
            && t == u + r && Hd(r) in {'\0', ',', '}', ']'}
            && forall i | 0 <= i < |u| :: u[i] !in {'\0', ',', '}', ']'}
  {
    SkipScalarReads(t);
    if t == u + r && SkipScalar(t) == r {
      assert Read(t, r) == u;
      SkipScalarEnds(t);
    } else if t == u + r && Hd(r) in {'\0', ',', '}', ']'} && NeverEndsScalar(u) {
      SkipScalarStops(u, r);
    }
  }

  lemma {:induction false} SkipScalarEnds(t: string)
    ensures EndsScalar(Hd(SkipScalar(t)))
  {
    if !EndsScalar(Hd(t)) {
      SkipScalarEnds(t[1..]);
    }
  }

  lemma SkipScalarValue(raw: string, trail: string, rest: string)
    requires WellFormedScalar(raw) && IsBlank(trail) && Hd(rest) in {',', '}'}
    ensures SkipValue(raw + trail + rest) == Some(rest)
  {
    if raw == "" {
      assert raw + trail + rest == trail + rest;
      SkipWsBlank(trail, rest);
      SkipScalarStops("", rest);
      assert "" + rest == rest;
    } else {
      assert Hd(raw + trail + rest) == raw[0];
      SkipScalarStops(raw + trail, rest);
      SkipValueCases(raw + trail + rest);
    }
  }

  lemma SkipArrayValue(inner: seq<Token>, rest: string)
    requires ValidTokens(inner) && Closes(inner, 1, Square)
    ensures SkipValue(ValueText(ArrV(inner)) + rest) == Some(rest)
  {
    var u := TokensText(inner);
    var t := "[" + u + rest;
    TokensMatch(inner, 1, Square, rest);
    AfterArrayText(u, rest);
    SkipValueCases(t);
  }

  lemma AfterArrayText(u: string, rest: string)
    requires MatchClose(u + rest, 1, Square) == Got(u, rest)
    ensures AfterArray("[" + u + rest) == Some(rest)
  {
    hide MatchClose;
    assert ("[" + u + rest)[1..] == u + rest;
  }

  lemma SkipBracketedValue(v: Value, rest: string)
    requires WellFormedValue(v) && !v.Scalar?
    ensures SkipValue(ValueText(v) + rest) == Some(rest)
  {
    var t := ValueText(v) + rest;
    if v.ArrV? {
      SkipArrayValue(v.inner, rest);
    } else if v.StrV? {
      DecodeQuoted(v.text, rest);
      ScannersAgree(t);
      assert t[0] == '"';
    } else {
      assert IsObjectText(ValueText(v));
      ObjectIsSlice(ValueText(v), rest);
      assert t[0] == '{';
    }
    if !v.ArrV? {
      SkipValueCases(t);
    }
  }

  /** The skipper passes a well-formed value and stops, up to whitespace, at what
      follows the member. */
  lemma SkipValueText(v: Value, trail: string, rest: string)
    requires WellFormedValue(v) && IsBlank(trail) && Hd(rest) in {',', '}'}
    ensures SkipValue(ValueText(v) + trail + rest).Some?
    ensures SkipWs(SkipValue(ValueText(v) + trail + rest).value) == rest
  {
    if v.Scalar? {
      SkipScalarValue(v.raw, trail, rest);
      assert SkipWs(rest) == rest;
    } else {
      assert ValueText(v) + trail + rest == ValueText(v) + (trail + rest);
      SkipBracketedValue(v, trail + rest);
      SkipWsBlank(trail, rest);
    }
  }

  lemma SkippedString(t: string) returns (v: Value)
    requires Hd(t) == '"' && Skip(t).Some?
    ensures WellFormedValue(v) && t == ValueText(v) + Skip(t).value
  {
    hide Decode, Skip;
    ScannersAgree(t);
    EscapeAfterDecode(t);
    v := StrV(Decode(t).value);
  }

  lemma SkippedObject(t: string) returns (v: Value)
    requires Hd(t) == '{' && AfterObject(t).Some?
    ensures WellFormedValue(v) && t == ValueText(v) + AfterObject(t).value
  {
    hide MatchClose, Closes;
    var ks := MatchIsTokens(t[1..], 1, Brace);
    SliceIsObject(t);
    v := ObjV(ks);
  }

  lemma SkippedArray(t: string) returns (v: Value)
    requires Hd(t) == '[' && AfterArray(t).Some?
    ensures WellFormedValue(v) && t == ValueText(v) + AfterArray(t).value
  {
    hide MatchClose, Closes;
    var ks := MatchIsTokens(t[1..], 1, Square);
    assert t == "[" + t[1..];
    v := ArrV(ks);
  }

  lemma SkippedScalar(t: string) returns (v: Value)
    requires !IsSpace(Hd(t)) && Hd(t) !in {'"', '{', '['}
    ensures WellFormedValue(v) && t == ValueText(v) + SkipScalar(t)
  {
    SkipScalarReads(t);
    assert EndsScalar(Hd(t)) ==> Read(t, SkipScalar(t)) == "";
    v := Scalar(Read(t, SkipScalar(t)));
  }

  /** Whatever the skipper passes is the text of a well-formed value. */
  lemma SkippedIsValue(t: string) returns (v: Value)
    requires !IsSpace(Hd(t)) && SkipValue(t).Some?
    ensures WellFormedValue(v) && t == ValueText(v) + SkipValue(t).value
  {
    hide Skip, SkipValue, SkipScalar, AfterObject, AfterArray, WellFormedValue, ValueText;
    SkipValueCases(t);
    if Hd(t) == '"' {
      v := SkippedString(t);
    } else if Hd(t) == '{' {
      v := SkippedObject(t);
    } else if Hd(t) == '[' {
      v := SkippedArray(t);
    } else {
      v := SkippedScalar(t);
    }
  }
}
