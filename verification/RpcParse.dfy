/** `anything_rpc_parse`: one request object per message. */
module RpcParse {
  import opened Bytes
  import opened JsonString
  import opened JsonScan
  import opened RpcGrammar
  import opened RpcMembers
  import opened RpcParams
  import opened RpcHash

  const MAX_SESSION: nat := 64

  datatype Request = Request(id: string, name: string, session: string, params: string, hash: nat)

  /** The request that complete fields stand for. */
  function Complete(f: Fields): Option<Request> {
    if f.version && f.id.Some? && f.name.Some? then
      var params := if f.params.Some? then f.params.value else "{}";
      var found := Extract(params, "session_id", MAX_SESSION);
      var session := if found.Some? then found.value else "default";
      Some(Request(f.id.value, f.name.value, session, params, HashOf(f.name.value, params, session)))
    else None
  }

  /** The text after the opening brace of a non-empty object. */
  function OpenObject(body: string): Option<string> {
    var t := SkipWs(body);
    if Hd(t) != '{' then None
    else
      var u := SkipWs(t[1..]);
      if Hd(u) == '}' then None else Some(u)
  }

  function Parse(body: string): Option<Request> {
    var t := OpenObject(body);
    if t.None? then None
    else
      var r := TakeMembers(t.value, NOTHING);
      if r.Fail? || Hd(SkipWs(r.rest)) !in {'\0', '\n'} then None else Complete(r.value)
  }

  // ---- the parser accepts exactly the grammar -----------------------------------------

  function RequestOf(d: Document): Option<Request> {
    Complete(FieldsOf(d.members))
  }

  /** What a document means, said by its members and without the parser: the id and the
      method are the texts of those members, the params are the raw text of that member or
      the empty object, the session is the one named in the params or the default, and the
      hash is that of the three. */
  predicate Means(d: Document, q: Request) {
    && Lookup(d.members, Id) == Some(StrV(q.id))
    && Lookup(d.members, Method) == Some(StrV(q.name))
    && q.params == (match Lookup(d.members, Params) case None => "{}" case Some(v) => ValueText(v))
    && q.session == (match Extract(q.params, "session_id", 64) case None => "default" case Some(s) => s)
    && q.hash == HashOf(q.name, q.params, q.session)
  }

  ghost predicate Describes(d: Document, body: string, q: Request) {
    WellFormedDocument(d) && DocumentText(d) == body && Means(d, q)
  }

  lemma {:induction false} LookupIsAllowed(ms: seq<Member>, role: Role)
    requires RequestMembers(ms) && Lookup(ms, role).Some?
    ensures RoleAllows(role, Lookup(ms, role).value)
  {
    if RoleOf(ms[0].key) == role {
      assert RequestMember(ms[0]);
    } else {
      LookupIsAllowed(ms[1..], role);
    }
  }

  /** Completing the collected fields gives what the document means. */
  lemma FieldsMean(d: Document)
    requires RequestMembers(d.members)
    requires Lookup(d.members, Id).Some? && Lookup(d.members, Method).Some? && Lookup(d.members, Version).Some?
    ensures RequestOf(d).Some? && Means(d, RequestOf(d).value)
  {
    hide Extract, HashOf, RequestMembers, Lookup;
    LookupIsAllowed(d.members, Id);
    LookupIsAllowed(d.members, Method);
    if Lookup(d.members, Params).Some? {
      LookupIsAllowed(d.members, Params);
    }
  }

  /** The session of params that are a list of members is their first depth-1 member of
      that name, if it is a string below 64 bytes. */
  lemma SessionIsFirst(d: Document, q: Request, open: string, ms: seq<Member>, end: string)
    requires Means(d, q) && q.params == ObjectText("", open, ms, end)
    requires IsBlank(open) && WellFormedMembers(ms)
    ensures q.session == (match FirstMatch(ms, "session_id", 64) case None => "default" case Some(s) => s)
  {
    hide Extract, ObjectText, FirstMatch, HashOf, ValueText, Lookup, WellFormedMembers;
    ExtractFindsFirst("", open, ms, end, "session_id", 64);
  }

  lemma MembersMeaning(ms: seq<Member>)
    requires RequestMembers(ms)
    ensures Fresh(ms, NOTHING) <==>
            Count(ms, Version) <= 1 && Count(ms, Id) <= 1 && Count(ms, Method) <= 1 && Count(ms, Params) <= 1
    ensures Fresh(ms, NOTHING) ==> ApplyAll(ms, NOTHING) == FieldsOf(ms)
  {
    FreshIsOnce(ms, NOTHING);
    if Fresh(ms, NOTHING) {
      ApplyAllIsLookup(ms, NOTHING);
      var f, g := ApplyAll(ms, NOTHING), FieldsOf(ms);
      assert Field(f, Version) == FieldOf(ms, Version) && Field(f, Id) == FieldOf(ms, Id);
      assert Field(f, Method) == FieldOf(ms, Method) && Field(f, Params) == FieldOf(ms, Params);
    }
  }

  lemma {:induction false} CountIsLookup(ms: seq<Member>, role: Role)
    ensures Count(ms, role) > 0 <==> Lookup(ms, role).Some?
  {
    if ms != [] {
      CountIsLookup(ms[1..], role);
    }
  }

  /** Round trip: a well-formed document in any member order and with any whitespace is
      parsed to its members' values, whatever its other members hold. */
  lemma ParseOfText(d: Document)
    requires WellFormedDocument(d)
    ensures RequestOf(d).Some? && Parse(DocumentText(d)) == RequestOf(d)
    ensures Means(d, Parse(DocumentText(d)).value)
  {
    hide Means, SkipWs, TakeMembers, MembersText, Extract, HashOf, RequestMember;
    var end := d.trail + d.junk;
    var u := MembersText(d.members, d.closed, end);
    assert d.members != [] by {
      assert Count(d.members, Id) == 1;
    }
    OpenOfText(d, u);
    MembersMeaning(d.members);
    CountIsLookup(d.members, Version);
    CountIsLookup(d.members, Id);
    CountIsLookup(d.members, Method);
    if !d.closed {
      assert end == d.junk;
    }
    TakeMembersOfText(d.members, d.closed, end, NOTHING);
    SkipWsBlank(d.trail, d.junk);
    FieldsMean(d);
  }

  lemma OpenOfText(d: Document, u: string)
    requires IsBlank(d.lead) && IsBlank(d.open) && d.members != []
    requires u == MembersText(d.members, d.closed, d.trail + d.junk)
    ensures OpenObject(DocumentText(d)) == Some(u)
  {
    var t := "{" + (d.open + u);
    assert Hd(u) == '"';
    assert DocumentText(d) == d.lead + t && t[1..] == d.open + u;
    SkipWsBlank(d.lead, t);
    SkipWsBlank(d.open, u);
  }

  /** Soundness: an accepted message is the text of a well-formed document. */
  lemma ParsedIsText(body: string) returns (d: Document)
    requires Parse(body).Some?
    ensures WellFormedDocument(d) && DocumentText(d) == body && RequestOf(d) == Parse(body)
    ensures Means(d, Parse(body).value)
  {
    hide Means, SkipWs, TakeMembers, MembersText, Fresh, ApplyAll, Extract, HashOf, RequestMember;
    var lead, t := SplitWs(body);
    var open, u := SplitWs(t[1..]);
    var r := TakeMembers(u, NOTHING);
    var ms, closed := TakenMembersAreText(u, NOTHING);
    var trail, junk := SplitWs(r.rest);
    if !closed {
      trail, junk := "", r.rest;
    }
    assert trail + junk == r.rest;
    MembersMeaning(ms);
    CountIsLookup(ms, Version);
    CountIsLookup(ms, Id);
    CountIsLookup(ms, Method);
    d := Document(lead, open, ms, closed, trail, junk);
    assert t == "{" + t[1..];
    assert body == lead + ("{" + open) + u;
    FieldsMean(d);
  }

  /** Both directions: the parser accepts exactly the request documents, and returns what
      they mean. */
  lemma ParseExact(body: string, q: Request)
    ensures Parse(body) == Some(q) <==> exists d :: Describes(d, body, q)
  {
    if Parse(body) == Some(q) {
      var d := ParsedIsText(body);
      assert Describes(d, body, q);
    }
    if d :| Describes(d, body, q) {
      hide Parse, DocumentText, WellFormedDocument;
      ParseOfText(d);
    }
  }

  /** What an unreserved member holds never influences the result. */
  lemma ExtraValueIgnored(d: Document, i: nat, v: Value)
    requires WellFormedDocument(d) && i < |d.members| && RoleOf(d.members[i].key) == Extra
    requires WellFormedValue(v) && (v == Scalar("") ==> d.members[i].trail == "")
    ensures Parse(DocumentText(d.(members := d.members[i := d.members[i].(value := v)])))
         == Parse(DocumentText(d))
  {
    var ms := d.members;
    var ns := ms[i := ms[i].(value := v)];
    SameRolesSameFields(ms, ns, i);
    assert forall j | 0 <= j < |ns| :: RequestMember(ns[j]) by {
      assert RequestMember(ms[i]);
    }
    ParseOfText(d);
    ParseOfText(d.(members := ns));
  }

  lemma {:induction false} SameRolesSameFields(ms: seq<Member>, ns: seq<Member>, i: nat)
    requires i < |ms| && |ns| == |ms| && RoleOf(ms[i].key) == RoleOf(ns[i].key) == Extra
    requires forall j | 0 <= j < |ms| && j != i :: ns[j] == ms[j]
    ensures FieldsOf(ns) == FieldsOf(ms)
    ensures forall role | role != Extra :: Count(ns, role) == Count(ms, role)
  {
    if i == 0 {
      assert ns[1..] == ms[1..];
    } else {
      SameRolesSameFields(ms[1..], ns[1..], i - 1);
    }
  }

  /** The closing brace is not needed: a text that stops after one more comma is accepted
      with the same meaning, although no JSON grammar allows it. */
  lemma TrailingCommaAccepted(d: Document)
    requires WellFormedDocument(d) && d.closed
    ensures Parse(DocumentText(d.(closed := false, trail := ""))) == Parse(DocumentText(d)) != None
  {
    ParseOfText(d);
    ParseOfText(d.(closed := false, trail := ""));
  }

  /** The fields of an accepted request fit their buffers, and everything but the raw
      params can be decoded again after it is escaped. */
  lemma ParsedFits(body: string)
    requires Parse(body).Some?
    ensures var q := Parse(body).value;
      && |q.id| < MAX_ID && |q.name| < MAX_METHOD && |q.session| < MAX_SESSION && |q.params| < MAX_PARAMS
      && Encodable(q.id) && Encodable(q.name) && Encodable(q.session) && '\0' !in q.params
      && q.hash == HashOf(q.name, q.params, q.session)
  {
    hide SkipWs, TakeMembers, Extract, HashOf, RequestMember, WellFormedDocument;
    var d := ParsedIsText(body);
    var q := Parse(body).value;
    DocumentMembers(d);
    LookupFits(d.members, Id);
    LookupFits(d.members, Method);
    if FieldOf(d.members, Params).Some? {
      LookupFits(d.members, Params);
    }
    ExtractFits(q.params, "session_id", MAX_SESSION);
  }

  lemma DocumentMembers(d: Document)
    requires WellFormedDocument(d)
    ensures RequestMembers(d.members)
  {}

  lemma {:induction false} LookupFits(ms: seq<Member>, role: Role)
    requires RequestMembers(ms) && role in {Id, Method, Params} && FieldOf(ms, role).Some?
    ensures role == Params ==> |FieldOf(ms, role).value| < MAX_PARAMS && '\0' !in FieldOf(ms, role).value
    ensures role != Params ==> |FieldOf(ms, role).value| < MAX_ID && Encodable(FieldOf(ms, role).value)
  {
    if RoleOf(ms[0].key) == role {
      assert RequestMember(ms[0]);
      if role == Params {
        TokensHaveNoNul(ms[0].value.inner);
      }
    } else {
      LookupFits(ms[1..], role);
    }
  }

  lemma {:induction false} SearchFits(t: string, key: string, limit: nat)
    requires SearchMembers(t, key, limit).Some?
    ensures |SearchMembers(t, key, limit).value| < limit && Encodable(SearchMembers(t, key, limit).value)
    decreases |t|
  {
    hide Decode, SkipWs, SkipValue, TakeKey;
    var k := TakeKey(t);
    if k.value == key {
      DecodeEncodable(k.rest);
    } else {
      SearchFits(SkipComma(SkipWs(SkipValue(k.rest).value)), key, limit);
    }
  }

  lemma DecodeEncodable(t: string)
    requires Decode(t).Got?
    ensures Encodable(Decode(t).value)
  {
    DecodedIsEncodable(t[1..]);
  }

  lemma ExtractFits(params: string, key: string, limit: nat)
    ensures Extract(params, key, limit).Some? ==>
              |Extract(params, key, limit).value| < limit && Encodable(Extract(params, key, limit).value)
  {
    var t := SkipWs(params);
    if Hd(t) == '{' && Extract(params, key, limit).Some? {
      SearchFits(SkipWs(t[1..]), key, limit);
    }
  }

  // ---- the method -------------------------------------------------------------------

  /** The request structure with its four fixed buffers. */
  class RpcRequest {
    const id: array<char>
    const name: array<char>
    const session: array<char>
    const params: array<char>
    var hash: nat

    ghost predicate Valid() {
      && id.Length == MAX_ID && name.Length == MAX_METHOD
      && session.Length == MAX_SESSION && params.Length == MAX_PARAMS
      && id != name && id != session && id != params
      && name != session && name != params && session != params
    }

    ghost predicate Stores(q: Request)
      reads this, id, name, session, params
    {
      && Holds(id, q.id) && Holds(name, q.name) && Holds(session, q.session)
      && Holds(params, q.params) && hash == q.hash
    }

    constructor ()
      ensures Valid() && fresh(id) && fresh(name) && fresh(session) && fresh(params)
    {
      id := new char[MAX_ID];
      name := new char[MAX_METHOD];
      session := new char[MAX_SESSION];
      params := new char[MAX_PARAMS];
      hash := 0;
    }
  }

  /** The buffers hold the fields collected so far. */
  ghost predicate Collected(request: RpcRequest, f: Fields)
    reads request.id, request.name, request.params
  {
    && (f.id.Some? ==> Holds(request.id, f.id.value))
    && (f.name.Some? ==> Holds(request.name, f.name.value))
    && (f.params.Some? ==> Holds(request.params, f.params.value))
  }

  /** The chain of key comparisons, after the key is known: reads one value. */
  method TakeInto(s: string, p: nat, role: Role, request: RpcRequest, ghost f: Fields)
    returns (ok: bool, q: nat)
    requires p <= |s| && request.Valid() && Collected(request, f) && !Seen(f, role)
    modifies request.id, request.name, request.params
    ensures ok == TakeText(role, s[p..]).Got?
    ensures p <= q <= |s| && (ok ==> s[q..] == TakeText(role, s[p..]).rest)
    ensures ok ==> Collected(request, Store(f, role, TakeText(role, s[p..]).value))
  {
    hide Decode, ObjectSlice, SkipValue;
    match role {
      case Version =>
        var version := new char[16];
        ok, q := ParseString(s, p, version);
        if ok {
          DecodedHasNoNul(s[p..]);
          ReadBack(version, Decode(s[p..]).value);
          ok := UpToNul(version[..]) == "2.0";
        }
      case Id =>
        ok, q := ParseString(s, p, request.id);
      case Method =>
        ok, q := ParseString(s, p, request.name);
      case Params =>
        ok, q := CopyObject(s, p, request.params);
      case Extra =>
        ok, q := SkipValueAt(s, p);
    }
  }

  lemma SeenAfter(f: Fields, role: Role, text: string, r: Role)
    ensures Seen(Store(f, role, text), r) <==> Seen(f, r) || (r == role && r != Extra)
  {}

  lemma TakeMemberBy(t: string, f: Fields, key: string, u: string)
    requires TakeKey(t) == Got(key, u)
    ensures TakeMember(t, f) ==
            var role := RoleOf(key);
            var v := TakeText(role, u);
            if Seen(f, role) || v.Fail? then Fail else Got(Store(f, role, v.value), SkipWs(v.rest))
  {}

  /** One member: key, colon, value.  The caller's set records the reserved keys seen. */
  method MemberInto(s: string, p: nat, seen: set<Role>, request: RpcRequest, ghost f: Fields)
    returns (ok: bool, q: nat, now: set<Role>, ghost g: Fields)
    requires p <= |s| && request.Valid() && Collected(request, f)
    requires forall r :: r in seen <==> Seen(f, r)
    modifies request.id, request.name, request.params
    ensures p <= q <= |s|
    ensures ok ==> p < q && TakeMember(s[p..], f) == Got(g, s[q..]) && Collected(request, g)
    ensures ok ==> forall r :: r in now <==> Seen(g, r)
    ensures !ok ==> TakeMember(s[p..], f).Fail?
  {
    hide TakeText, TakeKey, Store, Collected, SkipWs, RoleOf, UpToNul;
    now, g := seen, f;
    var key := new char[MAX_KEY];
    ok, q := ReadKey(s, p, key);
    if !ok {
      return;
    }
    var role := RoleOf(UpToNul(key[..]));
    TakeMemberBy(s[p..], f, UpToNul(key[..]), s[q..]);
    if role in seen {
      return false, q, now, g;
    }
    ghost var text := TakeText(role, s[q..]);
    ok, q := TakeInto(s, q, role, request, f);
    if !ok {
      return;
    }
    g := Store(f, role, text.value);
    now := seen + if role == Extra then {} else {role};
    forall r ensures r in now <==> Seen(g, r) {
      SeenAfter(f, role, text.value, r);
    }
    q := SkipSpaces(s, q);
  }

  /** The member loop: fills the buffers, reports which reserved keys were seen. */
  method MembersInto(s: string, p: nat, request: RpcRequest)
    returns (ok: bool, q: nat, seen: set<Role>)
    requires p <= |s| && request.Valid()
    modifies request.id, request.name, request.params
    ensures p <= q <= |s|
    ensures ok == TakeMembers(s[p..], NOTHING).Got?
    ensures ok ==> s[q..] == TakeMembers(s[p..], NOTHING).rest
    ensures ok ==> Collected(request, TakeMembers(s[p..], NOTHING).value)
    ensures ok ==> forall r :: r in seen <==> Seen(TakeMembers(s[p..], NOTHING).value, r)
  {
    hide TakeMember, SkipWs, Collected, Seen;
    NothingSeen(request);
    q, seen := p, {};
    ghost var f := NOTHING;
    while At(s, q) != '\0'
      invariant p <= q <= |s|
      invariant Collected(request, f) && forall r :: r in seen <==> Seen(f, r)
      invariant TakeMembers(s[p..], NOTHING) == TakeMembers(s[q..], f)
      decreases |s| - q
    {
      var u: nat;
      ghost var g: Fields;
      ok, u, seen, g := MemberInto(s, q, seen, request, f);
      if !ok {
        return;
      }
      TakeMembersStep(s[q..], f, g, s[u..]);
      var c := At(s, u);
      if c != ',' && c != '}' {
        return false, u, seen;
      }
      assert s[u..][1..] == s[u + 1..];
      if c == '}' {
        return true, u + 1, seen;
      }
      q := SkipSpaces(s, u + 1);
      f := g;
    }
    ok := true;
  }

  lemma NothingSeen(request: RpcRequest)
    ensures Collected(request, NOTHING) && forall r :: !Seen(NOTHING, r)
  {}

  /** `anything_rpc_parse` */
  method ParseInto(body: string, request: RpcRequest) returns (ok: bool)
    requires request.Valid()
    modifies request, request.id, request.name, request.session, request.params
    ensures ok == Parse(body).Some?
    ensures ok ==> request.Stores(Parse(body).value)
  {
    hide TakeMembers, SkipWs, Extract, HashOf, UpToNul;
    if |body| == 0 {
      return false;
    }
    var p := SkipSpaces(body, 0);
    assert body[0..] == body;
    if At(body, p) != '{' {
      return false;
    }
    assert body[p..][1..] == body[p + 1..];
    p := SkipSpaces(body, p + 1);
    if At(body, p) == '}' {
      return false;
    }
    ghost var r := TakeMembers(body[p..], NOTHING);
    var seen;
    ok, p, seen := MembersInto(body, p, request);
    if !ok {
      return;
    }
    p := SkipSpaces(body, p);
    if At(body, p) !in {'\0', '\n'} {
      return false;
    }
    if Version !in seen || Id !in seen || Method !in seen {
      return false;
    }
    if Params !in seen {
      var cut := Snprintf(request.params, 0, "{}", "");
      assert "" + "{}" == "{}";
    }
    ParsedFits(body);
    EncodableHasNoNul(Parse(body).value.name);
    ok := Finish(request, r.value);
  }

  /** The last steps of the parse: the session, then the hash. */
  method Finish(request: RpcRequest, ghost f: Fields) returns (ok: bool)
    requires request.Valid() && Complete(f).Some?
    requires Holds(request.id, f.id.value) && Holds(request.name, f.name.value)
    requires Holds(request.params, Complete(f).value.params)
    requires '\0' !in f.name.value && '\0' !in Complete(f).value.params
    modifies request, request.session
    ensures ok && request.Stores(Complete(f).value)
  {
    hide Extract, HashOf, UpToNul;
    ghost var q := Complete(f).value;
    ReadBack(request.name, q.name);
    ReadBack(request.params, q.params);
    var found := ExtractParam(UpToNul(request.params[..]), "session_id", request.session);
    if !found {
      var whole := Snprintf(request.session, 0, "default", "");
      assert "" + "default" == "default";
    }
    SessionHasNoNul(q.params);
    ReadBack(request.session, q.session);
    request.hash := HashRequest(
      UpToNul(request.name[..]), UpToNul(request.params[..]), UpToNul(request.session[..]));
    return true;
  }

  lemma SessionHasNoNul(params: string)
    ensures Extract(params, "session_id", MAX_SESSION).Some? ==>
              '\0' !in Extract(params, "session_id", MAX_SESSION).value
  {
    ExtractFits(params, "session_id", MAX_SESSION);
    if Extract(params, "session_id", MAX_SESSION).Some? {
      EncodableHasNoNul(Extract(params, "session_id", MAX_SESSION).value);
    }
  }

  /** Receives one message as a value: the request structure is local to the handlers. */
  method Receive(body: string) returns (q: Option<Request>)
    ensures q == Parse(body)
  {
    var request := new RpcRequest();
    var ok := ParseInto(body, request);
    if !ok {
      return None;
    }
    ghost var r := Parse(body).value;
    ParsedFits(body);
    EncodableHasNoNul(r.id);
    EncodableHasNoNul(r.name);
    EncodableHasNoNul(r.session);
    ReadBack(request.id, r.id);
    ReadBack(request.name, r.name);
    ReadBack(request.session, r.session);
    ReadBack(request.params, r.params);
    return Some(Request(UpToNul(request.id[..]), UpToNul(request.name[..]),
                        UpToNul(request.session[..]), UpToNul(request.params[..]), request.hash));
  }
}
