/** The depth-1 member scanner of `anything_rpc_parse`, and why it reads exactly the
    members of the request grammar. */
module RpcMembers {
  import opened Bytes
  import opened JsonString
  import opened JsonScan
  import opened RpcGrammar

  /** What the scanner has collected: the seen flags and the request fields. */
  datatype Fields = Fields(version: bool, id: Option<string>, name: Option<string>, params: Option<string>)

  const NOTHING := Fields(false, None, None, None)

  predicate Seen(f: Fields, role: Role) {
    match role
    case Version => f.version
    case Id => f.id.Some?
    case Method => f.name.Some?
    case Params => f.params.Some?
    case Extra => false
  }

  function Bounded(r: Scan<string>, limit: nat): (b: Scan<string>)
    ensures b.Got? ==> b == r
  {
    if r.Got? && |r.value| < limit then r else Fail
  }

  /** The text that a reserved member contributes, and what follows it. */
  function TakeText(role: Role, t: string): (r: Scan<string>)
    ensures r.Got? ==> |r.rest| <= |t|
  {
    match role
    case Version =>
      var r := Bounded(Decode(t), 16);
      if r.Got? && r.value == "2.0" then r else Fail
    case Id => Bounded(Decode(t), MAX_ID)
    case Method => Bounded(Decode(t), MAX_METHOD)
    case Params => Bounded(ObjectSlice(t), MAX_PARAMS)
    case Extra =>
      var r := SkipValue(t);
      if r.Some? then Got("", r.value) else Fail
  }

  function Store(f: Fields, role: Role, text: string): Fields {
    match role
    case Version => f.(version := true)
    case Id => f.(id := Some(text))
    case Method => f.(name := Some(text))
    case Params => f.(params := Some(text))
    case Extra => f
  }

  /** A key, a colon, and the cursor on what comes next. */
  function TakeKey(t: string): (r: Scan<string>)
    ensures r.Got? ==> |r.rest| < |t|
  {
    var k := Bounded(Decode(t), MAX_KEY);
    if k.Fail? then Fail
    else
      var u := SkipWs(k.rest);
      if Hd(u) == ':' then Got(k.value, SkipWs(u[1..])) else Fail
  }

  /** One pass of the loop, up to the separator. */
  function TakeMember(t: string, f: Fields): (r: Scan<Fields>)
    ensures r.Got? ==> |r.rest| < |t|
  {
    var k := TakeKey(t);
    if k.Fail? then Fail
    else
      var role := RoleOf(k.value);
      if Seen(f, role) then Fail
      else
        var v := TakeText(role, k.rest);
        if v.Fail? then Fail else Got(Store(f, role, v.value), SkipWs(v.rest))
  }

  /** The member loop: it leaves at a closing brace, or at the NUL after a comma. */
  function TakeMembers(t: string, f: Fields): (r: Scan<Fields>)
    decreases |t|
  {
    if Hd(t) == '\0' then Got(f, t)
    else
      var m := TakeMember(t, f);
      if m.Fail? then Fail
      else if Hd(m.rest) == ',' then TakeMembers(SkipWs(m.rest[1..]), m.value)
      else if Hd(m.rest) == '}' then Got(m.value, m.rest[1..])
      else Fail
  }

  // ---- one member -------------------------------------------------------------------

  /** The text of a value as the fields keep it. */
  function FieldText(role: Role, v: Value): string {
    match role
    case Extra => ""
    case Params => ValueText(v)
    case _ => if v.StrV? then v.text else ""
  }

  lemma TakeKeyOfText(m: Member, rest: string)
    requires WellFormedMember(m) && |m.key| < MAX_KEY && !IsSpace(Hd(rest))
    ensures TakeKey(Quote(m.key) + (m.gap + ":") + m.pad + rest) == Got(m.key, rest)
  {
    var after := ":" + (m.pad + rest);
    assert Quote(m.key) + (m.gap + ":") + m.pad + rest == Quote(m.key) + (m.gap + after);
    DecodeQuoted(m.key, m.gap + after);
    SkipWsBlank(m.gap, after);
    assert after[1..] == m.pad + rest;
    SkipWsBlank(m.pad, rest);
  }

  lemma TakeKeyReads(t: string) returns (m: Member)
    requires TakeKey(t).Got?
    ensures m.key == TakeKey(t).value && |m.key| < MAX_KEY && Encodable(m.key)
    ensures IsBlank(m.gap) && IsBlank(m.pad) && !IsSpace(Hd(TakeKey(t).rest))
    ensures t == Quote(m.key) + (m.gap + ":") + m.pad + TakeKey(t).rest
  {
    var k := Decode(t);
    EscapeAfterDecode(t);
    var gap, u := SplitWs(k.rest);
    var pad, rest := SplitWs(u[1..]);
    JoinKey(t, Quote(k.value), k.rest, gap, u, pad, rest);
    m := Member(k.value, gap, pad, Scalar(""), "", "");
  }

  lemma JoinKey(t: string, q: string, r: string, gap: string, u: string, pad: string, rest: string)
    requires t == q + r && r == gap + u && Hd(u) == ':' && u[1..] == pad + rest
    ensures t == q + (gap + ":") + pad + rest
  {
    assert u == ":" + u[1..];
    assert r == (gap + ":") + pad + rest;
  }

  lemma TakeTextOfValue(role: Role, v: Value, trail: string, rest: string)
    requires WellFormedValue(v) && RoleAllows(role, v) && IsBlank(trail) && Hd(rest) in {',', '}'}
    ensures TakeText(role, ValueText(v) + trail + rest).Got?
    ensures TakeText(role, ValueText(v) + trail + rest).value == FieldText(role, v)
    ensures SkipWs(TakeText(role, ValueText(v) + trail + rest).rest) == rest
  {
    var t := ValueText(v) + trail + rest;
    assert t == ValueText(v) + (trail + rest);
    SkipWsBlank(trail, rest);
    match role
    case Extra => SkipValueText(v, trail, rest);
    case Params =>
      assert IsObjectText(ValueText(v));
      ObjectIsSlice(ValueText(v), trail + rest);
    case _ => DecodeQuoted(v.text, trail + rest);
  }

  lemma TakenTextIsValue(role: Role, t: string) returns (v: Value)
    requires !IsSpace(Hd(t)) && TakeText(role, t).Got?
    ensures WellFormedValue(v) && RoleAllows(role, v)
    ensures t == ValueText(v) + TakeText(role, t).rest
    ensures TakeText(role, t).value == FieldText(role, v)
  {
    match role
    case Extra => v := SkippedIsValue(t);
    case Params =>
      SliceIsObject(t);
      var ks :| ValidTokens(ks) && Closes(ks, 1, Brace) && ObjectSlice(t).value == "{" + TokensText(ks);
      v := ObjV(ks);
    case _ =>
      EscapeAfterDecode(t);
      v := StrV(Decode(t).value);
  }

  /** The fields after a member. */
  function Apply(m: Member, f: Fields): Fields {
    Store(f, RoleOf(m.key), FieldText(RoleOf(m.key), m.value))
  }

  lemma TakeMemberOfText(m: Member, rest: string, f: Fields)
    requires RequestMember(m) && !Seen(f, RoleOf(m.key)) && Hd(rest) in {',', '}'}
    ensures TakeMember(MemberText(m) + rest, f) == Got(Apply(m, f), rest)
  {
    var v := ValueText(m.value) + m.trail + rest;
    assert MemberText(m) + rest == Quote(m.key) + (m.gap + ":") + m.pad + v;
    assert !IsSpace(Hd(v));
    TakeKeyOfText(m, v);
    TakeTextOfValue(RoleOf(m.key), m.value, m.trail, rest);
  }

  lemma TakenMemberIsText(t: string, f: Fields) returns (m: Member)
    requires TakeMember(t, f).Got?
    ensures RequestMember(m) && m.next == "" && !Seen(f, RoleOf(m.key))
    ensures t == MemberText(m) + TakeMember(t, f).rest
    ensures TakeMember(t, f).value == Apply(m, f)
  {
    hide SkipWs, TakeKey, TakeText, WellFormedValue, RoleAllows, Store, Seen, FieldText, RoleOf;
    m := TakeKeyReads(t);
    var u := TakeKey(t).rest;
    var v := TakenTextIsValue(RoleOf(m.key), u);
    var trail, rest := SplitWs(TakeText(RoleOf(m.key), u).rest);
    m := m.(value := v, trail := trail, next := "");
    assert v == Scalar("") ==> Hd(trail + rest) == Hd(u);
    assert u == ValueText(v) + trail + rest;
  }

  // ---- all members ------------------------------------------------------------------

  function ApplyAll(ms: seq<Member>, f: Fields): Fields {
    if ms == [] then f else ApplyAll(ms[1..], Apply(ms[0], f))
  }

  /** No member repeats a reserved key that was seen before it. */
  predicate Fresh(ms: seq<Member>, f: Fields) {
    ms == [] || (!Seen(f, RoleOf(ms[0].key)) && Fresh(ms[1..], Apply(ms[0], f)))
  }

  lemma TakeMembersStep(t: string, f: Fields, g: Fields, u: string)
    requires Hd(t) != '\0' && TakeMember(t, f) == Got(g, u)
    ensures Hd(u) == ',' ==> TakeMembers(t, f) == TakeMembers(SkipWs(u[1..]), g)
    ensures Hd(u) == '}' ==> TakeMembers(t, f) == Got(g, u[1..])
    ensures Hd(u) != ',' && Hd(u) != '}' ==> TakeMembers(t, f) == Fail
  {}

  lemma TakeMembersAtEnd(t: string, f: Fields)
    requires Hd(t) == '\0'
    ensures TakeMembers(t, f) == Got(f, t)
  {}

  lemma MemberStarts(m: Member, u: string)
    ensures Hd(MemberText(m) + u) == '"'
  {}

  lemma AfterComma(t: string, f: Fields, g: Fields, u: string, next: string, more: string)
    requires Hd(t) != '\0' && TakeMember(t, f) == Got(g, u)
    requires Hd(u) == ',' && u[1..] == next + more && IsBlank(next) && !IsSpace(Hd(more))
    ensures TakeMembers(t, f) == TakeMembers(more, g)
  {
    hide TakeMember, SkipWs;
    TakeMembersStep(t, f, g, u);
    SkipWsBlank(next, more);
  }

  lemma AfterBrace(t: string, f: Fields, g: Fields, u: string, end: string)
    requires Hd(t) != '\0' && TakeMember(t, f) == Got(g, u)
    requires Hd(u) == '}' && u[1..] == end
    ensures TakeMembers(t, f) == Got(g, end)
  {
    hide TakeMember, SkipWs;
    TakeMembersStep(t, f, g, u);
  }

  /** The text of a list of members, taken apart after its first member. */
  lemma MembersUnfold(ms: seq<Member>, closed: bool, end: string) returns (u: string)
    requires ms != []
    ensures MembersText(ms, closed, end) == MemberText(ms[0]) + u
    ensures if |ms| == 1 && closed then Hd(u) == '}' && u[1..] == end
            else Hd(u) == ',' && u[1..] == ms[0].next + MembersText(ms[1..], closed, end)
  {
    hide MemberText;
    u := Separator(ms, closed) + MembersText(ms[1..], closed, end);
    assert MembersText([], closed, end) == end;
    if |ms| == 1 && closed {
      assert ms[1..] == [] && u == "}" + end;
    } else {
      assert u[1..] == ms[0].next + MembersText(ms[1..], closed, end);
    }
  }

  lemma NoMembersText(closed: bool, end: string)
    ensures MembersText([], closed, end) == end
  {}

  /** Scanning printed members collects them all and stops at the end of the object. */
  lemma {:induction false} TakeMembersOfText(ms: seq<Member>, closed: bool, end: string, f: Fields)
    requires RequestMembers(ms) && Fresh(ms, f)
    requires if closed then ms != [] else Hd(end) == '\0'
    ensures TakeMembers(MembersText(ms, closed, end), f) == Got(ApplyAll(ms, f), end)
  {
    hide TakeMember, TakeMembers, SkipWs, MemberText, MembersText, Apply, Seen, IsSpace, IsBlank, RequestMember;
    if ms == [] {
      NoMembersText(closed, end);
      TakeMembersAtEnd(end, f);
    } else {
      var m, g := ms[0], Apply(ms[0], f);
      var u := MembersUnfold(ms, closed, end);
      NextIsBlank(m);
      MemberStarts(m, u);
      TakeMemberOfText(m, u, f);
      if |ms| == 1 && closed {
        AfterBrace(MemberText(m) + u, f, g, u, end);
        assert ms[1..] == [];
      } else {
        var more := MembersText(ms[1..], closed, end);
        NotSpaceAtMember(ms[1..], closed, end);
        AfterComma(MemberText(m) + u, f, g, u, m.next, more);
        TakeMembersOfText(ms[1..], closed, end, g);
      }
    }
  }

  lemma NextIsBlank(m: Member)
    requires RequestMember(m)
    ensures IsBlank(m.next)
  {}

  lemma NotSpaceAtMember(ms: seq<Member>, closed: bool, end: string)
    requires ms != [] || Hd(end) == '\0'
    ensures !IsSpace(Hd(MembersText(ms, closed, end)))
  {}

  /** Scanning members that are followed by something else goes on with that. */
  lemma {:induction false} TakeMembersThenMore(ms: seq<Member>, more: string, f: Fields)
    requires RequestMembers(ms) && Fresh(ms, f) && !IsSpace(Hd(more))
    ensures TakeMembers(MembersText(ms, false, more), f) == TakeMembers(more, ApplyAll(ms, f))
  {
    hide TakeMember, TakeMembers, SkipWs, MemberText, Apply, Seen, IsSpace, IsBlank, RequestMember;
    if ms != [] {
      NextIsBlank(ms[0]);
      var m, rest := ms[0], MembersText(ms[1..], false, more);
      var u := Separator(ms, false) + rest;
      var t := MemberText(m) + u;
      assert t == MembersText(ms, false, more);
      MemberStarts(m, u);
      TakeMemberOfText(m, u, f);
      if ms[1..] != [] {
        NotSpaceAtMember(ms[1..], false, more);
      }
      assert u[1..] == m.next + rest;
      AfterComma(t, f, Apply(m, f), u, m.next, rest);
      TakeMembersThenMore(ms[1..], more, Apply(m, f));
    }
  }

  lemma TakeMembersFails(t: string, f: Fields)
    requires Hd(t) != '\0' && TakeMember(t, f).Fail?
    ensures TakeMembers(t, f) == Fail
  {}

  /** Whatever the scanner accepts is the text of request members. */
  lemma {:induction false} TakenMembersAreText(t: string, f: Fields) returns (ms: seq<Member>, closed: bool)
    requires TakeMembers(t, f).Got?
    ensures RequestMembers(ms) && Fresh(ms, f)
    ensures if closed then ms != [] else Hd(TakeMembers(t, f).rest) == '\0'
    ensures t == MembersText(ms, closed, TakeMembers(t, f).rest)
    ensures TakeMembers(t, f).value == ApplyAll(ms, f)
    decreases |t|
  {
    hide TakeMember, TakeMembers, SkipWs, RequestMember, Apply, Seen, MemberText;
    var end := TakeMembers(t, f).rest;
    if Hd(t) == '\0' {
      TakeMembersAtEnd(t, f);
      return [], false;
    }
    TakeMembersNeedsMember(t, f);
    var u, g := TakeMember(t, f).rest, TakeMember(t, f).value;
    var m := TakenMemberIsText(t, f);
    TakeMembersStep(t, f, g, u);
    if Hd(u) == '}' {
      ms, closed := [m], true;
      assert ms[1..] == [] && u == "}" + end;
      assert t == MemberText(m) + "}" + end;
    } else {
      var next, w := SplitWs(u[1..]);
      var more;
      more, closed := TakenMembersAreText(w, g);
      SetNext(m, next);
      m := m.(next := next);
      ms := [m] + more;
      assert ms[1..] == more;
      JoinMember(m, more, closed, end, t, u, w);
    }
  }

  lemma TakeMembersNeedsMember(t: string, f: Fields)
    requires TakeMembers(t, f).Got? && Hd(t) != '\0'
    ensures TakeMember(t, f).Got?
  {}

  lemma SetNext(m: Member, next: string)
    requires RequestMember(m) && IsBlank(next)
    ensures RequestMember(m.(next := next)) && MemberText(m.(next := next)) == MemberText(m)
    ensures forall f :: Apply(m.(next := next), f) == Apply(m, f)
  {}

  lemma JoinMember(m: Member, more: seq<Member>, closed: bool, end: string, t: string, u: string, w: string)
    requires t == MemberText(m) + u && Hd(u) == ',' && u[1..] == m.next + w
    requires w == MembersText(more, closed, end) && (closed ==> more != [])
    ensures t == MembersText([m] + more, closed, end)
  {
    var ms := [m] + more;
    assert ms[1..] == more;
    assert u == "," + u[1..];
    assert u == ("," + m.next) + w;
    assert t == MemberText(m) + ("," + m.next) + w;
  }

  // ---- the collected fields mean the members ------------------------------------------

  function FieldsOf(ms: seq<Member>): Fields {
    Fields(Lookup(ms, Version).Some?, FieldOf(ms, Id), FieldOf(ms, Method), FieldOf(ms, Params))
  }

  function FieldOf(ms: seq<Member>, role: Role): Option<string> {
    var v := Lookup(ms, role);
    if v.Some? then Some(FieldText(role, v.value)) else None
  }

  function Field(f: Fields, role: Role): Option<string> {
    match role
    case Version => if f.version then Some("2.0") else None
    case Id => f.id
    case Method => f.name
    case Params => f.params
    case Extra => None
  }

  /** No repetition, said by counting. */
  lemma {:induction false} FreshIsOnce(ms: seq<Member>, f: Fields)
    ensures Fresh(ms, f) <==> forall role | role != Extra :: Count(ms, role) + (if Seen(f, role) then 1 else 0) <= 1
  {
    if ms != [] {
      var r := RoleOf(ms[0].key);
      var g := Apply(ms[0], f);
      assert forall role :: Seen(g, role) <==> Seen(f, role) || (role == r && r != Extra);
      FreshIsOnce(ms[1..], g);
      if r != Extra && Seen(f, r) {
        assert Count(ms, r) >= 1;
      }
    }
  }

  lemma {:induction false} ApplyAllIsLookup(ms: seq<Member>, f: Fields)
    requires RequestMembers(ms) && Fresh(ms, f)
    ensures forall role | role != Extra ::
              Field(ApplyAll(ms, f), role) == if Seen(f, role) then Field(f, role) else FieldOf(ms, role)
  {
    if ms != [] {
      ApplyAllIsLookup(ms[1..], Apply(ms[0], f));
    }
  }
}
