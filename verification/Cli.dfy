/** The request printer of the command line tool, and why the daemon reads back what the
    user typed. */
module Cli {
  import opened Bytes
  import opened JsonString
  import opened JsonScan
  import opened RpcGrammar
  import opened RpcMembers
  import opened RpcParams
  import opened RpcParse
  import opened RpcHash

  const MAX_REQUEST: nat := 2048

  /** The request line before the buffer cuts it. */
  function Line(name: string, params: string): string {
    "{" + (LineStart(name) + ("\"params\":" + params + "}\n"))
  }

  function LineStart(name: string): string {
    "\"jsonrpc\":\"2.0\",\"id\":\"1\",\"method\":\"" + name + "\","
  }

  function OneParam(key: string, arg: string): string {
    Concat(["{\"", key, "\":\"", arg, "\"}"])
  }

  /** The method name and the params key of a command; "pending" has no params. */
  function MethodOf(command: string): Option<(string, string)> {
    if command == "sys-info" then Some(("sys.info", "session_id"))
    else if command == "pending" then Some(("approval.list", ""))
    else if command == "approve" then Some(("approval.approve", "request_id"))
    else if command == "reject" then Some(("approval.reject", "request_id"))
    else if command == "execute" then Some(("approval.execute", "request_id"))
    else None
  }

  function CommandText(command: string, arg: string): string {
    var m := MethodOf(command);
    if m.None? then ""
    else Trunc(Line(m.value.0, ParamsOf(m.value.1, arg)), MAX_REQUEST)
  }

  /** The params of a command: one member, or none if the command takes no argument. */
  function ParamsOf(key: string, arg: string): string {
    if key == "" then "{}" else OneParam(key, arg)
  }

  /** `make_request` */
  method MakeRequest(command: string, arg: string, out: array<char>)
    requires out.Length == MAX_REQUEST
    modifies out
    ensures Holds(out, CommandText(command, arg))
  {
    var m := MethodOf(command);
    if m.None? {
      out[0] := '\0';
      return;
    }
    var text := Line(m.value.0, ParamsOf(m.value.1, arg));
    var whole := Snprintf(out, 0, text, "");
    assert "" + text == text;
  }

  // ---- the printed line is a document ---------------------------------------------------

  /** The members before the params. */
  function Head(name: string): seq<Member> {
    [Member("jsonrpc", "", "", StrV("2.0"), "", ""),
     Member("id", "", "", StrV("1"), "", ""),
     Member("method", "", "", StrV(name), "", "")]
  }

  lemma QuotePlain(t: string)
    requires Plain(t)
    ensures Quote(t) == "\"" + t + "\"" && Encodable(t)
  {
    EscapePlain(t);
  }

  lemma KeysArePlain()
    ensures Plain("jsonrpc") && Plain("id") && Plain("method") && Plain("params") && Plain("2.0") && Plain("1")
  {}

  lemma BareMember(key: string, v: Value, more: string)
    requires Plain(key)
    ensures MemberText(Member(key, "", "", v, "", "")) == "\"" + key + "\":" + ValueText(v)
  {
    hide Quote, ValueText;
    QuotePlain(key);
  }

  lemma MoreMember(m: Member, ms: seq<Member>, more: string)
    requires m.next == ""
    ensures MembersText([m] + ms, false, more) == MemberText(m) + "," + MembersText(ms, false, more)
  {
    hide MemberText;
    assert ([m] + ms)[1..] == ms;
    assert "," + "" == ",";
  }

  lemma HeadText(name: string, more: string)
    requires Plain(name)
    ensures MembersText(Head(name), false, more) == LineStart(name) + more
  {
    hide Quote, MemberText, Plain, MembersText;
    KeysArePlain();
    QuotePlain("2.0");
    QuotePlain("1");
    QuotePlain(name);
    BareMember("jsonrpc", StrV("2.0"), more);
    BareMember("id", StrV("1"), more);
    BareMember("method", StrV(name), more);
    var ms := Head(name);
    MoreMember(ms[2], [], more);
    MoreMember(ms[1], [ms[2]], more);
    MoreMember(ms[0], [ms[1], ms[2]], more);
    NoMembers(more);
    assert [ms[2]] + [] == [ms[2]] && [ms[1]] + [ms[2]] == [ms[1], ms[2]] && [ms[0]] + [ms[1], ms[2]] == ms;
    JoinHead(name, more, MemberText(ms[0]), MemberText(ms[1]), MemberText(ms[2]));
  }

  lemma NoMembers(more: string)
    ensures MembersText([], false, more) == more
  {}

  lemma JoinHead(name: string, more: string, a: string, b: string, c: string)
    requires a == "\"" + "jsonrpc" + "\":" + ("\"" + "2.0" + "\"")
    requires b == "\"" + "id" + "\":" + ("\"" + "1" + "\"")
    requires c == "\"" + "method" + "\":" + ("\"" + name + "\"")
    ensures a + "," + (b + "," + (c + "," + more)) == LineStart(name) + more
  {
    JoinIds(a, b);
    assert c == "\"method\":\"" + name + "\"";
    assert a + "," + b + "," + c + "," == LineStart(name);
  }

  lemma JoinIds(a: string, b: string)
    requires a == "\"" + "jsonrpc" + "\":" + ("\"" + "2.0" + "\"")
    requires b == "\"" + "id" + "\":" + ("\"" + "1" + "\"")
    ensures a + "," + b + "," == "\"jsonrpc\":\"2.0\",\"id\":\"1\","
  {
    assert a == "\"jsonrpc\":\"2.0\"";
    assert b == "\"id\":\"1\"";
  }

  // ---- the daemon's view of the line ------------------------------------------------------

  const HEAD_FIELDS := NOTHING.(version := true, id := Some("1"))

  lemma StringMember(key: string, text: string)
    requires Plain(key) && Plain(text) && |key| < MAX_KEY && RoleAllows(RoleOf(key), StrV(text))
    ensures RequestMember(Member(key, "", "", StrV(text), "", ""))
  {
    QuotePlain(key);
    QuotePlain(text);
  }

  lemma HeadShapes(name: string)
    requires Plain(name) && |name| < MAX_METHOD
    ensures RequestMembers(Head(name))
  {
    hide Plain, RequestMember, RoleOf;
    KeysArePlain();
    Roles();
    StringMember("jsonrpc", "2.0");
    StringMember("id", "1");
    StringMember("method", name);
  }

  lemma Roles()
    ensures RoleOf("jsonrpc") == Version && RoleOf("id") == Id && RoleOf("method") == Method
    ensures RoleOf("params") == Params
  {}

  lemma HeadMembers(name: string)
    ensures Fresh(Head(name), NOTHING)
    ensures ApplyAll(Head(name), NOTHING) == HEAD_FIELDS.(name := Some(name))
  {
    hide RoleOf;
    Roles();
    var ms := Head(name);
    var f1 := NOTHING.(version := true);
    var f2 := f1.(id := Some("1"));
    var f3 := f2.(name := Some(name));
    assert Apply(ms[0], NOTHING) == f1 && Apply(ms[1], f1) == f2 && Apply(ms[2], f2) == f3;
    FreshStep(ms[2], [], f2);
    FreshStep(ms[1], [ms[2]], f1);
    FreshStep(ms[0], [ms[1], ms[2]], NOTHING);
    assert [ms[2]] + [] == [ms[2]] && [ms[1]] + [ms[2]] == [ms[1], ms[2]] && [ms[0]] + [ms[1], ms[2]] == ms;
    assert Fresh([], f3) && ApplyAll([], f3) == f3;
  }

  lemma FreshStep(m: Member, ms: seq<Member>, f: Fields)
    ensures Fresh([m] + ms, f) <==> !Seen(f, RoleOf(m.key)) && Fresh(ms, Apply(m, f))
    ensures ApplyAll([m] + ms, f) == ApplyAll(ms, Apply(m, f))
  {
    assert ([m] + ms)[1..] == ms;
  }

  /** The daemon's member loop reaches the params of the line, whatever they are. */
  lemma ReachesParams(name: string, more: string)
    requires Plain(name) && |name| < MAX_METHOD && Hd(more) == '"'
    ensures TakeMembers(LineStart(name) + more, NOTHING) == TakeMembers(more, HEAD_FIELDS.(name := Some(name)))
  {
    hide Plain, Head, LineStart, TakeMembers;
    HeadShapes(name);
    HeadMembers(name);
    HeadText(name, more);
    TakeMembersThenMore(Head(name), more, NOTHING);
  }

  lemma KeyThenObject(rest: string)
    requires Hd(rest) == '{'
    ensures TakeKey("\"params\":" + rest) == Got("params", rest)
  {
    hide TakeKey, Plain, Quote;
    KeysArePlain();
    QuotePlain("params");
    var m := Member("params", "", "", Scalar(""), "", "");
    assert WellFormedMember(m);
    TakeKeyOfText(m, rest);
    assert Quote("params") + ("" + ":") + "" + rest == "\"params\":" + rest;
  }

  /** A line whose params fit is read whole. */
  lemma LineIsRead(name: string, params: string)
    requires Plain(name) && |name| < MAX_METHOD && IsObjectText(params) && |params| < MAX_PARAMS
    ensures Parse(Line(name, params)) == Complete(HEAD_FIELDS.(name := Some(name), params := Some(params)))
  {
    hide TakeMembers, TakeMember, TakeKey, LineStart, ObjectSlice, SkipWs, Plain, Complete;
    var f := HEAD_FIELDS.(name := Some(name));
    var more := "\"params\":" + params + "}\n";
    ReachesParams(name, more);
    assert more == "\"params\":" + (params + "}\n");
    KeyThenObject(params + "}\n");
    ObjectIsSlice(params, "}\n");
    TakeMemberBy(more, f, "params", params + "}\n");
    OpenLine(name, more);
    LineEnds(more, f, f.(params := Some(params)));
  }

  lemma LineEnds(t: string, f: Fields, g: Fields)
    requires Hd(t) != '\0' && TakeMember(t, f) == Got(g, SkipWs("}\n"))
    ensures TakeMembers(t, f) == Got(g, "\n") && SkipWs("\n") == ""
  {
    hide TakeMembers, TakeMember;
    assert SkipWs("}\n") == "}\n";
    assert "\n"[1..] == "" && "}\n"[1..] == "\n";
    AfterBrace(t, f, g, "}\n", "\n");
  }

  lemma OpenLine(name: string, more: string)
    ensures OpenObject("{" + (LineStart(name) + more)) == Some(LineStart(name) + more)
  {
    var u := LineStart(name) + more;
    assert ("{" + u)[1..] == u && Hd(u) == '"';
    assert SkipWs("{" + u) == "{" + u && SkipWs(u) == u;
  }

  // ---- what the daemon makes of a command -----------------------------------------------

  function ParamTokens(key: string, arg: string): seq<Token> {
    [Str(key), Chr(':'), Str(arg), Chr('}')]
  }

  lemma FourTokens(a: Token, b: Token, c: Token, d: Token)
    ensures TokensText([a, b, c, d]) == TokenText(a) + (TokenText(b) + (TokenText(c) + TokenText(d)))
    ensures d == Chr('}') && Delta(a, Brace) == Delta(b, Brace) == Delta(c, Brace) == 0 ==>
              Closes([a, b, c, d], 1, Brace)
  {
    hide TokenText, Delta;
    var p := [a, b, c, d];
    assert p[1..] == [b, c, d] && [b, c, d][1..] == [c, d] && [c, d][1..] == [d] && [d][1..] == [];
    assert TokensText([d]) == TokenText(d) + "";
    assert TokensText([c, d]) == TokenText(c) + TokenText(d);
    assert Delta(Chr('}'), Brace) == -1 by {
      DeltaClose();
    }
    assert Closes([], 0, Brace);
    if d == Chr('}') && Delta(a, Brace) == Delta(b, Brace) == Delta(c, Brace) == 0 {
      assert Closes([d], 1, Brace);
      assert Closes([c, d], 1, Brace);
    }
  }

  lemma DeltaClose()
    ensures Delta(Chr('}'), Brace) == -1
  {}

  /** The printed params are one object, and the typed argument is its only member. */
  lemma ParamIsObject(key: string, arg: string)
    requires Plain(key) && Plain(arg)
    ensures IsObjectText(OneParam(key, arg)) && Hd(OneParam(key, arg)) == '{'
    ensures |OneParam(key, arg)| == |key| + |arg| + 7
  {
    hide Plain, Closes, TokensText, Concat;
    var ks := ParamTokens(key, arg);
    FourTokens(ks[0], ks[1], ks[2], ks[3]);
    QuotePlain(key);
    QuotePlain(arg);
    ConcatFive("{\"", key, "\":\"", arg, "\"}");
    JoinParam(key, arg, OneParam(key, arg));
    assert ValidTokens(ks);
  }

  lemma JoinParam(key: string, arg: string, t: string)
    requires t == "{\"" + key + "\":\"" + arg + "\"}"
    ensures t == "{" + (("\"" + key + "\"") + (":" + (("\"" + arg + "\"") + "}")))
  {}

  lemma ParamIsFound(key: string, arg: string, asked: string, limit: nat)
    requires Plain(key) && Plain(arg) && |key| < MAX_KEY
    ensures Extract(OneParam(key, arg), asked, limit) == if asked == key && |arg| < limit then Some(arg) else None
  {
    hide Plain, Concat, Extract, MemberText;
    QuotePlain(key);
    QuotePlain(arg);
    var m := Member(key, "", "", StrV(arg), "", "");
    ConcatFive("{\"", key, "\":\"", arg, "\"}");
    BareMember(key, StrV(arg), "");
    JoinObject(key, arg, OneParam(key, arg), MemberText(m));
    LoneObject(m);
    ExtractFindsFirst("", "", [m], "", asked, limit);
    FirstOfOne(m, asked, limit);
  }

  lemma FirstOfOne(m: Member, key: string, limit: nat)
    requires |m.key| < MAX_KEY && m.value.StrV?
    ensures FirstMatch([m], key, limit)
         == if m.key == key && |m.value.text| < limit then Some(m.value.text) else None
  {
    assert [m][1..] == [];
  }

  lemma LoneObject(m: Member)
    ensures ObjectText("", "", [m], "") == "{" + (MemberText(m) + "}")
  {
    hide MemberText;
    assert [m][1..] == [];
    assert MembersText([m], true, "") == MemberText(m) + "}" + "";
  }

  lemma JoinObject(key: string, arg: string, t: string, m: string)
    requires t == "{\"" + key + "\":\"" + arg + "\"}"
    requires m == "\"" + key + "\":" + ("\"" + arg + "\"")
    ensures t == "{" + (m + "}")
  {}

  lemma MethodsArePlain(command: string)
    ensures var m := MethodOf(command);
      m.Some? ==> Plain(m.value.0) && |m.value.0| <= 16 && Plain(m.value.1) && |m.value.1| <= 10
  {
    NamesArePlain();
    hide Plain;
  }

  lemma NamesArePlain()
    ensures Plain("sys.info") && Plain("session_id") && Plain("request_id") && Plain("")
    ensures Plain("approval.list") && Plain("approval.approve")
    ensures Plain("approval.reject") && Plain("approval.execute")
  {}

  lemma KeyOfCommand(command: string)
    requires MethodOf(command).Some?
    ensures MethodOf(command).value.1 ==
      if command == "sys-info" then "session_id" else if command == "pending" then "" else "request_id"
  {}

  lemma EmptyParams()
    ensures IsObjectText("{}") && Hd("{}") == '{' && |"{}"| == 2
    ensures forall asked, limit :: Extract("{}", asked, limit) == None
  {
    var ks := [Chr('}')];
    assert ks[1..] == [] && TokensText(ks) == "}" + "";
    DeltaClose();
    assert Closes(ks[1..], 0, Brace);
    forall asked, limit ensures Extract("{}", asked, limit) == None {
      ExtractFindsFirst("", "", [], "", asked, limit);
      assert ObjectText("", "", [], "") == "{}";
    }
  }

  /** Cutting a text inside or after a long object never makes a shorter object of it. */
  lemma CutObject(whole: string, rest: string, m: nat)
    requires IsObjectText(whole) && m <= |whole + rest|
    ensures var r := ObjectSlice((whole + rest)[..m]); r.Got? ==> r.value == whole
  {
    hide ObjectSlice;
    var t := whole + rest;
    var r := ObjectSlice(t[..m]);
    if r.Got? {
      ObjectSliceExact(t[..m], r.value, r.rest);
      assert t == r.value + (r.rest + t[m..]);
      ObjectSliceExact(t, r.value, r.rest + t[m..]);
      ObjectSliceExact(t, whole, rest);
    }
  }

  lemma LongParamsRefused(name: string, rest: string, f: Fields)
    requires Hd(rest) == '{' && Bounded(ObjectSlice(rest), MAX_PARAMS).Fail?
    ensures TakeMembers("\"params\":" + rest, f) == Fail
  {
    hide TakeMembers, TakeMember, TakeKey, ObjectSlice, RoleOf;
    var t := "\"params\":" + rest;
    Roles();
    KeyThenObject(rest);
    TakeMemberBy(t, f, "params", rest);
    TakeMembersFails(t, f);
  }

  lemma CutLine(name: string, params: string, n: nat)
    requires |name| <= 16 && MAX_PARAMS <= |params| && n == MAX_REQUEST
    ensures var full := params + "}\n"; exists m: nat | 0 < m <= |full| ::
              Trunc(Line(name, params), n) == "{" + (LineStart(name) + ("\"params\":" + full[..m]))
  {
    var full := params + "}\n";
    var a := "{" + (LineStart(name) + "\"params\":");
    assert Line(name, params) == a + full;
    var m := if |a + full| < n then |full| else n - 1 - |a|;
    assert Trunc(a + full, n) == a + full[..m];
    assert a + full[..m] == "{" + (LineStart(name) + ("\"params\":" + full[..m]));
  }

  /** Params of 1024 bytes and more are refused, also when the line itself was cut. */
  lemma LongLineRefused(name: string, params: string)
    requires Plain(name) && |name| <= 16 && IsObjectText(params) && MAX_PARAMS <= |params| && Hd(params) == '{'
    ensures Parse(Trunc(Line(name, params), MAX_REQUEST)) == None
  {
    hide TakeMembers, LineStart, ObjectSlice, Plain, Line, IsObjectText;
    var full := params + "}\n";
    CutLine(name, params, MAX_REQUEST);
    var m: nat :| 0 < m <= |full| &&
      Trunc(Line(name, params), MAX_REQUEST) == "{" + (LineStart(name) + ("\"params\":" + full[..m]));
    CutObject(params, "}\n", m);
    var f := HEAD_FIELDS.(name := Some(name));
    LongParamsRefused(name, full[..m], f);
    ReachesParams(name, "\"params\":" + full[..m]);
    OpenLine(name, "\"params\":" + full[..m]);
  }

  /** The session that the daemon finds in the params of a command. */
  function SessionOf(command: string, arg: string): string {
    if command == "sys-info" && |arg| < MAX_SESSION then arg else "default"
  }

  /** The request that a command means. */
  function RequestOfCommand(command: string, arg: string): Request
    requires MethodOf(command).Some?
  {
    var m := MethodOf(command).value;
    var params, session := ParamsOf(m.1, arg), SessionOf(command, arg);
    Request("1", m.0, session, params, HashOf(m.0, params, session))
  }

  /** The params of a command are one object that holds the argument and nothing else. */
  lemma ParamsAreObject(command: string, arg: string)
    requires MethodOf(command).Some? && Plain(arg)
    ensures var m := MethodOf(command).value; var params := ParamsOf(m.1, arg);
      && IsObjectText(params) && Hd(params) == '{'
      && Extract(params, "session_id", MAX_SESSION) ==
           (if command == "sys-info" && |arg| < MAX_SESSION then Some(arg) else None)
      && Extract(params, "request_id", 40) ==
           (if command in {"approve", "reject", "execute"} && |arg| < 40 then Some(arg) else None)
  {
    hide Plain, Extract, OneParam, IsObjectText;
    MethodsArePlain(command);
    KeyOfCommand(command);
    var m := MethodOf(command).value;
    if m.1 == "" {
      EmptyParams();
    } else {
      ParamIsObject(m.1, arg);
      ParamIsFound(m.1, arg, "session_id", MAX_SESSION);
      ParamIsFound(m.1, arg, "request_id", 40);
    }
  }

  /** Round trip of the command line: for every command and every argument without quotes,
      backslashes and control bytes the daemon reads the intended method and finds exactly
      the argument, provided it fits; an argument too long for the params is refused as a
      whole. */
  lemma CommandRoundTrip(command: string, arg: string)
    requires MethodOf(command).Some? && Plain(arg)
    ensures var q := RequestOfCommand(command, arg);
      && Parse(CommandText(command, arg)) == (if |q.params| < MAX_PARAMS then Some(q) else None)
      && Extract(q.params, "request_id", 40) ==
           (if command in {"approve", "reject", "execute"} && |arg| < 40 then Some(arg) else None)
  {
    hide Parse, Plain, Extract, ParamsOf, IsObjectText, HashOf, LineStart;
    MethodsArePlain(command);
    var m := MethodOf(command).value;
    var params := ParamsOf(m.1, arg);
    ParamsAreObject(command, arg);
    if |params| < MAX_PARAMS {
      LineIsRead(m.0, params);
      ShortLine(m.0, params);
    } else {
      LongLineRefused(m.0, params);
    }
  }

  /** How long an argument may be. */
  lemma ParamsLength(command: string, arg: string)
    requires MethodOf(command).Some? && Plain(arg)
    ensures |RequestOfCommand(command, arg).params| == if command == "pending" then 2 else |arg| + 17
  {
    hide OneParam, HashOf, Plain;
    MethodsArePlain(command);
    KeyLength(command);
    var m := MethodOf(command).value;
    if m.1 != "" {
      ParamIsObject(m.1, arg);
    }
  }

  lemma KeyLength(command: string)
    requires MethodOf(command).Some?
    ensures |MethodOf(command).value.1| == if command == "pending" then 0 else 10
  {}

  lemma ShortLine(name: string, params: string)
    requires |name| <= 16 && |params| < MAX_PARAMS
    ensures Trunc(Line(name, params), MAX_REQUEST) == Line(name, params)
  {}
}
