/** What the daemon prints can be read again by its own scanner: the id in every response,
    cut or not, and every text in a line of the audit log. */
module PrintedTexts {
  import opened Bytes
  import opened JsonString
  import opened JsonScan
  import opened JsonTree
  import opened Config
  import opened RpcGrammar
  import opened RpcMembers
  import opened RpcParams
  import opened RpcReply
  import opened Cli
  import opened Audit

  // ---- responses ------------------------------------------------------------------------

  /** The search ends in a list of members that holds the key, whatever comes after it. */
  lemma {:induction false} SearchOpenList(ms: seq<Member>, more: string, key: string, limit: nat)
    requires WellFormedMembers(ms) && !IsSpace(Hd(more))
    requires exists i :: 0 <= i < |ms| && ms[i].key == key
    ensures SearchMembers(MembersText(ms, false, more), key, limit) == FirstMatch(ms, key, limit)
  {
    hide SearchMembers, SkipComma, MemberText, IsSpace, WellFormedValue, ValueText;
    var m, rest := ms[0], MembersText(ms[1..], false, more);
    var u := Separator(ms, false) + rest;
    assert MembersText(ms, false, more) == MemberText(m) + u;
    SearchOneMember(m, u, key, limit);
    if |m.key| < MAX_KEY && m.key != key {
      var i :| 0 <= i < |ms| && ms[i].key == key;
      assert ms[1..][i - 1].key == key;
      NotSpaceAtMember(ms[1..], false, more);
      assert u[1..] == m.next + rest;
      CommaThenMember(m.next, rest, u);
      SearchOpenList(ms[1..], more, key, limit);
    }
  }

  /** The start that all responses share. */
  function ReplyStart(id: string): string {
    "\"jsonrpc\":\"2.0\",\"id\":\"" + Escape(id) + "\","
  }

  function ReplyHead(id: string): seq<Member> {
    [Member("jsonrpc", "", "", StrV("2.0"), "", ""), Member("id", "", "", StrV(id), "", "")]
  }

  lemma ReplyHeadText(id: string, more: string)
    ensures MembersText(ReplyHead(id), false, more) == ReplyStart(id) + more
  {
    hide Quote, MemberText, Plain, MembersText, Escape;
    var ms := ReplyHead(id);
    KeysArePlain();
    QuotePlain("2.0");
    BareMember("jsonrpc", StrV("2.0"), more);
    BareMember("id", StrV(id), more);
    MoreMember(ms[1], [], more);
    MoreMember(ms[0], [ms[1]], more);
    NoMembers(more);
    assert [ms[1]] + [] == [ms[1]] && [ms[0]] + [ms[1]] == ms;
    QuoteText(id);
    JoinReply(id, Escape(id), more, MemberText(ms[0]), MemberText(ms[1]));
  }

  lemma QuoteText(t: string)
    ensures Quote(t) == "\"" + Escape(t) + "\""
  {}

  lemma JoinReply(id: string, e: string, more: string, a: string, b: string)
    requires a == "\"" + "jsonrpc" + "\":" + ("\"" + "2.0" + "\"")
    requires b == "\"" + "id" + "\":" + ("\"" + e + "\"")
    ensures a + "," + (b + "," + more) == "\"jsonrpc\":\"2.0\",\"id\":\"" + e + "\"," + more
  {
    assert a == "\"jsonrpc\":\"2.0\"";
    assert b == "\"id\":\"" + e + "\"";
    assert a + "," + b + "," == "\"jsonrpc\":\"2.0\",\"id\":\"" + e + "\",";
  }

  lemma IdIsFound(id: string, more: string, limit: nat)
    requires Encodable(id) && |id| < limit && !IsSpace(Hd(more))
    ensures Extract("{" + (ReplyStart(id) + more), "id", limit) == Some(id)
  {
    hide SearchMembers, MembersText, Escape, Encodable, Plain;
    KeysArePlain();
    QuotePlain("jsonrpc");
    QuotePlain("id");
    QuotePlain("2.0");
    ReplyHeadText(id, more);
    var ms := ReplyHead(id);
    assert ms[1].key == "id";
    SearchOpenList(ms, more, "id", limit);
    var t := "{" + (ReplyStart(id) + more);
    assert Hd(t) == '{' && t[1..] == ReplyStart(id) + more && Hd(t[1..]) == '"';
    SkipWsBlank("", t);
    SkipWsBlank("", t[1..]);
    assert "" + t == t && "" + t[1..] == t[1..];
    FirstIsSecond(ms, id, limit);
  }

  lemma FirstIsSecond(ms: seq<Member>, id: string, limit: nat)
    requires ms == ReplyHead(id) && |id| < limit
    ensures FirstMatch(ms, "id", limit) == Some(id)
  {
    assert ms[1..][0] == ms[1];
  }

  lemma ResultShape(id: string, payload: string)
    ensures ResultText(id, payload) == "{" + (ReplyStart(id) + ("\"result\":" + payload + "}\n"))
  {
    hide Escape;
    ConcatFive("{\"jsonrpc\":\"2.0\",\"id\":\"", Escape(id), "\",\"result\":", payload, "}\n");
    assert "{" + "\"jsonrpc\":\"2.0\",\"id\":\"" == "{\"jsonrpc\":\"2.0\",\"id\":\"";
    assert "\"," + "\"result\":" == "\",\"result\":";
    assert "{" + (ReplyStart(id) + ("\"result\":" + payload + "}\n")) ==
      ("{" + "\"jsonrpc\":\"2.0\",\"id\":\"") + Escape(id) + ("\"," + "\"result\":") + payload + "}\n";
  }

  /** The id in a response is the id of the request: reading it from the printed response
      gives it back, also when the response was cut to the buffer. */
  lemma ReplyIdReadsBack(id: string, payload: string)
    requires Encodable(id) && |id| < MAX_ID
    ensures Extract(ResultText(id, payload), "id", MAX_ID) == Some(id)
    ensures Extract(Trunc(ResultText(id, payload), MAX_RESPONSE), "id", MAX_ID) == Some(id)
  {
    hide Extract, Escape, Encodable, ResultText;
    ResultShape(id, payload);
    ParsedIdFits(id);
    var more := "\"result\":" + payload + "}\n";
    IdIsFound(id, more, MAX_ID);
    var cut := if |ResultText(id, payload)| < MAX_RESPONSE then |more| else MAX_RESPONSE - 2 - |ReplyStart(id)|;
    assert Trunc(ResultText(id, payload), MAX_RESPONSE) == "{" + (ReplyStart(id) + more[..cut]);
    assert Hd(more[..cut]) == '"';
    IdIsFound(id, more[..cut], MAX_ID);
  }

  /** What an error response prints after its opening. */
  function ErrorTail(code: int, kind: string, message: string, data: string): seq<string> {
    [Number(code), ",\"message\":\"", Escape(message), "\",\"data\":{\"kind\":\"", Escape(kind), "\"",
     data, "}}}\n"]
  }

  lemma ErrorTextShape(id: string, code: int, kind: string, message: string, data: string)
    ensures ErrorText(id, code, kind, message, data) ==
      "{" + (ReplyStart(id) + ("\"error\":{\"code\":" + Concat(ErrorTail(code, kind, message, data))))
  {
    hide Escape, Concat, Number;
    var rest := ErrorTail(code, kind, message, data);
    ErrorShape(id, Escape(id), rest);
    assert ["{\"jsonrpc\":\"2.0\",\"id\":\"", Escape(id), "\",\"error\":{\"code\":"] + rest ==
      ["{\"jsonrpc\":\"2.0\",\"id\":\"", Escape(id), "\",\"error\":{\"code\":", Number(code),
       ",\"message\":\"", Escape(message), "\",\"data\":{\"kind\":\"", Escape(kind), "\"", data, "}}}\n"];
  }

  /** The same for an error response of any length that was not cut. */
  lemma ErrorIdReadsBack(id: string, code: int, kind: string, message: string, data: string)
    requires Encodable(id) && |id| < MAX_ID
    ensures Extract(ErrorText(id, code, kind, message, data), "id", MAX_ID) == Some(id)
  {
    hide Extract, Escape, Encodable, Concat, Number, ErrorText, ErrorTail;
    ErrorTextShape(id, code, kind, message, data);
    IdIsFound(id, "\"error\":{\"code\":" + Concat(ErrorTail(code, kind, message, data)), MAX_ID);
  }

  lemma ErrorShape(id: string, e: string, rest: seq<string>)
    requires e == Escape(id)
    ensures Concat(["{\"jsonrpc\":\"2.0\",\"id\":\"", e, "\",\"error\":{\"code\":"] + rest) ==
      "{" + (ReplyStart(id) + ("\"error\":{\"code\":" + Concat(rest)))
  {
    hide Escape;
    var a, b := "{\"jsonrpc\":\"2.0\",\"id\":\"", "\",\"error\":{\"code\":";
    ConcatFirst(b, rest);
    ConcatFirst(e, [b] + rest);
    ConcatFirst(a, [e] + ([b] + rest));
    assert [a, e, b] + rest == [a] + ([e] + ([b] + rest));
    ErrorLiterals();
    Group("{", "\"jsonrpc\":\"2.0\",\"id\":\"", e, "\",", "\"error\":{\"code\":", Concat(rest));
  }

  lemma ErrorLiterals()
    ensures "{" + "\"jsonrpc\":\"2.0\",\"id\":\"" == "{\"jsonrpc\":\"2.0\",\"id\":\""
    ensures "\"," + "\"error\":{\"code\":" == "\",\"error\":{\"code\":"
  {}

  lemma Group(a: string, b: string, c: string, d: string, e: string, f: string)
    ensures a + (b + c + d + (e + f)) == (a + b) + (c + ((d + e) + f))
  {}

  // ---- audit lines ------------------------------------------------------------------------

  /** The numbers of an identity are C longs. */
  predicate AreLongs(who: Identity) {
    IsLong(who.uid) && IsLong(who.gid) && IsLong(who.pid)
  }

  predicate IsLong(n: int) {
    -0x8000_0000_0000_0000 <= n < 0x8000_0000_0000_0000
  }

  lemma DecimalSix(n: nat)
    ensures |Decimal(n)| <= 6 + |Decimal(n / 1000000)|
  {
    DecimalThree(n);
    DecimalThree(n / 1000);
    assert n / 1000 / 1000 == n / 1000000;
  }

  lemma DecimalThree(n: nat)
    ensures |Decimal(n)| <= 3 + |Decimal(n / 1000)|
  {
    hide Decimal;
    DecimalOne(n);
    DecimalOne(n / 10);
    DecimalOne(n / 100);
    assert n / 10 / 10 == n / 100 && n / 100 / 10 == n / 1000;
  }

  lemma DecimalOne(n: nat)
    ensures |Decimal(n)| <= 1 + |Decimal(n / 10)|
  {}

  lemma LongIsWord(n: int)
    requires IsLong(n)
    ensures |Number(n)| <= 20 && IsWord(Number(n))
  {
    var k := if n < 0 then -n else n;
    hide Decimal;
    DecimalSix(k);
    DecimalSix(k / 1000000);
    DecimalSix(k / 1000000 / 1000000);
    OneDigit(k / 1000000 / 1000000 / 1000000);
  }

  lemma OneDigit(n: nat)
    requires n < 10
    ensures |Decimal(n)| == 1
  {}

  /** An identity as a JSON value. */
  function IdentityTree(who: Identity): Json {
    Dict("", [Field("", "uid", "", Word(Number(who.uid))), Field("", "gid", "", Word(Number(who.gid))),
              Field("", "pid", "", Word(Number(who.pid)))])
  }

  lemma IdentityTreeText(who: Identity)
    ensures JsonText(IdentityTree(who)) == IdentityText(who)
  {
    hide Number, Quote, Concat;
    var u, g, p := Number(who.uid), Number(who.gid), Number(who.pid);
    var fields := IdentityTree(who).fields;
    IdentityKeys();
    OneFieldText(fields[2]);
    MoreFieldText(fields[1], [fields[2]]);
    MoreFieldText(fields[0], [fields[1], fields[2]]);
    assert [fields[1]] + [fields[2]] == [fields[1], fields[2]] && [fields[0]] + [fields[1], fields[2]] == fields;
    SevenParts("{\"uid\":", u, ",\"gid\":", g, ",\"pid\":", p, "}");
    JoinIdentity(u, g, p, FieldsText(fields));
  }

  lemma IdentityKeys()
    ensures Quote("uid") == "\"uid\"" && Quote("gid") == "\"gid\"" && Quote("pid") == "\"pid\""
  {
    QuotePlain("uid");
    QuotePlain("gid");
    QuotePlain("pid");
  }

  lemma OneFieldText(f: Field)
    requires f.before == "" && f.after == "" && f.value.Word?
    ensures FieldsText([f]) == Quote(f.key) + (":" + f.value.raw)
  {
    hide Quote;
    assert "" + Quote(f.key) + "" == Quote(f.key);
    assert JsonText(f.value) == f.value.raw;
  }

  lemma MoreFieldText(f: Field, more: seq<Field>)
    requires f.before == "" && f.after == "" && f.value.Word? && more != []
    ensures FieldsText([f] + more) == Quote(f.key) + (":" + f.value.raw) + ("," + FieldsText(more))
  {
    hide Quote;
    assert ([f] + more)[1..] == more;
    assert "" + Quote(f.key) + "" == Quote(f.key);
    assert JsonText(f.value) == f.value.raw;
  }

  lemma SevenParts(a: string, b: string, c: string, d: string, e: string, f: string, g: string)
    ensures Concat([a, b, c, d, e, f, g]) == a + (b + (c + (d + (e + (f + g)))))
  {
    ConcatFirst(g, []);
    ConcatFirst(f, [g]);
    ConcatFirst(e, [f, g]);
    ConcatFirst(d, [e, f, g]);
    ConcatFirst(c, [d, e, f, g]);
    ConcatFirst(b, [c, d, e, f, g]);
    ConcatFirst(a, [b, c, d, e, f, g]);
    assert [g] + [] == [g] && [f] + [g] == [f, g] && [e] + [f, g] == [e, f, g];
    assert [d] + [e, f, g] == [d, e, f, g] && [c] + [d, e, f, g] == [c, d, e, f, g];
    assert [b] + [c, d, e, f, g] == [b, c, d, e, f, g];
    assert [a] + [b, c, d, e, f, g] == [a, b, c, d, e, f, g];
    assert g + "" == g;
  }

  lemma JoinIdentity(u: string, g: string, p: string, t: string)
    requires t == "\"uid\"" + (":" + u) + ("," + ("\"gid\"" + (":" + g) + ("," + ("\"pid\"" + (":" + p)))))
    ensures "{" + ("" + (t + "}")) == "{\"uid\":" + (u + (",\"gid\":" + (g + (",\"pid\":" + (p + "}")))))
  {
    assert "," + "\"gid\"" + ":" == ",\"gid\":";
    assert "," + "\"pid\"" + ":" == ",\"pid\":";
    assert "{" + "\"uid\"" + ":" == "{\"uid\":";
    assert "{" + ("" + (t + "}")) ==
      ("{" + "\"uid\"" + ":") + u + ("," + "\"gid\"" + ":") + g + ("," + "\"pid\"" + ":") + p + "}";
  }

  lemma IdentityIsValue(who: Identity) returns (v: Value)
    requires AreLongs(who)
    ensures WellFormedValue(v) && ValueText(v) == IdentityText(who)
  {
    LongIsWord(who.uid);
    LongIsWord(who.gid);
    LongIsWord(who.pid);
    IdentityIsShort(who);
    IdentityTreeText(who);
    hide Number, JsonText, IdentityText, WellFormedValue;
    WordField("uid", who.uid);
    WordField("gid", who.gid);
    WordField("pid", who.pid);
    DictOfThree(IdentityTree(who));
    v := TreeIsValue(IdentityTree(who));
  }

  lemma WordField(key: string, n: int)
    requires Plain(key) && IsWord(Number(n))
    ensures ValidField(Field("", key, "", Word(Number(n))))
  {
    EscapePlain(key);
  }

  lemma DictOfThree(j: Json)
    requires j.Dict? && j.open == "" && |j.fields| == 3
    requires ValidField(j.fields[0]) && ValidField(j.fields[1]) && ValidField(j.fields[2])
    ensures Valid(j)
  {}

  lemma IdentityIsShort(who: Identity)
    requires |Number(who.uid)| <= 20 && |Number(who.gid)| <= 20 && |Number(who.pid)| <= 20
    ensures |IdentityText(who)| < MAX_PARAMS
  {
    hide Number, Concat;
    SevenParts("{\"uid\":", Number(who.uid), ",\"gid\":", Number(who.gid), ",\"pid\":", Number(who.pid), "}");
  }

  function Plainly(key: string, v: Value): Member {
    Member(key, "", "", v, "", "")
  }

  /** The members of an audit line; caller and approver stand for the two identities. */
  function TailMembers(e: Event): seq<Member> {
    [Plainly("method", StrV(e.name)), Plainly("risk", StrV(e.risk)), Plainly("decision", StrV(e.decision)),
     Plainly("error_kind", StrV(e.errorKind)), Plainly("duration_ms", Scalar("0")),
     Plainly("params_summary", StrV(e.summary))]
  }

  function HeadMembers(e: Event, ts: string, caller: Value): seq<Member> {
    [Plainly("timestamp", StrV(ts)), Plainly("event", StrV(KindName(e.kind))), Plainly("request_id", StrV(e.id)),
     Plainly("session_id", StrV(e.session)), Plainly("caller", caller)]
  }

  function LineMembers(e: Event, ts: string, caller: Value, approver: Value): seq<Member> {
    HeadMembers(e, ts, caller) + (if e.approver.Some? then [Plainly("approver", approver)] else []) + TailMembers(e)
  }

  /** One more member in front of a list that closes the object. */
  lemma MemberBefore(key: string, v: Value, ms: seq<Member>, rest: string)
    requires Plain(key) && ms != [] && MembersText(ms, true, "") == rest
    ensures MembersText([Plainly(key, v)] + ms, true, "") == "\"" + key + "\":" + ValueText(v) + "," + rest
  {
    hide Plain, Quote, MemberText, ValueText;
    var m := Plainly(key, v);
    assert ([m] + ms)[1..] == ms;
    BareMember(key, v, "");
    assert "," + "" == ",";
  }

  /** The same for a text, with the punctuation grouped as the printer's format has it. */
  lemma TextBefore(start: string, key: string, text: string, ms: seq<Member>, open: string, join: string, rest: string)
    requires Plain(key) && ms != [] && MembersText(ms, true, "") == open + rest
    requires start == "\"" + key + "\":\"" && join == "\"," + open
    ensures MembersText([Plainly(key, StrV(text))] + ms, true, "") == start + (Escape(text) + (join + rest))
  {
    hide Plain, MembersText, Escape;
    MemberBefore(key, StrV(text), ms, open + rest);
    QuoteText(text);
    assert "\"" + key + "\":" + ("\"" + Escape(text) + "\"") + "," + (open + rest)
        == "\"" + key + "\":\"" + (Escape(text) + ("\"," + open + rest));
  }

  lemma TextLast(start: string, key: string, text: string)
    requires Plain(key) && start == "\"" + key + "\":\""
    ensures MembersText([Plainly(key, StrV(text))], true, "") == start + (Escape(text) + "\"}")
  {
    hide Plain, Escape, MemberText;
    var m := Plainly(key, StrV(text));
    BareMember(key, StrV(text), "");
    QuoteText(text);
    assert [m][1..] == [];
    assert MembersText([m], true, "") == MemberText(m) + "}" + "";
    assert "\"" + key + "\":" + ("\"" + Escape(text) + "\"") + "}" == "\"" + key + "\":\"" + (Escape(text) + "\"}");
  }

  lemma LineKeysPlain()
    ensures Plain("timestamp") && Plain("event") && Plain("request_id") && Plain("session_id") && Plain("caller")
    ensures Plain("approver") && Plain("method") && Plain("risk") && Plain("decision") && Plain("error_kind")
    ensures Plain("duration_ms") && Plain("params_summary")
  {}

  /** A text and its label in front of printed parts. */
  lemma TwoMore(a: string, b: string, parts: seq<string>)
    ensures Concat([a, b] + parts) == a + (b + Concat(parts))
  {
    ConcatFirst(b, parts);
    ConcatFirst(a, [b] + parts);
    assert [a, b] + parts == [a] + ([b] + parts);
  }

  /** The tail of a line, grouped from the right. */
  function TailText(e: Event): string {
    "\"method\":\"" + (Escape(e.name) + ("\",\"risk\":\"" + RiskText(e)))
  }

  function RiskText(e: Event): string {
    Escape(e.risk) + ("\",\"decision\":\"" + (Escape(e.decision) + ("\",\"error_kind\":\"" + ErrorKindText(e))))
  }

  function ErrorKindText(e: Event): string {
    Escape(e.errorKind) + ("\",\"duration_ms\":0," + ("\"params_summary\":\"" + (Escape(e.summary) + "\"}")))
  }

  lemma TailTextIsParts(e: Event)
    ensures TailText(e) == Concat(TailParts(e))
  {
    hide Escape, Concat;
    var q0 := ["\"}"];
    var q1 := ["\"params_summary\":\"", Escape(e.summary)] + q0;
    var q2 := ["\",\"duration_ms\":0,"] + q1;
    var q3 := ["\",\"error_kind\":\"", Escape(e.errorKind)] + q2;
    var q4 := ["\",\"decision\":\"", Escape(e.decision)] + q3;
    var q5 := ["\",\"risk\":\"", Escape(e.risk)] + q4;
    LastPart();
    TwoMore("\"params_summary\":\"", Escape(e.summary), q0);
    ConcatFirst("\",\"duration_ms\":0,", q1);
    TwoMore("\",\"error_kind\":\"", Escape(e.errorKind), q2);
    TwoMore("\",\"decision\":\"", Escape(e.decision), q3);
    TwoMore("\",\"risk\":\"", Escape(e.risk), q4);
    TwoMore("\"method\":\"", Escape(e.name), q5);
    assert ["\"method\":\"", Escape(e.name)] + q5 == TailParts(e);
  }

  lemma LastPart()
    ensures Concat(["\"}"]) == "\"}"
  {
    ConcatFirst("\"}", []);
    assert ["\"}"] + [] == ["\"}"];
  }

  lemma ErrorKindMembers(e: Event)
    ensures MembersText(TailMembers(e)[3..], true, "") == "\"error_kind\":\"" + ErrorKindText(e)
  {
    hide Plain, MembersText, Escape;
    LineKeysPlain();
    var s := TailMembers(e);
    var x := "\"params_summary\":\"" + (Escape(e.summary) + "\"}");
    TextLast("\"params_summary\":\"", "params_summary", e.summary);
    MemberBefore("duration_ms", Scalar("0"), [s[5]], x);
    DurationText();
    TextBefore("\"error_kind\":\"", "error_kind", e.errorKind, [s[4]] + [s[5]],
               "\"duration_ms\":0,", "\",\"duration_ms\":0,", x);
    assert [s[3]] + ([s[4]] + [s[5]]) == s[3..];
  }

  lemma DurationText()
    ensures "\"" + "duration_ms" + "\":" + "0" + "," == "\"duration_ms\":0,"
  {}

  lemma RiskMembers(e: Event)
    ensures MembersText(TailMembers(e)[1..], true, "") == "\"risk\":\"" + RiskText(e)
  {
    hide Plain, MembersText, Escape, ErrorKindText;
    LineKeysPlain();
    var s := TailMembers(e);
    var x := ErrorKindText(e);
    ErrorKindMembers(e);
    TextBefore("\"decision\":\"", "decision", e.decision, s[3..], "\"error_kind\":\"", "\",\"error_kind\":\"", x);
    TextBefore("\"risk\":\"", "risk", e.risk, [s[2]] + s[3..], "\"decision\":\"", "\",\"decision\":\"",
               Escape(e.decision) + ("\",\"error_kind\":\"" + x));
    assert [s[1]] + ([s[2]] + s[3..]) == s[1..];
  }

  /** The tail of a line is the text of its members. */
  lemma TailIsMembers(e: Event)
    ensures MembersText(TailMembers(e), true, "") == Concat(TailParts(e))
  {
    hide Plain, MembersText, Escape, RiskText, Concat;
    LineKeysPlain();
    TailTextIsParts(e);
    RiskMembers(e);
    var s := TailMembers(e);
    TextBefore("\"method\":\"", "method", e.name, s[1..], "\"risk\":\"", "\",\"risk\":\"", RiskText(e));
    assert [s[0]] + s[1..] == s;
  }

  /** An identity and what follows it. */
  lemma ApproverIsMember(e: Event, v: Value, rest: string)
    requires e.approver.Some? ==> ValueText(v) == IdentityText(e.approver.value)
    requires MembersText(TailMembers(e), true, "") == rest
    ensures var ms := (if e.approver.Some? then [Plainly("approver", v)] else []) + TailMembers(e);
      MembersText(ms, true, "") == ApproverText(e.approver) + rest
  {
    hide Plain, MembersText, TailMembers, IdentityText, Concat;
    LineKeysPlain();
    TailNotEmpty(e);
    if e.approver.Some? {
      var t := IdentityText(e.approver.value);
      MemberBefore("approver", v, TailMembers(e), rest);
      ThreeParts("\"approver\":", t, ",");
      assert "\"" + "approver" + "\":" == "\"approver\":";
    } else {
      assert [] + TailMembers(e) == TailMembers(e) && "" + rest == rest;
    }
  }

  lemma TailNotEmpty(e: Event)
    ensures TailMembers(e) != []
  {}

  lemma ThreeParts(a: string, b: string, c: string)
    ensures Concat([a, b, c]) == a + b + c
  {
    TwoMore(a, b, [c]);
    ConcatFirst(c, []);
    assert [c] + [] == [c] && [a, b] + [c] == [a, b, c];
    assert c + "" == c;
  }

  /** The head of a line, grouped from the right, in front of the rest. */
  function HeadText(e: Event, ts: string, rest: string): string {
    "\"timestamp\":\"" + (Escape(ts) + ("\",\"event\":\"" + (Escape(KindName(e.kind)) +
      ("\",\"request_id\":\"" + SessionText(e, rest)))))
  }

  function SessionText(e: Event, rest: string): string {
    Escape(e.id) + ("\",\"session_id\":\"" + (Escape(e.session) + ("\",\"caller\":" +
      (IdentityText(e.caller) + ("," + rest)))))
  }

  lemma SessionMembers(e: Event, ts: string, v: Value, ms: seq<Member>, rest: string)
    requires ValueText(v) == IdentityText(e.caller) && ms != [] && MembersText(ms, true, "") == rest
    ensures MembersText(HeadMembers(e, ts, v)[2..] + ms, true, "") == "\"request_id\":\"" + SessionText(e, rest)
  {
    hide Plain, MembersText, Escape, IdentityText;
    LineKeysPlain();
    var s := HeadMembers(e, ts, v);
    var x := IdentityText(e.caller) + ("," + rest);
    MemberBefore("caller", v, ms, rest);
    CallerText(IdentityText(e.caller), rest);
    TextBefore("\"session_id\":\"", "session_id", e.session, [s[4]] + ms, "\"caller\":", "\",\"caller\":", x);
    TextBefore("\"request_id\":\"", "request_id", e.id, [s[3]] + ([s[4]] + ms),
               "\"session_id\":\"", "\",\"session_id\":\"", Escape(e.session) + ("\",\"caller\":" + x));
    assert [s[2]] + ([s[3]] + ([s[4]] + ms)) == s[2..] + ms;
  }

  lemma CallerText(t: string, rest: string)
    ensures "\"" + "caller" + "\":" + t + "," + rest == "\"caller\":" + (t + ("," + rest))
  {
    assert "\"" + "caller" + "\":" == "\"caller\":";
  }

  lemma HeadIsMembers(e: Event, ts: string, v: Value, ms: seq<Member>, rest: string)
    requires ValueText(v) == IdentityText(e.caller) && ms != [] && MembersText(ms, true, "") == rest
    ensures MembersText(HeadMembers(e, ts, v) + ms, true, "") == HeadText(e, ts, rest)
  {
    hide Plain, MembersText, Escape, SessionText, KindName, IdentityText;
    LineKeysPlain();
    SessionMembers(e, ts, v, ms, rest);
    var s := HeadMembers(e, ts, v);
    var x := SessionText(e, rest);
    TextBefore("\"event\":\"", "event", KindName(e.kind), s[2..] + ms,
               "\"request_id\":\"", "\",\"request_id\":\"", x);
    TextBefore("\"timestamp\":\"", "timestamp", ts, [s[1]] + (s[2..] + ms), "\"event\":\"", "\",\"event\":\"",
               Escape(KindName(e.kind)) + ("\",\"request_id\":\"" + x));
    assert [s[0]] + ([s[1]] + (s[2..] + ms)) == s + ms;
  }

  /** The parts from the request id to the approver. */
  function SessionParts(e: Event): seq<string> {
    [Escape(e.id), "\",\"session_id\":\"", Escape(e.session), "\",\"caller\":", IdentityText(e.caller), ",",
     ApproverText(e.approver)]
  }

  lemma SessionTextIsParts(e: Event, tail: seq<string>)
    ensures SessionText(e, ApproverText(e.approver) + Concat(tail)) == Concat(SessionParts(e) + tail)
  {
    hide Escape, Concat, IdentityText, ApproverText;
    var q0 := [ApproverText(e.approver)] + tail;
    var q1 := [IdentityText(e.caller), ","] + q0;
    var q2 := [Escape(e.session), "\",\"caller\":"] + q1;
    ConcatFirst(ApproverText(e.approver), tail);
    TwoMore(IdentityText(e.caller), ",", q0);
    TwoMore(Escape(e.session), "\",\"caller\":", q1);
    TwoMore(Escape(e.id), "\",\"session_id\":\"", q2);
    assert [Escape(e.id), "\",\"session_id\":\""] + q2 == SessionParts(e) + tail;
  }

  lemma HeadTextIsParts(e: Event, ts: string, tail: seq<string>)
    requires Plain(ts)
    ensures "{" + HeadText(e, ts, ApproverText(e.approver) + Concat(tail)) == Concat(HeadParts(e, ts) + tail)
  {
    EscapePlain(ts);
    hide Plain, Escape, Concat, KindName, SessionText, SessionParts;
    SessionTextIsParts(e, tail);
    var q2 := SessionParts(e) + tail;
    var q3 := [Escape(KindName(e.kind)), "\",\"request_id\":\""] + q2;
    var q4 := [ts, "\",\"event\":\""] + q3;
    TwoMore(Escape(KindName(e.kind)), "\",\"request_id\":\"", q2);
    TwoMore(ts, "\",\"event\":\"", q3);
    ConcatFirst("{\"timestamp\":\"", q4);
    HeadPartsSplit(e, ts, tail);
    OpenTimestamp(Concat(q4));
    hide HeadParts;
  }

  lemma OpenTimestamp(x: string)
    ensures "{" + ("\"timestamp\":\"" + x) == "{\"timestamp\":\"" + x
  {
    assert "{" + "\"timestamp\":\"" == "{\"timestamp\":\"";
  }

  lemma HeadPartsSplit(e: Event, ts: string, tail: seq<string>)
    ensures HeadParts(e, ts) + tail ==
      ["{\"timestamp\":\""] + ([ts, "\",\"event\":\""] +
        ([Escape(KindName(e.kind)), "\",\"request_id\":\""] + (SessionParts(e) + tail)))
  {
    hide Escape, KindName, IdentityText, ApproverText;
  }

  /** The texts of an event that its line holds, by key. */
  function TextOf(e: Event, key: string): Option<string> {
    if key == "event" then Some(KindName(e.kind))
    else if key == "request_id" then Some(e.id)
    else if key == "session_id" then Some(e.session)
    else if key == "method" then Some(e.name)
    else if key == "risk" then Some(e.risk)
    else if key == "decision" then Some(e.decision)
    else if key == "error_kind" then Some(e.errorKind)
    else if key == "params_summary" then Some(e.summary)
    else None
  }

  predicate EncodableEvent(e: Event) {
    && Encodable(KindName(e.kind)) && Encodable(e.id) && Encodable(e.session) && Encodable(e.name)
    && Encodable(e.risk) && Encodable(e.decision) && Encodable(e.errorKind) && Encodable(e.summary)
    && AreLongs(e.caller) && (e.approver.Some? ==> AreLongs(e.approver.value))
  }

  lemma MemberIsWellFormed(key: string, v: Value)
    requires Plain(key) && WellFormedValue(v)
    ensures WellFormedMember(Plainly(key, v))
  {
    EscapePlain(key);
  }

  lemma LineMembersWellFormed(e: Event, ts: string, caller: Value, approver: Value)
    requires EncodableEvent(e) && Plain(ts) && WellFormedValue(caller)
    requires e.approver.Some? ==> WellFormedValue(approver)
    ensures WellFormedMembers(LineMembers(e, ts, caller, approver))
  {
    EscapePlain(ts);
    ZeroIsScalar();
    LineKeysPlain();
    forall m | m in LineMembers(e, ts, caller, approver) ensures WellFormedMember(m) {
      MemberIsOfLine(e, ts, caller, approver, m);
      hide Plain, Encodable, KindName, WellFormedMember;
      MemberIsWellFormed(m.key, m.value);
    }
  }

  lemma ZeroIsScalar()
    ensures WellFormedValue(Scalar("0"))
  {}

  lemma MemberIsOfLine(e: Event, ts: string, caller: Value, approver: Value, m: Member)
    requires EncodableEvent(e) && Encodable(ts) && WellFormedValue(caller) && WellFormedValue(Scalar("0"))
    requires e.approver.Some? ==> WellFormedValue(approver)
    requires m in LineMembers(e, ts, caller, approver)
    ensures m == Plainly(m.key, m.value) && WellFormedValue(m.value)
    ensures m.key in {"timestamp", "event", "request_id", "session_id", "caller", "approver", "method", "risk",
                      "decision", "error_kind", "duration_ms", "params_summary"}
  {
    hide Encodable, KindName;
  }

  /** An audit line is an object in the sense of the scanner, and looking up a key in it
      finds the member of that name. */
  lemma LineIsObject(e: Event, ts: string) returns (caller: Value, approver: Value)
    requires EncodableEvent(e) && Plain(ts)
    ensures ValueText(caller) == JsonText(IdentityTree(e.caller))
    ensures e.approver.Some? ==> ValueText(approver) == JsonText(IdentityTree(e.approver.value))
    ensures WellFormedMembers(LineMembers(e, ts, caller, approver))
    ensures LineBody(e, ts) == ObjectText("", "", LineMembers(e, ts, caller, approver), "")
  {
    hide Plain, MembersText, Encodable, IdentityText, ApproverText, HeadParts, TailParts, TailMembers, HeadMembers;
    hide HeadText, Concat, WellFormedValue, KindName;
    hide JsonText, IdentityTree;
    caller := IdentityIsValue(e.caller);
    IdentityTreeText(e.caller);
    approver := Scalar("");
    if e.approver.Some? {
      approver := IdentityIsValue(e.approver.value);
      IdentityTreeText(e.approver.value);
    }
    LineMembersWellFormed(e, ts, caller, approver);
    TailIsMembers(e);
    TailNotEmpty(e);
    var tail := Concat(TailParts(e));
    ApproverIsMember(e, approver, tail);
    var ms := (if e.approver.Some? then [Plainly("approver", approver)] else []) + TailMembers(e);
    HeadIsMembers(e, ts, caller, ms, ApproverText(e.approver) + tail);
    assert HeadMembers(e, ts, caller) + ms == LineMembers(e, ts, caller, approver);
    HeadTextIsParts(e, ts, TailParts(e));
    ConcatAppend(HeadParts(e, ts), TailParts(e));
    assert LineMembers(e, ts, caller, approver) != [];
    ObjectOfMembers(LineMembers(e, ts, caller, approver));
  }

  lemma ObjectOfMembers(ms: seq<Member>)
    requires ms != []
    ensures ObjectText("", "", ms, "") == "{" + MembersText(ms, true, "")
  {
    hide MembersText;
    assert "{" + "" == "{";
  }

  lemma {:induction false} FirstMatchAt(ms: seq<Member>, i: nat, key: string, limit: nat)
    requires i < |ms| && ms[i].key == key && ms[i].value.StrV? && |ms[i].value.text| < limit
    requires forall j | 0 <= j <= i :: |ms[j].key| < MAX_KEY
    requires forall j | 0 <= j < i :: ms[j].key != key
    ensures FirstMatch(ms, key, limit) == Some(ms[i].value.text)
  {
    if i > 0 {
      FirstMatchAt(ms[1..], i - 1, key, limit);
    }
  }

  lemma TextIsFound(e: Event, ts: string, caller: Value, approver: Value, key: string, limit: nat)
    requires TextOf(e, key).Some? && |TextOf(e, key).value| < limit
    ensures FirstMatch(LineMembers(e, ts, caller, approver), key, limit) == TextOf(e, key)
  {
    hide KindName, FirstMatch;
    var ms := LineMembers(e, ts, caller, approver);
    var off := if e.approver.Some? then 6 else 5;
    var i := if key == "event" then 1 else if key == "request_id" then 2 else if key == "session_id" then 3
             else if key == "method" then off else if key == "risk" then off + 1 else if key == "decision" then off + 2
             else if key == "error_kind" then off + 3 else off + 5;
    FirstMatchAt(ms, i, key, limit);
  }

  /** Every text of an event reads back from its line: the project's own scanner finds, at
      depth 1, exactly the kind, ids, method, risk, decision and summaries that were
      written, whatever bytes the decoder can produce they hold. */
  lemma LineReadsBack(e: Event, ts: string, key: string, limit: nat)
    requires EncodableEvent(e) && Plain(ts)
    requires TextOf(e, key).Some? && |TextOf(e, key).value| < limit
    ensures Extract(LineBody(e, ts), key, limit) == TextOf(e, key)
  {
    hide Plain, EncodableEvent, LineBody, LineMembers, Extract, TextOf, ObjectText, WellFormedMembers;
    var caller, approver := LineIsObject(e, ts);
    EmptyBlank();
    ExtractFindsFirst("", "", LineMembers(e, ts, caller, approver), "", key, limit);
    TextIsFound(e, ts, caller, approver, key, limit);
  }

  /** The name of each kind of event, as a reader of the log finds it. */
  lemma EventNameReadsBack(e: Event, ts: string)
    requires EncodableEvent(e) && Plain(ts)
    ensures Extract(LineBody(e, ts), "event", 64) == Some(
      match e.kind
      case RequestReceived => "request_received"
      case PreflightDenied => "preflight_denied"
      case ApprovalRequired => "approval_required"
      case ApprovalGranted => "approval_granted"
      case ApprovalRejected => "approval_rejected"
      case ExecutionStarted => "execution_started"
      case ExecutionFinished => "execution_finished"
      case ExecutionFailed => "execution_failed")
  {
    hide Plain, EncodableEvent, LineBody, Extract;
    LineReadsBack(e, ts, "event", 64);
  }

  lemma EmptyBlank()
    ensures IsBlank("")
  {}
}
