/** The responses and the approval list as JSON objects: member by member, what sections 5
    and 5.1 of the JSON-RPC 2.0 specification ask of a response, and what the list shows of
    each record. */
module PrintedReplies {
  import opened Bytes
  import opened JsonString
  import opened RpcGrammar
  import opened RpcParams
  import opened RpcIgnored
  import opened RpcReply
  import opened Cli
  import opened Approval
  import opened PrintedTexts

  // ---- responses --------------------------------------------------------------------------

  /** A member printed last in its object. */
  lemma LastMember(key: string, v: Value, end: string)
    requires Plain(key)
    ensures MembersText([Plainly(key, v)], true, end) == "\"" + key + "\":" + ValueText(v) + "}" + end
  {
    hide Plain, ValueText, MemberText;
    var m := Plainly(key, v);
    BareMember(key, v, "");
    assert [m][1..] == [];
    assert MembersText([m], true, end) == MemberText(m) + "}" + end;
  }

  lemma ReplyObject(id: string, key: string, v: Value, rest: string)
    requires Plain(key) && rest == "\"" + key + "\":" + ValueText(v) + "}" + "\n"
    ensures ObjectText("", "", ReplyHead(id) + [Plainly(key, v)], "\n") == "{" + (ReplyStart(id) + rest)
  {
    hide Plain, ValueText, MembersText, Escape;
    var ms := ReplyHead(id) + [Plainly(key, v)];
    MembersTextSplits(ms, 2, true, "\n");
    assert ms[..2] == ReplyHead(id) && ms[2..] == [Plainly(key, v)];
    LastMember(key, v, "\n");
    ReplyHeadText(id, rest);
    assert "" + ("{" + "") == "{";
  }

  lemma ReplyKeysPlain()
    ensures Plain("result") && Plain("error") && Plain("code") && Plain("message") && Plain("data") && Plain("kind")
    ensures Plain("pending") && Plain("status") && Plain("summary")
  {}

  /** A result is an object of exactly the version, the id and the payload, and a newline. */
  lemma ResultIsObject(id: string, payload: string)
    ensures ResultText(id, payload) ==
      ObjectText("", "", [Plainly("jsonrpc", StrV("2.0")), Plainly("id", StrV(id)),
                          Plainly("result", Scalar(payload))], "\n")
  {
    hide Plain, MembersText, Escape, ResultText, ReplyStart;
    ReplyKeysPlain();
    ResultShape(id, payload);
    ResultLiteral(payload);
    ReplyObject(id, "result", Scalar(payload), "\"result\":" + payload + "}\n");
    assert ReplyHead(id) + [Plainly("result", Scalar(payload))] ==
      [Plainly("jsonrpc", StrV("2.0")), Plainly("id", StrV(id)), Plainly("result", Scalar(payload))];
  }

  lemma ResultLiteral(payload: string)
    ensures "\"result\":" + payload + "}\n" == "\"" + "result" + "\":" + payload + "}" + "\n"
  {
    assert "\"" + "result" + "\":" == "\"result\":" && "}" + "\n" == "}\n";
  }

  /** The data of an error: its kind, then whatever the handler adds. */
  function DataText(kind: string, data: string): string {
    "{" + (MemberText(Plainly("kind", StrV(kind))) + (data + "}"))
  }

  function ErrorMembers(code: int, kind: string, message: string, data: string): seq<Member> {
    [Plainly("code", Scalar(Number(code))), Plainly("message", StrV(message)),
     Plainly("data", Scalar(DataText(kind, data)))]
  }

  lemma DataShape(kind: string, data: string)
    ensures DataText(kind, data) == "{\"kind\":\"" + (Escape(kind) + ("\"" + (data + "}")))
  {
    hide MemberText, Escape, Plain;
    ReplyKeysPlain();
    BareMember("kind", StrV(kind), "");
    QuoteText(kind);
    DataLiteral(Escape(kind), data);
  }

  lemma DataLiteral(e: string, data: string)
    ensures "{" + ("\"" + "kind" + "\":" + ("\"" + e + "\"") + (data + "}"))
         == "{\"kind\":\"" + (e + ("\"" + (data + "}")))
  {
    assert "{" + ("\"" + "kind" + "\":" + "\"") == "{\"kind\":\"";
  }

  lemma ErrorParts(code: int, kind: string, message: string, data: string)
    ensures Concat(ErrorTail(code, kind, message, data))
         == Number(code) + (",\"message\":\"" + (Escape(message) + ("\",\"data\":{\"kind\":\"" +
              (Escape(kind) + ("\"" + (data + "}}}\n"))))))
  {
    hide Concat, Escape, Number;
    var q0 := ["}}}\n"];
    ConcatFirst("}}}\n", []);
    NoParts();
    assert ["}}}\n"] + [] == q0 && "}}}\n" + "" == "}}}\n";
    TwoMore("\"", data, q0);
    TwoMore("\",\"data\":{\"kind\":\"", Escape(kind), ["\"", data] + q0);
    TwoMore(",\"message\":\"", Escape(message), ["\",\"data\":{\"kind\":\"", Escape(kind)] + (["\"", data] + q0));
    ConcatFirst(Number(code), [",\"message\":\"", Escape(message)] +
                              (["\",\"data\":{\"kind\":\"", Escape(kind)] + (["\"", data] + q0)));
    assert [Number(code)] + ([",\"message\":\"", Escape(message)] +
                             (["\",\"data\":{\"kind\":\"", Escape(kind)] + (["\"", data] + q0))) ==
      [Number(code), ",\"message\":\"", Escape(message), "\",\"data\":{\"kind\":\"", Escape(kind), "\"", data, "}}}\n"];
  }

  lemma NoParts()
    ensures Concat([]) == ""
  {}

  lemma ErrorMembersText(code: int, kind: string, message: string, data: string)
    ensures MembersText(ErrorMembers(code, kind, message, data), true, "") ==
      "\"code\":" + (Number(code) + (",\"message\":\"" + (Escape(message) + ("\",\"data\":" +
        (DataText(kind, data) + "}")))))
  {
    hide MembersText, Escape, Number, Plain, DataText;
    ReplyKeysPlain();
    var ms := ErrorMembers(code, kind, message, data);
    var d := DataText(kind, data);
    LastMember("data", Scalar(d), "");
    LabelLiterals();
    assert "\"" + "data" + "\":" + d + "}" + "" == "\"data\":" + (d + "}");
    TextBefore("\"message\":\"", "message", message, [ms[2]], "\"data\":", "\",\"data\":", d + "}");
    var rest := Escape(message) + ("\",\"data\":" + (d + "}"));
    MemberBefore("code", Scalar(Number(code)), [ms[1]] + [ms[2]], "\"message\":\"" + rest);
    assert [ms[0]] + ([ms[1]] + [ms[2]]) == ms;
    CodeLiteral(Number(code), rest);
  }

  lemma LabelLiterals()
    ensures "\"" + "data" + "\":" == "\"data\":"
    ensures "\"," + "\"data\":" == "\",\"data\":"
  {}

  lemma CodeLiteral(n: string, rest: string)
    ensures "\"" + "code" + "\":" + n + "," + ("\"message\":\"" + rest)
         == "\"code\":" + (n + (",\"message\":\"" + rest))
  {
    assert "\"" + "code" + "\":" == "\"code\":" && "," + "\"message\":\"" == ",\"message\":\"";
  }

  lemma ErrorLiteral(n: string, m: string, k: string, data: string)
    ensures "\"error\":{\"code\":" + (n + (",\"message\":\"" + (m + ("\",\"data\":{\"kind\":\"" +
              (k + ("\"" + (data + "}}}\n"))))))) ==
      "\"" + "error" + "\":" + ("{" + ("\"code\":" + (n + (",\"message\":\"" + (m + ("\",\"data\":" +
              ("{\"kind\":\"" + (k + ("\"" + (data + "}")))) + "}")))))) + "}" + "\n"
  {
    ErrorLiteralEnds();
    Nest("\"" + "error" + "\":", "{", "\"code\":", n, ",\"message\":\"", m);
    var tail := k + ("\"" + (data + "}}}\n"));
    assert tail == (k + ("\"" + (data + "}"))) + "}" + "}" + "\n";
    var x := k + ("\"" + (data + "}"));
    Tail("\",\"data\":", "{\"kind\":\"", x);
    Spread("\"" + "error" + "\":", "{", "\"code\":", n, ",\"message\":\"", m, "\",\"data\":", "{\"kind\":\"", x);
  }

  lemma ErrorLiteralEnds()
    ensures "\"" + "error" + "\":" + "{" + "\"code\":" == "\"error\":{\"code\":"
    ensures "\",\"data\":" + "{\"kind\":\"" == "\",\"data\":{\"kind\":\""
    ensures "}" + "}" + "}" + "\n" == "}}}\n"
  {}

  lemma Nest(a: string, b: string, c: string, d: string, e: string, f: string)
    ensures a + (b + (c + (d + (e + f)))) == (a + b + c) + (d + (e + f))
  {}

  lemma Tail(a: string, b: string, x: string)
    ensures (a + b) + x == a + (b + x)
  {}

  lemma Spread(a: string, b: string, c: string, d: string, e: string, f: string, g: string, h: string, x: string)
    ensures a + (b + (c + (d + (e + (f + (g + ((h + x) + "}"))))))) + "}" + "\n"
         == (a + b + c) + (d + (e + (f + ((g + h) + (x + "}" + "}" + "\n")))))
  {}

  /** An error is an object of exactly the version, the id and an error object, which has
      the code, the message and the data with the kind first. */
  lemma ErrorIsObject(id: string, code: int, kind: string, message: string, data: string)
    ensures ErrorText(id, code, kind, message, data) ==
      ObjectText("", "", [Plainly("jsonrpc", StrV("2.0")), Plainly("id", StrV(id)),
                          Plainly("error", Scalar(ObjectText("", "", ErrorMembers(code, kind, message, data), "")))],
                 "\n")
  {
    hide Plain, MembersText, Escape, Concat, Number, ErrorText, ErrorTail, ReplyStart, DataText;
    ReplyKeysPlain();
    ErrorTextShape(id, code, kind, message, data);
    ErrorParts(code, kind, message, data);
    ErrorMembersText(code, kind, message, data);
    DataShape(kind, data);
    ErrorLiteral(Number(code), Escape(message), Escape(kind), data);
    var ms := ErrorMembers(code, kind, message, data);
    ObjectOfMembers(ms);
    var v := Scalar(ObjectText("", "", ms, ""));
    ReplyObject(id, "error", v, "\"error\":{\"code\":" + Concat(ErrorTail(code, kind, message, data)));
    assert ReplyHead(id) + [Plainly("error", v)] ==
      [Plainly("jsonrpc", StrV("2.0")), Plainly("id", StrV(id)), Plainly("error", v)];
  }

  // ---- the list -----------------------------------------------------------------------------

  /** The status numbers that clients see. */
  function StatusWord(s: Status): string {
    match s
    case Pending => "0"
    case Granted => "1"
    case Rejected => "2"
    case Executed => "3"
  }

  lemma StatusIsWord(s: Status)
    ensures Decimal(StatusNumber(s)) == StatusWord(s)
  {}

  /** What the list shows of a record. */
  function ItemMembers(r: Record): seq<Member> {
    [Plainly("request_id", StrV(r.id)), Plainly("method", StrV(r.name)), Plainly("risk", StrV(r.risk)),
     Plainly("status", Scalar(StatusWord(r.status))), Plainly("summary", StrV(r.summary))]
  }

  /** One item, grouped from the right. */
  function ItemBody(r: Record): string {
    Escape(r.id) + ("\",\"method\":\"" + (Escape(r.name) + ("\",\"risk\":\"" + (Escape(r.risk) +
      ("\",\"status\":" + (StatusWord(r.status) + (",\"summary\":\"" + (Escape(r.summary) + "\"}"))))))))
  }

  lemma ItemBodyIsParts(i: nat, r: Record)
    ensures ItemText(i, r) == (if i == 0 then "" else ",") + ("{\"request_id\":\"" + ItemBody(r))
  {
    hide Escape, Concat, StatusWord, Decimal;
    StatusIsWord(r.status);
    var comma := if i == 0 then "" else ",";
    var q0 := ["\"}"];
    var q1 := [",\"summary\":\"", Escape(r.summary)] + q0;
    var q2 := ["\",\"status\":", Decimal(StatusNumber(r.status))] + q1;
    var q3 := ["\",\"risk\":\"", Escape(r.risk)] + q2;
    var q4 := ["\",\"method\":\"", Escape(r.name)] + q3;
    var q5 := ["{\"request_id\":\"", Escape(r.id)] + q4;
    LastPart();
    TwoMore(",\"summary\":\"", Escape(r.summary), q0);
    TwoMore("\",\"status\":", Decimal(StatusNumber(r.status)), q1);
    TwoMore("\",\"risk\":\"", Escape(r.risk), q2);
    TwoMore("\",\"method\":\"", Escape(r.name), q3);
    TwoMore("{\"request_id\":\"", Escape(r.id), q4);
    ConcatFirst(comma, q5);
    assert [comma] + q5 ==
      [comma, "{\"request_id\":\"", Escape(r.id), "\",\"method\":\"", Escape(r.name), "\",\"risk\":\"", Escape(r.risk),
       "\",\"status\":", Decimal(StatusNumber(r.status)), ",\"summary\":\"", Escape(r.summary), "\"}"];
  }

  lemma StatusLiteral(w: string, rest: string)
    ensures "\"" + "status" + "\":" + w + "," + ("\"summary\":\"" + rest)
         == "\"status\":" + (w + (",\"summary\":\"" + rest))
  {
    assert "\"" + "status" + "\":" == "\"status\":" && "," + "\"summary\":\"" == ",\"summary\":\"";
  }

  lemma ItemMembersText(r: Record)
    ensures MembersText(ItemMembers(r), true, "") == "\"request_id\":\"" + ItemBody(r)
  {
    hide MembersText, Escape, Plain, StatusWord;
    ReplyKeysPlain();
    LineKeysPlain();
    var ms, w := ItemMembers(r), StatusWord(r.status);
    var x := Escape(r.summary) + "\"}";
    TextLast("\"summary\":\"", "summary", r.summary);
    MemberBefore("status", Scalar(w), [ms[4]], "\"summary\":\"" + x);
    StatusLiteral(w, x);
    var y := w + (",\"summary\":\"" + x);
    var m3 := [ms[3]] + [ms[4]];
    TextBefore("\"risk\":\"", "risk", r.risk, m3, "\"status\":", "\",\"status\":", y);
    var z := Escape(r.risk) + ("\",\"status\":" + y);
    TextBefore("\"method\":\"", "method", r.name, [ms[2]] + m3, "\"risk\":\"", "\",\"risk\":\"", z);
    TextBefore("\"request_id\":\"", "request_id", r.id, [ms[1]] + ([ms[2]] + m3),
               "\"method\":\"", "\",\"method\":\"", Escape(r.name) + ("\",\"risk\":\"" + z));
    assert [ms[0]] + ([ms[1]] + ([ms[2]] + m3)) == ms;
  }

  /** One item of the list is an object with exactly these members. */
  lemma ItemIsObject(i: nat, r: Record)
    ensures ItemText(i, r) == (if i == 0 then "" else ",") + ObjectText("", "", ItemMembers(r), "")
  {
    hide MembersText, ItemText, ItemBody;
    ItemBodyIsParts(i, r);
    ItemMembersText(r);
    ObjectOfMembers(ItemMembers(r));
    OpenItem(ItemBody(r));
  }

  lemma OpenItem(x: string)
    ensures "{" + ("\"request_id\":\"" + x) == "{\"request_id\":\"" + x
  {
    assert "{" + "\"request_id\":\"" == "{\"request_id\":\"";
  }

  /** Objects with commas between them. */
  function Listed(records: seq<Record>): string {
    if records == [] then ""
    else ObjectText("", "", ItemMembers(records[0]), "") + (if |records| == 1 then "" else "," + Listed(records[1..]))
  }

  lemma {:induction false} ListedLast(records: seq<Record>, r: Record)
    ensures Listed(records + [r]) ==
      Listed(records) + (if records == [] then "" else ",") + ObjectText("", "", ItemMembers(r), "")
  {
    hide ObjectText, ItemMembers;
    var all := records + [r];
    if records == [] {
      assert all == [r];
    } else {
      assert all[1..] == records[1..] + [r];
      ListedLast(records[1..], r);
    }
  }

  lemma {:induction false} ItemsAreListed(records: seq<Record>)
    ensures ItemsText(records) == Listed(records)
  {
    hide ItemText, ObjectText, ItemMembers;
    if records != [] {
      var n := |records| - 1;
      ItemsAreListed(records[..n]);
      ItemIsObject(n, records[n]);
      ListedLast(records[..n], records[n]);
      assert records[..n] + [records[n]] == records;
    }
  }

  /** The list is an object whose one member is the array of the items, in the order of the
      store, each shown with its id, method, risk, status number and summary. */
  lemma ListIsObject(records: seq<Record>)
    ensures ListText(records) ==
      ObjectText("", "", [Plainly("pending", Scalar("[" + Listed(records) + "]"))], "")
  {
    hide Plain, MembersText, ItemsText, Listed;
    ReplyKeysPlain();
    ItemsAreListed(records);
    var v := Scalar("[" + Listed(records) + "]");
    LastMember("pending", v, "");
    ObjectOfMembers([Plainly("pending", v)]);
    ListLiteral(Listed(records));
  }

  lemma ListLiteral(x: string)
    ensures LIST_OPEN + x + "]}" == "{" + ("\"" + "pending" + "\":" + ("[" + x + "]") + "}" + "")
  {
    assert "{" + ("\"" + "pending" + "\":" + "[") == LIST_OPEN;
    assert "]" + "}" == "]}";
  }
}
