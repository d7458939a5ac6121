/** The response builders and the bounded rendering of the approval list. */
module RpcReply {
  import opened Bytes
  import opened JsonString
  import opened RpcGrammar
  import opened Approval

  const MAX_RESPONSE: nat := 4096

  function ResultText(id: string, payload: string): string {
    Concat(["{\"jsonrpc\":\"2.0\",\"id\":\"", Escape(id), "\",\"result\":", payload, "}\n"])
  }

  function ErrorText(id: string, code: int, kind: string, message: string, data: string): string {
    Concat(["{\"jsonrpc\":\"2.0\",\"id\":\"", Escape(id), "\",\"error\":{\"code\":",
            Number(code),
            ",\"message\":\"", Escape(message), "\",\"data\":{\"kind\":\"", Escape(kind), "\"", data, "}}}\n"])
  }

  /** Escapes a text into a scratch buffer of the given size and reads it back. */
  method EscapeField(text: string, size: nat) returns (ok: bool, e: string)
    ensures ok == (|Escape(text)| < size)
    ensures ok ==> e == Escape(text)
  {
    var scratch := new char[size];
    e := "";
    ok := EscapeString(text, scratch);
    if ok {
      EscapePrintable(text);
      ReadBack(scratch, Escape(text));
      e := UpToNul(scratch[..]);
    }
  }

  /** `anything_rpc_result`: the length of the whole response, or -1 with the buffer left
      alone; a response that does not fit is cut. */
  method BuildResult(id: string, payload: string, out: array<char>) returns (wrote: int)
    requires out.Length > 0
    modifies out
    ensures |Escape(id)| < 2 * MAX_ID ==>
              wrote == |ResultText(id, payload)| && Holds(out, Trunc(ResultText(id, payload), out.Length))
    ensures |Escape(id)| >= 2 * MAX_ID ==> wrote == -1 && out[..] == old(out[..])
  {
    var ok, e := EscapeField(id, 2 * MAX_ID);
    if !ok {
      return -1;
    }
    var text := Concat(["{\"jsonrpc\":\"2.0\",\"id\":\"", e, "\",\"result\":", payload, "}\n"]);
    var whole := Snprintf(out, 0, text, "");
    assert "" + text == text;
    wrote := |text|;
  }

  /** `anything_rpc_error` */
  method BuildError(id: string, code: int, kind: string, message: string, data: string, out: array<char>)
    returns (wrote: int)
    requires out.Length > 0
    modifies out
    ensures var fits := |Escape(id)| < 2 * MAX_ID && |Escape(kind)| < 128 && |Escape(message)| < 256;
      var text := ErrorText(id, code, kind, message, data);
      if fits then wrote == |text| && Holds(out, Trunc(text, out.Length))
      else wrote == -1 && out[..] == old(out[..])
  {
    var k, m;
    var ok, e := EscapeField(id, 2 * MAX_ID);
    if ok {
      ok, k := EscapeField(kind, 128);
    }
    if ok {
      ok, m := EscapeField(message, 256);
    }
    if !ok {
      return -1;
    }
    var text := Concat(["{\"jsonrpc\":\"2.0\",\"id\":\"", e, "\",\"error\":{\"code\":",
            Number(code),
            ",\"message\":\"", m, "\",\"data\":{\"kind\":\"", k, "\"", data, "}}}\n"]);
    var whole := Snprintf(out, 0, text, "");
    assert "" + text == text;
    wrote := |text|;
  }

  /** Every id that was parsed can be answered: its escape fits the scratch buffer. */
  lemma ParsedIdFits(id: string)
    requires Encodable(id) && |id| < MAX_ID
    ensures |Escape(id)| < 2 * MAX_ID
  {
    EscapeAtMostDoubles(id);
  }

  /** The exact length of an answer; so it is sent whole exactly when the escaped id and
      the payload leave room for the 36 bytes around them. */
  lemma AnswerWhole(id: string, payload: string)
    ensures |ResultText(id, payload)| == |Escape(id)| + |payload| + 36
    ensures Trunc(ResultText(id, payload), MAX_RESPONSE) == ResultText(id, payload)
            <==> |Escape(id)| + |payload| < MAX_RESPONSE - 36
  {
    hide Escape;
    ConcatFive("{\"jsonrpc\":\"2.0\",\"id\":\"", Escape(id), "\",\"result\":", payload, "}\n");
  }

  /** Not every answer is whole: the longest id takes the room of a list that fits its
      own buffer, and the response loses its end. */
  lemma LongAnswerIsCut(id: string, list: string)
    requires |id| == MAX_ID - 1 && (forall i | 0 <= i < |id| :: id[i] == '"')
    requires 3972 <= |list| < MAX_RESPONSE
    ensures |ResultText(id, list)| >= MAX_RESPONSE
    ensures Trunc(ResultText(id, list), MAX_RESPONSE) != ResultText(id, list)
  {
    QuotesDouble(id);
    AnswerWhole(id, list);
  }

  lemma {:induction false} QuotesDouble(t: string)
    requires forall i | 0 <= i < |t| :: t[i] == '"'
    ensures |Escape(t)| == 2 * |t|
  {
    if t != "" {
      QuotesDouble(t[1..]);
    }
  }

  // ---- the list ---------------------------------------------------------------------

  function StatusNumber(s: Status): nat {
    match s
    case Pending => 0
    case Granted => 1
    case Rejected => 2
    case Executed => 3
  }

  function ItemText(i: nat, r: Record): string {
    Concat([if i == 0 then "" else ",", "{\"request_id\":\"", Escape(r.id), "\",\"method\":\"", Escape(r.name),
            "\",\"risk\":\"", Escape(r.risk), "\",\"status\":", Decimal(StatusNumber(r.status)),
            ",\"summary\":\"", Escape(r.summary), "\"}"])
  }

  function ItemsText(records: seq<Record>): string {
    if records == [] then ""
    else
      var n := |records| - 1;
      ItemsText(records[..n]) + ItemText(n, records[n])
  }

  const LIST_OPEN: string := "{\"pending\":["

  function ListText(records: seq<Record>): string {
    LIST_OPEN + ItemsText(records) + "]}"
  }

  predicate ItemFits(r: Record) {
    |Escape(r.id)| < 128 && |Escape(r.name)| < 128 && |Escape(r.risk)| < 64 && |Escape(r.summary)| < 512
  }

  predicate AllFit(records: seq<Record>) {
    forall i | 0 <= i < |records| :: ItemFits(records[i])
  }

  lemma {:induction false} ItemsGrow(records: seq<Record>, i: nat)
    requires i <= |records|
    ensures |ItemsText(records[..i])| <= |ItemsText(records)|
  {
    hide ItemText;
    if i == |records| {
      assert records[..i] == records;
    } else {
      var n := |records| - 1;
      ItemsGrow(records[..n], i);
      assert records[..n][..i] == records[..i];
    }
  }

  lemma ItemPrintable(i: nat, r: Record)
    ensures Printable(ItemText(i, r))
  {
    hide Escape, Concat;
    EscapePrintable(r.id);
    EscapePrintable(r.name);
    EscapePrintable(r.risk);
    EscapePrintable(r.summary);
    ConcatPrintable([if i == 0 then "" else ",", "{\"request_id\":\"", Escape(r.id), "\",\"method\":\"",
                     Escape(r.name), "\",\"risk\":\"", Escape(r.risk), "\",\"status\":",
                     Decimal(StatusNumber(r.status)), ",\"summary\":\"", Escape(r.summary), "\"}"]);
  }

  lemma {:induction false} ItemsPrintable(records: seq<Record>)
    ensures Printable(ItemsText(records))
  {
    hide ItemText;
    if records != [] {
      var n := |records| - 1;
      ItemsPrintable(records[..n]);
      ItemPrintable(n, records[n]);
    }
  }

  lemma ListPrintable(records: seq<Record>)
    ensures Printable(ListText(records))
  {
    ItemsPrintable(records);
  }

  method FieldsFit(r: Record) returns (ok: bool)
    ensures ok == ItemFits(r)
  {
    var e;
    ok, e := EscapeField(r.id, 128);
    if ok { ok, e := EscapeField(r.name, 128); }
    if ok { ok, e := EscapeField(r.risk, 64); }
    if ok { ok, e := EscapeField(r.summary, 512); }
  }

  /** One pass of the list loop: escapes the fields, then formats the item. */
  method AppendItem(i: nat, r: Record, used: nat, out: array<char>, ghost t: string) returns (ok: bool)
    requires used == |t| < out.Length && out[..used] == t
    modifies out
    ensures ok == (ItemFits(r) && used + |ItemText(i, r)| < out.Length)
    ensures ok ==> out[..used + |ItemText(i, r)|] == t + ItemText(i, r)
  {
    hide ItemFits, ItemText;
    ok := FieldsFit(r);
    if ok {
      ok := Snprintf(out, used, ItemText(i, r), t);
    }
  }

  lemma ListPrefix(records: seq<Record>, i: nat)
    requires i < |records|
    ensures ItemsText(records[..i + 1]) == ItemsText(records[..i]) + ItemText(i, records[i])
    ensures |ItemsText(records[..i + 1])| <= |ItemsText(records)|
  {
    hide ItemText;
    assert records[..i + 1][..i] == records[..i];
    ItemsGrow(records, i + 1);
  }

  /** `anything_approval_list_json`: succeeds exactly when every field fits its scratch
      buffer and the whole list fits the output, and then the output is the whole list. */
  method ListJson(store: Store, out: array<char>) returns (ok: bool)
    requires store.Valid()
    modifies out
    ensures ok == (AllFit(store.Contents()) && |ListText(store.Contents())| < out.Length)
    ensures ok ==> Holds(out, ListText(store.Contents()))
  {
    hide ItemFits, ItemText, ItemsText;
    ghost var all := store.Contents();
    ghost var t := LIST_OPEN;
    if out.Length == 0 {
      return false;
    }
    assert "" + t == t;
    ok := Snprintf(out, 0, LIST_OPEN, "");
    if !ok {
      return;
    }
    var used := |LIST_OPEN|;
    var i := 0;
    assert all[..0] == [];
    NoItems();
    while i < store.count
      invariant 0 <= i <= store.count && store.Contents() == all
      invariant used == |t| < out.Length && out[..used] == t
      invariant t == LIST_OPEN + ItemsText(all[..i])
      invariant forall j | 0 <= j < i :: ItemFits(all[j])
    {
      var r := store.slots[i];
      assert all[i] == r;
      ListPrefix(all, i);
      ok := AppendItem(i, r, used, out, t);
      if !ok {
        return;
      }
      assert LIST_OPEN + (ItemsText(all[..i]) + ItemText(i, r)) == t + ItemText(i, r);
      t := t + ItemText(i, r);
      used := used + |ItemText(i, r)|;
      i := i + 1;
    }
    assert all[..i] == all;
    ok := Snprintf(out, used, "]}", t);
  }

  lemma NoItems()
    ensures ItemsText([]) == "" && LIST_OPEN + "" == LIST_OPEN
  {}
}
