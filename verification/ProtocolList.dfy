/** The answer to `approval.list` in the states that runs reach. */
module ProtocolList {
  import opened Bytes
  import opened JsonString
  import opened Config
  import opened Policy
  import opened RpcGrammar
  import opened RpcReply
  import opened Approval
  import opened Protocol
  import opened ProtocolSteps
  import opened ProtocolRuns

  /** How many stored requests the 4096 byte list buffer has room for. */
  const MAX_LISTED: nat := 32

  lemma SummaryPlain()
    ensures Plain(SUMMARY) && |SUMMARY| == 43
  {
    SummaryHalves();
    hide Plain;
    PlainAppend("Read Linux system ", "information with sys.info");
    assert SUMMARY == "Read Linux system " + "information with sys.info";
  }

  lemma SummaryHalves()
    ensures Plain("Read Linux system ") && Plain("information with sys.info")
  {}

  lemma PlainAppend(t: string, u: string)
    requires Plain(t) && Plain(u)
    ensures Plain(t + u)
  {}

  lemma EscapedFields(cfg: Config, r: Record, n: nat)
    requires Sound(cfg, r) && n <= MAX_PENDING && r.id == RequestId(n)
    ensures Escape(r.id) == r.id && |Escape(r.name)| == 8 && |Escape(r.risk)| == 3 && |Escape(r.summary)| == 43
    ensures ItemFits(r)
  {
    hide Escape, Plain;
    RequestIdPlain(n);
    EscapePlain(r.id);
    RequestIdFits(n);
    ExecutionNamesPlain();
    ShortPlainIsPlain("sys.info");
    ShortPlainIsPlain("low");
    SummaryPlain();
    EscapePlain(SUMMARY);
  }

  lemma ShortPlainIsPlain(t: string)
    requires ShortPlain(t)
    ensures Escape(t) == t
  {
    EscapePlain(t);
  }

  lemma ConcatLength(a: string, parts: seq<string>)
    ensures Concat([a] + parts) == a + Concat(parts) && |Concat([a] + parts)| == |a| + |Concat(parts)|
  {
    assert ([a] + parts)[1..] == parts;
  }

  /** The length of an item whose fields have these lengths. */
  lemma ItemLength(i: nat, r: Record)
    ensures |ItemText(i, r)| == (if i == 0 then 0 else 1) + 62 +
      |Escape(r.id)| + |Escape(r.name)| + |Escape(r.risk)| + |Escape(r.summary)| + |Decimal(StatusNumber(r.status))|
  {
    hide Escape, Concat, Decimal;
    var comma := if i == 0 then "" else ",";
    var p9 := ["\"}"];
    var p8 := [Escape(r.summary)] + p9;
    var p7 := [",\"summary\":\""] + p8;
    var p6 := [Decimal(StatusNumber(r.status))] + p7;
    var p5 := ["\",\"status\":"] + p6;
    var p4 := [Escape(r.risk)] + p5;
    var p3 := ["\",\"risk\":\""] + p4;
    var p2 := [Escape(r.name)] + p3;
    var p1 := ["\",\"method\":\""] + p2;
    var p0 := [Escape(r.id)] + p1;
    var p := ["{\"request_id\":\""] + p0;
    assert [comma] + p ==
      [comma, "{\"request_id\":\"", Escape(r.id), "\",\"method\":\"", Escape(r.name), "\",\"risk\":\"",
       Escape(r.risk), "\",\"status\":", Decimal(StatusNumber(r.status)), ",\"summary\":\"",
       Escape(r.summary), "\"}"];
    ConcatOne("\"}");
    ConcatLength(Escape(r.summary), p9);
    ConcatLength(",\"summary\":\"", p8);
    ConcatLength(Decimal(StatusNumber(r.status)), p7);
    ConcatLength("\",\"status\":", p6);
    ConcatLength(Escape(r.risk), p5);
    ConcatLength("\",\"risk\":\"", p4);
    ConcatLength(Escape(r.name), p3);
    ConcatLength("\",\"method\":\"", p2);
    ConcatLength(Escape(r.id), p1);
    ConcatLength("{\"request_id\":\"", p0);
    ConcatLength(comma, p);
  }

  lemma ConcatOne(a: string)
    ensures Concat([a]) == a
  {
    assert Concat([a]) == a + Concat([]);
  }

  function Shown(n: nat): nat {
    if n < 10 then 1 else 2
  }

  lemma IdLength(n: nat)
    requires n < 100
    ensures |RequestId(n)| == 4 + Shown(n)
  {
    assert n >= 10 ==> |Decimal(n / 10)| == 1;
  }

  /** The length of the items of n sound records. */
  function ItemsLength(n: nat): nat {
    if n == 0 then 0 else 121 + (if n == 1 then 0 else 1) + Shown(n) + ItemsLength(n - 1)
  }

  lemma {:induction false} ItemsHaveLength(cfg: Config, records: seq<Record>)
    requires |records| <= MAX_PENDING
    requires forall k | 0 <= k < |records| :: records[k].id == RequestId(k + 1) && Sound(cfg, records[k])
    ensures |ItemsText(records)| == ItemsLength(|records|) && AllFit(records)
  {
    hide ItemText, ItemFits, Sound, RequestId, Escape, Decimal;
    if records != [] {
      var n := |records| - 1;
      ItemsHaveLength(cfg, records[..n]);
      EscapedFields(cfg, records[n], n + 1);
      ItemLength(n, records[n]);
      IdLength(n + 1);
      StatusDigit(records[n].status);
      forall k | 0 <= k <= n ensures ItemFits(records[k]) {
        EscapedFields(cfg, records[k], k + 1);
      }
    }
  }

  lemma StatusDigit(s: Status)
    ensures |Decimal(StatusNumber(s))| == 1
  {}

  lemma {:induction false} ItemsLengthClosed(n: nat)
    ensures 1 <= n < 10 ==> ItemsLength(n) == 123 * n - 1
    ensures n >= 9 ==> ItemsLength(n) == 124 * n - 10
  {
    if n > 1 {
      ItemsLengthClosed(n - 1);
    }
  }

  lemma ListLength(cfg: Config, st: State)
    requires Invariant(cfg, st)
    ensures AllFit(st.records) && |ListText(st.records)| == 14 + ItemsLength(|st.records|)
  {
    hide ItemsText, Sound;
    ItemsHaveLength(cfg, st.records);
    assert |LIST_OPEN| == 12;
  }

  /** The store holds 64 requests and never frees one, but the list buffer only has room
      for 32: `approval.list` is answered, with every request in it, exactly until the
      33rd request is stored, and refused for ever after. */
  lemma ListAnsweredUntilFull(cfg: Config, ins: seq<Input>, to: string)
    ensures var records := Run(cfg, ins).records;
      ListReply(records, to) == if |records| <= MAX_LISTED then Answer(to, Listing(ListText(records)))
                                else Error(to, ResourceLimit)
  {
    hide Run, ItemsLength, ListText, AllFit, Invariant;
    var st := Run(cfg, ins);
    Reachable(cfg, ins);
    ListLength(cfg, st);
    ItemsLengthClosed(|st.records|);
    if st.records == [] {
      NoItemsLength();
    }
  }

  lemma NoItemsLength()
    ensures ItemsLength(0) == 0
  {}

  /** And the answer reaches the peer whole, unless exactly 32 requests are stored and the
      escaped id of the listing request takes 88 bytes or more. */
  lemma ListSentWhole(cfg: Config, ins: seq<Input>, id: string)
    requires |Run(cfg, ins).records| <= MAX_LISTED && Encodable(id) && |id| < MAX_ID
    ensures var records := Run(cfg, ins).records; var text := ResultText(id, ListText(records));
      Trunc(text, MAX_RESPONSE) == text <==> |records| < MAX_LISTED || |Escape(id)| < 88
  {
    hide Run, ItemsLength, ListText, AllFit, Invariant, ResultText, Escape, Encodable;
    var st := Run(cfg, ins);
    Reachable(cfg, ins);
    ListLength(cfg, st);
    ItemsLengthClosed(|st.records|);
    NoItemsLength();
    ParsedIdFits(id);
    AnswerWhole(id, ListText(st.records));
  }
}
