/** Runs of printed commands: what the lines of the command line tool make the daemon do,
    from the bytes on the socket to the tool's result. */
module ProtocolCommands {
  import opened Bytes
  import opened JsonString
  import opened JsonScan
  import opened Config
  import opened Policy
  import opened RpcGrammar
  import opened RpcParse
  import opened RpcParams
  import opened RpcReply
  import opened Cli
  import opened Approval
  import opened Audit
  import opened Protocol
  import opened ProtocolSteps
  import opened ProtocolRuns
  import opened ProtocolAudit
  import opened ProtocolLog
  import opened ProtocolList
  import opened ProtocolDue
  import opened ProtocolOutcome

  // ---- single commands ------------------------------------------------------------------

  function Ask(session: string, user: Identity, now: int): Input {
    ToolSocket(user, CommandText("sys-info", session), now, true, true)
  }

  /** A command of an administrator; both audit writes go through. */
  function Command(command: string, arg: string, admin: Identity, now: int, info: Gathered): Input {
    AdminSocket(admin, CommandText(command, arg), now, true, true, info)
  }

  predicate ShortSession(session: string) {
    Plain(session) && |session| + 17 < MAX_PARAMS
  }

  lemma AskIsRead(session: string)
    requires ShortSession(session)
    ensures Parse(CommandText("sys-info", session)).Some?
    ensures Parse(CommandText("sys-info", session)).value == RequestOfCommand("sys-info", session)
    ensures Parse(CommandText("sys-info", session)).value.name == "sys.info"
    ensures Parse(CommandText("sys-info", session)).value.id == "1"
  {
    hide Parse, ParamsOf, CommandText, Plain, Extract;
    CommandRoundTrip("sys-info", session);
    ParamsLength("sys-info", session);
  }

  /** The commands about record k reach record k. */
  lemma CommandHitsTarget(cfg: Config, st: State, command: string, k: nat)
    requires Invariant(cfg, st) && k < |st.records| && command in {"approve", "reject", "execute"}
    ensures var p := Parse(CommandText(command, RequestId(k + 1)));
      && p.Some? && p.value.id == "1" && Target(st, p.value) == Some(k)
      && p.value.name == (if command == "approve" then "approval.approve"
                          else if command == "reject" then "approval.reject" else "approval.execute")
      && Extract(p.value.params, "request_id", MAX_REQUEST_ID) == Some(RequestId(k + 1))
  {
    hide Parse, ParamsOf, CommandText, Plain, Extract, RequestId, FindSlot, Sound;
    var id := RequestId(k + 1);
    RequestIdPlain(k + 1);
    RequestIdFits(k + 1);
    CommandRoundTrip(command, id);
    ParamsLength(command, id);
    FindExact(st.records, st.nextId, id, k);
  }

  lemma AskStep(cfg: Config, st: State, session: string, user: Identity, now: int)
    requires Invariant(cfg, st) && |st.records| < MAX_PENDING && cfg.sysRead && ShortSession(session)
    ensures var k := |st.records|; var o := Step(cfg, st, Ask(session, user, now));
      && o.act == Added(k, user, now) && |o.records| == k + 1 && o.records[..k] == st.records
      && var r := o.records[k];
      && r.id == RequestId(k + 1) && r.status == Pending && r.requester == user && r.expires == now + cfg.ttl
      && r == ProtocolOutcome.Asked(k, RequestOfCommand("sys-info", session), user, now + cfg.ttl)
      && o.reply == Error("1", NeedsApproval(r)) && Kinds(o.events) == [RequestReceived, ApprovalRequired]
  {
    hide Parse, CommandText, Step, Kinds, Sound, ReportsOrNot, IsToolResult, NeverRefused, RequestId, ShortSession;
    var inp := Ask(session, user, now);
    AskIsRead(session);
    ActIsDue(cfg, st, inp);
    StepEffect(cfg, st, inp);
    ToolStepLogged(cfg, st, inp);
    AskAnswers(cfg, st, inp);
    AskStores(cfg, st, session, user, now);
  }

  lemma AskStores(cfg: Config, st: State, session: string, user: Identity, now: int)
    requires Invariant(cfg, st) && ShortSession(session)
    requires Due(cfg, st, Ask(session, user, now)) == Added(|st.records|, user, now)
    ensures Step(cfg, st, Ask(session, user, now)).records == st.records +
      [ProtocolOutcome.Asked(|st.records|, RequestOfCommand("sys-info", session), user, now + cfg.ttl)]
  {
    hide Parse, CommandText, RequestOfCommand, Step, Invariant, Due, DueLog, DueReply, ProtocolOutcome.Asked;
    AskIsRead(session);
    OutcomeIsDue(cfg, st, Ask(session, user, now));
  }

  lemma AskAnswers(cfg: Config, st: State, inp: Input)
    requires inp.ToolSocket? && Parse(inp.body).Some? && Parse(inp.body).value.id == "1"
    ensures Step(cfg, st, inp).reply.to == "1"
  {
    hide Parse, CanWrite, NewRecord, RequiredFits, Preflight;
  }

  /** Granting and rejecting by command. */
  lemma ApproveStep(cfg: Config, st: State, k: nat, admin: Identity, now: int, info: Gathered)
    requires Invariant(cfg, st) && k < |st.records| && IsAdmin(cfg, admin) && admin != st.records[k].requester
    requires st.records[k].status == Pending && now <= st.records[k].expires
    ensures var o := Step(cfg, st, Command("approve", RequestId(k + 1), admin, now, info));
      && o.act == Granting(k, admin, now)
      && o.records == st.records[k := st.records[k].(approver := admin, status := Granted)]
      && o.reply == Answer("1", ApprovedNote) && Kinds(o.events) == [ApprovalGranted]
  {
    hide Parse, CommandText, Extract, FindSlot, Kinds, Sound, CanWrite, RequestId, IsAdmin, ShortPlain;
    var inp := Command("approve", RequestId(k + 1), admin, now, info);
    CommandHitsTarget(cfg, st, "approve", k);
    SlotStepsLogged(cfg, st, admin, "1", Some(k), now, true, true, info);
    SlotAuditFailure(cfg, st, admin, "1", Some(k), now, info);
    assert Step(cfg, st, inp) == ApproveSlot(st, admin, "1", Some(k), now, true);
  }

  lemma RejectStep(cfg: Config, st: State, k: nat, admin: Identity, now: int, info: Gathered)
    requires Invariant(cfg, st) && k < |st.records| && IsAdmin(cfg, admin) && admin != st.records[k].requester
    ensures var o := Step(cfg, st, Command("reject", RequestId(k + 1), admin, now, info));
      && o.act == Rejecting(k, admin, now)
      && o.records == st.records[k := st.records[k].(approver := admin, status := Rejected)]
      && o.reply == Answer("1", RejectedNote) && Kinds(o.events) == [ApprovalRejected]
  {
    hide Parse, CommandText, Extract, FindSlot, Kinds, Sound, CanWrite, RequestId, IsAdmin, ShortPlain;
    var inp := Command("reject", RequestId(k + 1), admin, now, info);
    CommandHitsTarget(cfg, st, "reject", k);
    SlotStepsLogged(cfg, st, admin, "1", Some(k), now, true, true, info);
    SlotAuditFailure(cfg, st, admin, "1", Some(k), now, info);
    assert Step(cfg, st, inp) == RejectSlot(st, admin, "1", Some(k), now, true);
  }

  /** Executing by command: the tool's text is in the reply. */
  lemma ExecuteStep(cfg: Config, st: State, k: nat, admin: Identity, now: int, text: string)
    requires Invariant(cfg, st) && k < |st.records| && IsAdmin(cfg, admin)
    requires st.records[k].status == Granted && now <= st.records[k].expires
    ensures var o := Step(cfg, st, Command("execute", RequestId(k + 1), admin, now, Info(text)));
      && o.act == Running(k, admin, now, true)
      && o.records == st.records[k := st.records[k].(status := Executed)]
      && o.reply == Answer("1", SysInfo(RequestId(k + 1), text))
      && Kinds(o.events) == [ExecutionStarted, ExecutionFinished]
  {
    hide Parse, CommandText, Extract, FindSlot, Kinds, CanWrite, RequestId, IsAdmin, ShortPlain, ExecuteSlot, Invariant;
    var inp := Command("execute", RequestId(k + 1), admin, now, Info(text));
    CommandHitsTarget(cfg, st, "execute", k);
    SlotStepsLogged(cfg, st, admin, "1", Some(k), now, true, true, Info(text));
    assert Step(cfg, st, inp) == ExecuteSlot(cfg, st, admin, "1", Some(k), now, true, true, Info(text));
    ExecuteSlotRuns(cfg, st, k, admin, now, text);
  }

  lemma ExecuteSlotRuns(cfg: Config, st: State, k: nat, admin: Identity, now: int, text: string)
    requires Invariant(cfg, st) && k < |st.records|
    requires st.records[k].status == Granted && now <= st.records[k].expires
    ensures var o := ExecuteSlot(cfg, st, admin, "1", Some(k), now, true, true, Info(text));
      && o.act == Running(k, admin, now, true)
      && o.records == st.records[k := st.records[k].(status := Executed)]
      && o.reply == Answer("1", SysInfo(RequestId(k + 1), text))
  {
    hide CanWrite, Sound, ToRequest, Preflight, RequestId, ShortPlain;
    var r := st.records[k];
    CopyIsLossless(cfg, r);
    DecisionsPlain();
    ExecutionNamesPlain();
    SummaryIsShort(cfg, st, k);
    StepEventFits(cfg, st, k, ExecutionStarted, admin, "started", "", r.summary, Granted);
    StepEventFits(cfg, st, k, ExecutionFinished, admin, "finished", "", r.summary, Granted);
  }

  // ---- runs of commands -------------------------------------------------------------------

  lemma RunOneMore(cfg: Config, ins: seq<Input>, inp: Input)
    ensures Run(cfg, ins + [inp]) == After(Run(cfg, ins), Step(cfg, Run(cfg, ins), inp))
    ensures Acts(cfg, ins + [inp]) == Acts(cfg, ins) + [Step(cfg, Run(cfg, ins), inp).act]
    ensures Invariant(cfg, Run(cfg, ins)) && Invariant(cfg, Run(cfg, ins + [inp]))
  {
    hide Step, Invariant;
    assert (ins + [inp])[..|ins|] == ins;
    Reachable(cfg, ins);
    Reachable(cfg, ins + [inp]);
  }

  /** The sys-info line of a user, then the approve and execute lines of an administrator
      for the id that the user was told. */
  function Session(k: nat, session: string, user: Identity, t0: int, admin: Identity, t1: int, t2: int,
                   text: string): seq<Input> {
    [Ask(session, user, t0), Command("approve", RequestId(k + 1), admin, t1, UnameFailed),
     Command("execute", RequestId(k + 1), admin, t2, Info(text))]
  }

  /** From the bytes of three printed lines to the tool's output, after any run that leaves
      a slot free: with the capability on, an administrator other than the requester,
      clocks within the time to live and audit writes that succeed, the lines add, grant
      and run the next record, the replies say so and the last one carries the text. */
  lemma CommandsRunTool(cfg: Config, ins: seq<Input>, session: string, user: Identity, t0: int,
                        admin: Identity, t1: int, t2: int, text: string)
    requires cfg.sysRead && ShortSession(session) && |Run(cfg, ins).records| < MAX_PENDING
    requires IsAdmin(cfg, admin) && admin != user && t1 <= t0 + cfg.ttl && t2 <= t0 + cfg.ttl
    ensures var k := |Run(cfg, ins).records|;
      var all := ins + Session(k, session, user, t0, admin, t1, t2, text);
      && Acts(cfg, all) == Acts(cfg, ins) + [Added(k, user, t0), Granting(k, admin, t1), Running(k, admin, t2, true)]
      && |Run(cfg, all).records| == k + 1 && Run(cfg, all).records[k].status == Executed
      && Run(cfg, all).records[k] == ProtocolOutcome.Asked(k, RequestOfCommand("sys-info", session), user, t0 + cfg.ttl)
                                       .(approver := admin, status := Executed)
      && Run(cfg, all).records[k].session == SessionOf("sys-info", session)
      && |Run(cfg, all).sent| == |ins| + 3
      && Run(cfg, all).sent[|ins|].to == "1" && Run(cfg, all).sent[|ins|].Error?
      && Run(cfg, all).sent[|ins|].kind.NeedsApproval? && Run(cfg, all).sent[|ins|].kind.record.id == RequestId(k + 1)
      && Run(cfg, all).sent[|ins| + 1] == Answer("1", ApprovedNote)
      && Run(cfg, all).sent[|ins| + 2] == Answer("1", SysInfo(RequestId(k + 1), text))
  {
    hide Run, Acts, Step, Invariant, Ask, Command, RequestId, IsAdmin, ShortSession, Kinds, ParamsOf;
    var k := |Run(cfg, ins).records|;
    var a, b, c := Ask(session, user, t0), Command("approve", RequestId(k + 1), admin, t1, UnameFailed),
                   Command("execute", RequestId(k + 1), admin, t2, Info(text));
    RunOneMore(cfg, ins, a);
    AskStep(cfg, Run(cfg, ins), session, user, t0);
    RunOneMore(cfg, ins + [a], b);
    ApproveStep(cfg, Run(cfg, ins + [a]), k, admin, t1, UnameFailed);
    RunOneMore(cfg, ins + [a] + [b], c);
    ExecuteStep(cfg, Run(cfg, ins + [a] + [b]), k, admin, t2, text);
    assert ins + [a] + [b] + [c] == ins + Session(k, session, user, t0, admin, t1, t2, text);
    SentOfRun(cfg, ins);
  }

  lemma SentOfRun(cfg: Config, ins: seq<Input>)
    ensures |Run(cfg, ins).sent| == |ins|
  {
    hide Step;
    if ins != [] {
      OneReplyEach(cfg, ins, 0);
    }
  }

  /** And one more line takes the executed record to REJECTED: EXECUTED is reached by real
      requests and left by one, whatever the clock says. */
  lemma CommandsRejectExecuted(cfg: Config, ins: seq<Input>, session: string, user: Identity, t0: int,
                               admin: Identity, t1: int, t2: int, t3: int, text: string)
    requires cfg.sysRead && ShortSession(session) && |Run(cfg, ins).records| < MAX_PENDING
    requires IsAdmin(cfg, admin) && admin != user && t1 <= t0 + cfg.ttl && t2 <= t0 + cfg.ttl
    ensures var k := |Run(cfg, ins).records|;
      var all := ins + Session(k, session, user, t0, admin, t1, t2, text);
      var more := all + [Command("reject", RequestId(k + 1), admin, t3, UnameFailed)];
      && k < |Run(cfg, all).records| && Run(cfg, all).records[k].status == Executed
      && k < |Run(cfg, more).records| && Run(cfg, more).records[k].status == Rejected
  {
    hide Run, Acts, Step, Invariant, Command, Session, RequestId, IsAdmin, ShortSession, Kinds;
    var k := |Run(cfg, ins).records|;
    var all := ins + Session(k, session, user, t0, admin, t1, t2, text);
    CommandsRunTool(cfg, ins, session, user, t0, admin, t1, t2, text);
    RunOneMore(cfg, all, Command("reject", RequestId(k + 1), admin, t3, UnameFailed));
    RejectStep(cfg, Run(cfg, all), k, admin, t3, UnameFailed);
  }

  // ---- a full list --------------------------------------------------------------------------

  /** A readable sys.info request on the tool socket whose receipt reaches the log. */
  predicate Asks(inp: Input) {
    inp.ToolSocket? && inp.io1 && Parse(inp.body).Some? && Parse(inp.body).value.name == "sys.info"
  }

  /** Such requests fill the store one by one, up to its 64 slots. */
  lemma {:induction false} AsksFillStore(cfg: Config, ins: seq<Input>)
    requires cfg.sysRead && forall k | 0 <= k < |ins| :: Asks(ins[k])
    ensures |Run(cfg, ins).records| == if |ins| <= MAX_PENDING then |ins| else MAX_PENDING
  {
    hide Run, Step, Asks, Invariant;
    if ins == [] {
      EmptyRun(cfg);
    } else {
      var before, inp := ins[..|ins| - 1], ins[|ins| - 1];
      assert before + [inp] == ins;
      AsksFillStore(cfg, before);
      RunOneMore(cfg, before, inp);
      OneMoreAsk(cfg, Run(cfg, before), inp);
    }
  }

  lemma EmptyRun(cfg: Config)
    ensures Run(cfg, []) == INITIAL
  {}

  lemma OneMoreAsk(cfg: Config, st: State, inp: Input)
    requires Invariant(cfg, st) && cfg.sysRead && Asks(inp)
    ensures |Step(cfg, st, inp).records| == |st.records| + if |st.records| < MAX_PENDING then 1 else 0
  {
    hide Parse, Step, Sound, ReportsOrNot, IsToolResult, NeverRefused;
    ActIsDue(cfg, st, inp);
    StepEffect(cfg, st, inp);
  }

  /** The pending line of an administrator: the reply is the list of the store, the store
      is as before, and the log holds nothing about it although both writes would succeed. */
  lemma PendingStep(cfg: Config, st: State, arg: string, admin: Identity, now: int, info: Gathered)
    requires Invariant(cfg, st) && IsAdmin(cfg, admin) && Plain(arg)
    ensures var o := Step(cfg, st, Command("pending", arg, admin, now, info));
      o.reply == ListReply(st.records, "1") && o.records == st.records && o.act == Quiet && o.events == []
  {
    hide Parse, ParamsOf, CommandText, Plain, Extract, IsAdmin, ListReply, Invariant;
    CommandRoundTrip("pending", arg);
    ParamsLength("pending", arg);
  }

  /** Whoever sends n sys-info lines and then lists them gets all of them for n <= 32, and
      an error for more: the limit is reached by printed lines. */
  lemma CommandsFillList(cfg: Config, ins: seq<Input>, admin: Identity, now: int)
    requires cfg.sysRead && IsAdmin(cfg, admin) && forall k | 0 <= k < |ins| :: Asks(ins[k])
    ensures var all := ins + [Command("pending", "", admin, now, UnameFailed)];
      && |Run(cfg, all).sent| == |ins| + 1
      && Run(cfg, all).sent[|ins|] == if |ins| <= MAX_LISTED then Answer("1", Listing(ListText(Run(cfg, ins).records)))
                                      else Error("1", ResourceLimit)
  {
    hide Run, Step, Invariant, Command, IsAdmin, Asks, ListText, Acts, Kinds;
    AsksFillStore(cfg, ins);
    RunOneMore(cfg, ins, Command("pending", "", admin, now, UnameFailed));
    PendingStep(cfg, Run(cfg, ins), "", admin, now, UnameFailed);
    ListAnsweredUntilFull(cfg, ins, "1");
    SentOfRun(cfg, ins);
  }

  /** Every printed sys-info line is such a request. */
  lemma CommandAsks(session: string, user: Identity, now: int)
    requires ShortSession(session)
    ensures Asks(Ask(session, user, now))
  {
    AskIsRead(session);
  }

  // ---- requests that leave no trace ------------------------------------------------------------

  /** A requester who approves their own record is denied without a trace in the log,
      although every write would succeed; so is an empty body on either socket. */
  lemma DeniedWithoutTrace(cfg: Config, st: State, k: nat, now: int, info: Gathered)
    requires Invariant(cfg, st) && k < |st.records| && IsAdmin(cfg, st.records[k].requester)
    ensures var o := Step(cfg, st, Command("approve", RequestId(k + 1), st.records[k].requester, now, info));
      o.reply.Error? && o.reply.kind.Refused? && o.events == [] && o.records == st.records
    ensures Step(cfg, st, ToolSocket(st.records[k].requester, "", now, true, true)).events == []
    ensures Step(cfg, st, AdminSocket(st.records[k].requester, "", now, true, true, info)).events == []
  {
    hide Parse, CommandText, Extract, FindSlot, Sound, RequestId, IsAdmin, Kinds;
    CommandHitsTarget(cfg, st, "approve", k);
    EmptyBody();
  }

  lemma EmptyBody()
    ensures Parse("") == None
  {}
}
