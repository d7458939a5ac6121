/** The whole outcome of every request, written out once more from the promises: what is
    stored, what is logged field by field, and what is answered, by the request, its peer,
    the clock, the named record, the two audit writes and the tool's outcome alone. */
module ProtocolOutcome {
  import opened Bytes
  import opened JsonString
  import opened Config
  import opened Policy
  import opened RpcGrammar
  import opened RpcParse
  import opened RpcParams
  import opened RpcHash
  import opened RpcReply
  import opened Approval
  import opened Audit
  import opened Protocol
  import opened ProtocolSteps
  import opened ProtocolRuns
  import opened ProtocolAudit
  import opened ProtocolList
  import opened ProtocolLog
  import opened ProtocolDue

  const TOOL := "sys.info"
  const RISK := "low"
  const PURPOSE := "Read Linux system information with sys.info"

  /** The record of the k-th request for approval: the request itself, and who must wait
      until when. */
  function Asked(k: nat, q: Request, who: Identity, expires: int): Record {
    Record("req_" + Decimal(k + 1), q.hash, who, Identity(0, 0, 0), q.session, q.name, q.params,
           RISK, PURPOSE, expires, Pending)
  }

  function DueRecords(cfg: Config, st: State, inp: Input): seq<Record> {
    match Due(cfg, st, inp)
    case Quiet => st.records
    case Added(i, who, at) =>
      if Parse(inp.body).Some? then st.records + [Asked(i, Parse(inp.body).value, who, at + cfg.ttl)] else []
    case Granting(i, who, at) =>
      if i < |st.records| then st.records[i := st.records[i].(approver := who, status := Granted)] else []
    case Rejecting(i, who, at) =>
      if i < |st.records| then st.records[i := st.records[i].(approver := who, status := Rejected)] else []
    case Running(i, who, at, ok) =>
      if ok && i < |st.records| then st.records[i := st.records[i].(status := Executed)] else st.records
  }

  // ---- what is answered -------------------------------------------------------------------

  function IfWritten(io: bool, reply: Reply): Reply {
    if io then reply else Error(reply.to, AuditFailed)
  }

  function ToolReply(cfg: Config, st: State, inp: Input, q: Request): Reply {
    if !inp.io1 then Error(q.id, AuditFailed)
    else if "approval." <= q.name then IfWritten(inp.io2, Error(q.id, ControlPlaneDenied))
    else if q.name != TOOL then IfWritten(inp.io2, Error(q.id, Denied("unknown_tool")))
    else if !cfg.sysRead then IfWritten(inp.io2, Error(q.id, Denied("policy_denied")))
    else if |st.records| >= 64 then Error(q.id, ResourceLimit)
    else IfWritten(inp.io2, Error(q.id, NeedsApproval(Asked(|st.records|, q, inp.peer, inp.now + cfg.ttl))))
  }

  /** The answer to an approval of a record: refusals in this order. */
  function ApproveReply(r: Record, to: string, inp: Input): Reply {
    if r.status != Pending then Error(to, ErrorKind.Refused(NotPending))
    else if inp.now > r.expires then Error(to, ErrorKind.Refused(Denial.Expired))
    else if inp.peer == r.requester then Error(to, ErrorKind.Refused(SameIdentity))
    else IfWritten(inp.io1, Answer(to, ApprovedNote))
  }

  function RejectReply(r: Record, to: string, inp: Input): Reply {
    if inp.peer == r.requester then Error(to, ErrorKind.Refused(SameIdentity))
    else IfWritten(inp.io1, Answer(to, RejectedNote))
  }

  function ExecuteReply(r: Record, to: string, inp: Input): Reply
    requires inp.AdminSocket?
  {
    if r.status == Rejected then Error(to, ErrorKind.Refused(WasRejected))
    else if r.status != Granted then Error(to, ErrorKind.Refused(NotGranted))
    else if inp.now > r.expires then Error(to, ErrorKind.Refused(Denial.Expired))
    else if !inp.io1 then Error(to, AuditFailed)
    else
      IfWritten(inp.io2,
                match inp.info
                case Info(text) => Answer(to, SysInfo(r.id, text))
                case UnameFailed => Error(to, ToolFailed("uname failed"))
                case EscapingFailed => Error(to, ToolFailed("sys.info JSON escaping failed"))
                case OutputTooLarge => Error(to, ToolFailed("sys.info output exceeded buffer")))
  }

  function AdminReply(cfg: Config, st: State, inp: Input, q: Request): Reply
    requires inp.AdminSocket?
  {
    if !IsAdmin(cfg, inp.peer) then IfWritten(inp.io1, Error(q.id, ControlPlaneDenied))
    else if q.name == "approval.list" then
      if |st.records| <= 32 then Answer(q.id, Listing(ListText(st.records))) else Error(q.id, ResourceLimit)
    else if Extract(q.params, "request_id", 40).None? then Error(q.id, InvalidParams)
    else if q.name !in {"approval.approve", "approval.reject", "approval.execute"} then Error(q.id, UnknownTool)
    else if Target(st, q).None? then Error(q.id, ErrorKind.Refused(NotFound))
    else
      var r := st.records[Target(st, q).value];
      if q.name == "approval.approve" then ApproveReply(r, q.id, inp)
      else if q.name == "approval.reject" then RejectReply(r, q.id, inp)
      else ExecuteReply(r, q.id, inp)
  }

  function DueReply(cfg: Config, st: State, inp: Input): Reply {
    match Parse(inp.body)
    case None => Error("null", InvalidRequest)
    case Some(q) => if inp.ToolSocket? then ToolReply(cfg, st, inp, q) else AdminReply(cfg, st, inp, q)
  }

  // ---- what is logged ---------------------------------------------------------------------

  /** The denial of a request before anything is stored. */
  function DeniedEvent(q: Request, who: Identity, reason: string, summary: string): Event {
    Event(PreflightDenied, "", q.session, who, None, q.name, "denied", "deny", reason, summary)
  }

  function ToolLog(cfg: Config, st: State, inp: Input, q: Request): seq<Event> {
    if !inp.io1 then []
    else
      [Event(RequestReceived, "", q.session, inp.peer, None, q.name, "", "received", "", "bounded request")] +
        if !inp.io2 then []
        else if "approval." <= q.name then
          [DeniedEvent(q, inp.peer, "control_plane_denied", "agent tool socket cannot access approval methods")]
        else if q.name != TOOL then [DeniedEvent(q, inp.peer, "unknown_tool", "Unknown method " + q.name)]
        else if !cfg.sysRead then
          [DeniedEvent(q, inp.peer, "policy_denied", "sys.info denied because capabilities.sys_read is disabled")]
        else if |st.records| >= 64 then []
        else
          [Event(ApprovalRequired, "req_" + Decimal(|st.records| + 1), q.session, inp.peer, None, TOOL, RISK,
                 "approval_required", "", PURPOSE)]
  }

  /** An event about a stored record: the caller is the requester, the approver the admin
      who acts. */
  function On(r: Record, kind: EventKind, admin: Identity, decision: string, errorKind: string,
              summary: string): Event {
    Event(kind, r.id, r.session, r.requester, Some(admin), TOOL, RISK, decision, errorKind, summary)
  }

  function FailureText(info: Gathered): string {
    match info
    case Info(_) => ""
    case UnameFailed => "uname failed"
    case EscapingFailed => "sys.info JSON escaping failed"
    case OutputTooLarge => "sys.info output exceeded buffer"
  }

  function AdminLog(cfg: Config, st: State, inp: Input, q: Request): seq<Event>
    requires inp.AdminSocket?
  {
    if !IsAdmin(cfg, inp.peer) then
      if inp.io1 then [DeniedEvent(q, inp.peer, "control_plane_denied", "admin caller is not in allowlist")] else []
    else
      match Due(cfg, st, inp)
      case Quiet => []
      case Added(_, _, _) => []
      case Granting(i, who, at) =>
        if !inp.io1 || i >= |st.records| then []
        else [On(st.records[i], ApprovalGranted, inp.peer, "granted", "", PURPOSE)]
      case Rejecting(i, who, at) =>
        if !inp.io1 || i >= |st.records| then []
        else [On(st.records[i], ApprovalRejected, inp.peer, "rejected", "", PURPOSE)]
      case Running(i, who, at, ok) =>
        if i >= |st.records| then [] else RunLog(st.records[i], inp)
  }

  function RunLog(r: Record, inp: Input): seq<Event>
    requires inp.AdminSocket?
  {
    [On(r, ExecutionStarted, inp.peer, "started", "", PURPOSE)] +
      if !inp.io2 then []
      else if inp.info.Info? then [On(r, ExecutionFinished, inp.peer, "finished", "", PURPOSE)]
      else [On(r, ExecutionFailed, inp.peer, "failed", "execution_failed", FailureText(inp.info))]
  }

  function DueLog(cfg: Config, st: State, inp: Input): seq<Event> {
    match Parse(inp.body)
    case None => []
    case Some(q) => if inp.ToolSocket? then ToolLog(cfg, st, inp, q) else AdminLog(cfg, st, inp, q)
  }

  /** The outcome as it is promised. */
  function DueOutcome(cfg: Config, st: State, inp: Input): Outcome {
    var act := Due(cfg, st, inp);
    Outcome(DueRecords(cfg, st, inp), st.nextId + (if act.Added? then 1 else 0), DueLog(cfg, st, inp),
            DueReply(cfg, st, inp), act)
  }

  // ---- the step keeps the promise: tool socket ----------------------------------------------

  lemma NewRecordIsAsked(cfg: Config, body: string, n: nat, who: Identity, expires: int)
    requires Parse(body).Some? && 0 < n <= MAX_PENDING
    requires var q := Parse(body).value; q.name == TOOL && cfg.sysRead
    ensures var q := Parse(body).value;
      NewRecord(n, q, Preflight(cfg, q), who, expires) == Asked(n - 1, q, who, expires)
  {
    hide HashOf, Parse, Decimal;
    ParsedFits(body);
    RequestIdFits(n);
    assert Trunc(SUMMARY, 256) == SUMMARY;
  }

  lemma ToolOutcome(cfg: Config, st: State, inp: Input)
    requires Invariant(cfg, st) && inp.ToolSocket?
    ensures Step(cfg, st, inp) == DueOutcome(cfg, st, inp)
  {
    hide Parse, Step, ToolRoute, ToolLog, ToolReply, Invariant, Approvable;
    if Parse(inp.body).None? {
      UnreadableTool(cfg, st, inp);
    } else {
      ReceiptComesFirst(cfg, st, inp);
      if inp.io1 {
        ToolRouteOutcome(cfg, st, inp);
      }
      NothingReceived(cfg, st, inp);
    }
  }

  lemma NothingReceived(cfg: Config, st: State, inp: Input)
    requires Parse(inp.body).Some?
    ensures var q := Parse(inp.body).value;
      !inp.io1 ==> ToolLog(cfg, st, inp, q) == [] && ToolReply(cfg, st, inp, q) == Error(q.id, AuditFailed)
  {
    hide Parse;
  }

  lemma ToolRouteOutcome(cfg: Config, st: State, inp: Input)
    requires Invariant(cfg, st) && inp.ToolSocket? && Parse(inp.body).Some? && inp.io1
    ensures var q := Parse(inp.body).value;
      var o := ToolRoute(cfg, st, inp.peer, q, inp.now, inp.io2, [ReceivedEvent(q, inp.peer)]);
      && o.events == ToolLog(cfg, st, inp, q) && o.reply == ToolReply(cfg, st, inp, q)
      && (if Approvable(cfg, st, q)
          then && o.act == Added(|st.records|, inp.peer, inp.now) && o.nextId == st.nextId + 1
               && o.records == st.records + [Asked(|st.records|, q, inp.peer, inp.now + cfg.ttl)]
          else o.act == Quiet && o.records == st.records && o.nextId == st.nextId)
  {
    hide Parse, CanWrite, NewRecord, RequiredFits, Decimal, Invariant, RequestId, HashOf, Encodable;
    var q := Parse(inp.body).value;
    ParsedFits(inp.body);
    RequestEventsFit(cfg, inp.body, inp.peer);
    ToolNameIsNotApproval();
    NextIdCounts(cfg, st);
    assert Trunc("Unknown method " + q.name, 256) == "Unknown method " + q.name;
    if Approvable(cfg, st, q) {
      NewRecordFits(cfg, inp.body, st.nextId, inp.peer, inp.now + cfg.ttl);
      NewRecordIsAsked(cfg, inp.body, st.nextId, inp.peer, inp.now + cfg.ttl);
    }
  }

  lemma NextIdCounts(cfg: Config, st: State)
    requires Invariant(cfg, st)
    ensures st.nextId == |st.records| + 1 <= MAX_PENDING + 1
  {}

  // ---- and on the admin socket --------------------------------------------------------------

  lemma SoundNames(cfg: Config, st: State, i: nat)
    requires Invariant(cfg, st) && i < |st.records|
    ensures var r := st.records[i]; r.name == TOOL && r.risk == RISK && r.summary == PURPOSE
  {
    hide HashOf;
  }

  lemma ApproveOutcome(cfg: Config, st: State, inp: Input, to: string, i: nat)
    requires Invariant(cfg, st) && inp.AdminSocket? && i < |st.records|
    ensures var o := ApproveSlot(st, inp.peer, to, Some(i), inp.now, inp.io1); var r := st.records[i];
      var act := DueOn(r, i, "approval.approve", inp);
      && o.act == act && o.nextId == st.nextId && o.reply == ApproveReply(r, to, inp)
      && (act == Quiet ==> o.records == st.records && o.events == [])
      && (act != Quiet ==>
            && act.Granting? && o.records == st.records[i := r.(approver := inp.peer, status := Granted)]
            && o.events == if inp.io1 then [On(r, ApprovalGranted, inp.peer, "granted", "", PURPOSE)] else [])
  {
    hide CanWrite, ShortPlain, RequestId, Invariant, Sound;
    DecisionsPlain();
    ExecutionNamesPlain();
    SummaryIsShort(cfg, st, i);
    SoundNames(cfg, st, i);
    StepEventFits(cfg, st, i, ApprovalGranted, inp.peer, "granted", "", st.records[i].summary, Granted);
  }

  lemma RejectOutcome(cfg: Config, st: State, inp: Input, to: string, i: nat)
    requires Invariant(cfg, st) && inp.AdminSocket? && i < |st.records|
    ensures var o := RejectSlot(st, inp.peer, to, Some(i), inp.now, inp.io1); var r := st.records[i];
      var act := DueOn(r, i, "approval.reject", inp);
      && o.act == act && o.nextId == st.nextId && o.reply == RejectReply(r, to, inp)
      && (act == Quiet ==> o.records == st.records && o.events == [])
      && (act != Quiet ==>
            && act.Rejecting? && o.records == st.records[i := r.(approver := inp.peer, status := Rejected)]
            && o.events == if inp.io1 then [On(r, ApprovalRejected, inp.peer, "rejected", "", PURPOSE)] else [])
  {
    hide CanWrite, ShortPlain, RequestId, Invariant, Sound;
    DecisionsPlain();
    ExecutionNamesPlain();
    SummaryIsShort(cfg, st, i);
    SoundNames(cfg, st, i);
    StepEventFits(cfg, st, i, ApprovalRejected, inp.peer, "rejected", "", st.records[i].summary, Rejected);
  }

  lemma ExecuteOutcome(cfg: Config, st: State, inp: Input, to: string, i: nat)
    requires Invariant(cfg, st) && inp.AdminSocket? && i < |st.records|
    ensures var o := ExecuteSlot(cfg, st, inp.peer, to, Some(i), inp.now, inp.io1, inp.io2, inp.info);
      var r := st.records[i]; var act := DueOn(r, i, "approval.execute", inp);
      && o.act == act && o.nextId == st.nextId && o.reply == ExecuteReply(r, to, inp)
      && (act == Quiet ==> o.records == st.records && o.events == [])
      && (act != Quiet ==>
            && act.Running? && o.events == RunLog(r, inp)
            && o.records == if inp.info.Info? then st.records[i := r.(status := Executed)] else st.records)
  {
    hide CanWrite, ShortPlain, RequestId, Invariant, Sound, ToRequest, Preflight;
    var r := st.records[i];
    DecisionsPlain();
    ExecutionNamesPlain();
    ApprovalNamesPlain();
    SummaryIsShort(cfg, st, i);
    SoundNames(cfg, st, i);
    RecordIsSound(cfg, st, i);
    CopyIsLossless(cfg, r);
    StepEventFits(cfg, st, i, ExecutionStarted, inp.peer, "started", "", r.summary, Granted);
    StepEventFits(cfg, st, i, ExecutionFinished, inp.peer, "finished", "", r.summary, Granted);
    StepEventFits(cfg, st, i, ExecutionFailed, inp.peer, "failed", "execution_failed", GatherError(inp.info), Granted);
  }

  lemma ListOutcome(cfg: Config, st: State, to: string)
    requires Invariant(cfg, st)
    ensures ListReply(st.records, to) ==
      if |st.records| <= 32 then Answer(to, Listing(ListText(st.records))) else Error(to, ResourceLimit)
  {
    hide ItemsLength, ListText, AllFit, Invariant;
    ListLength(cfg, st);
    ItemsLengthClosed(|st.records|);
    NoItemsLength();
  }

  lemma NoSlotOutcome(cfg: Config, st: State, inp: Input, to: string)
    requires inp.AdminSocket?
    ensures var o := Just(st, [], Error(to, ErrorKind.Refused(NotFound)));
      && ApproveSlot(st, inp.peer, to, None, inp.now, inp.io1) == o
      && RejectSlot(st, inp.peer, to, None, inp.now, inp.io1) == o
      && ExecuteSlot(cfg, st, inp.peer, to, None, inp.now, inp.io1, inp.io2, inp.info) == o
  {}

  lemma AdminRouteOutcome(cfg: Config, st: State, inp: Input)
    requires Invariant(cfg, st) && inp.AdminSocket? && Parse(inp.body).Some? && IsAdmin(cfg, inp.peer)
    ensures AdminRoute(cfg, st, inp.peer, Parse(inp.body).value, inp.now, inp.io1, inp.io2, inp.info)
         == DueOutcome(cfg, st, inp)
  {
    hide Parse, Extract, FindSlot, IsAdmin, Invariant, ListReply, ApproveSlot, RejectSlot, ExecuteSlot;
    hide ApproveReply, RejectReply, ExecuteReply, RunLog, ListText, On;
    var q := Parse(inp.body).value;
    var slot := Target(st, q);
    ListOutcome(cfg, st, q.id);
    NoSlotOutcome(cfg, st, inp, q.id);
    if slot.Some? {
      ApproveOutcome(cfg, st, inp, q.id, slot.value);
      RejectOutcome(cfg, st, inp, q.id, slot.value);
      ExecuteOutcome(cfg, st, inp, q.id, slot.value);
    }
  }

  lemma AdminOutcome(cfg: Config, st: State, inp: Input)
    requires Invariant(cfg, st) && inp.AdminSocket?
    ensures Step(cfg, st, inp) == DueOutcome(cfg, st, inp)
  {
    hide Parse, IsAdmin, CanWrite, Invariant, AdminRoute, Target;
    if Parse(inp.body).Some? {
      if IsAdmin(cfg, inp.peer) {
        AdminRouteOutcome(cfg, st, inp);
      } else {
        RequestEventsFit(cfg, inp.body, inp.peer);
      }
    }
  }

  /** Every request in every state that satisfies the invariant has exactly the promised
      outcome: the store, the log with all its fields, the reply with its reason. */
  lemma OutcomeIsDue(cfg: Config, st: State, inp: Input)
    requires Invariant(cfg, st)
    ensures Step(cfg, st, inp) == DueOutcome(cfg, st, inp)
  {
    hide Step, DueOutcome, Invariant;
    if inp.ToolSocket? {
      ToolOutcome(cfg, st, inp);
    } else {
      AdminOutcome(cfg, st, inp);
    }
  }

  // ---- over whole runs ----------------------------------------------------------------------

  /** The logs of the steps, one after the other. */
  function DueLogs(cfg: Config, ins: seq<Input>): seq<Event> {
    if ins == [] then []
    else
      var before := ins[..|ins| - 1];
      DueLogs(cfg, before) + DueLog(cfg, Run(cfg, before), ins[|ins| - 1])
  }

  /** Every reachable log is, event by event and field by field, what the requests called
      for, and every reply is the one that was due. */
  lemma {:induction false} RunIsDue(cfg: Config, ins: seq<Input>)
    ensures Run(cfg, ins).log == DueLogs(cfg, ins)
    ensures |Run(cfg, ins).sent| == |ins|
    ensures forall k | 0 <= k < |ins| :: Run(cfg, ins).sent[k] == DueReply(cfg, Run(cfg, ins[..k]), ins[k])
  {
    hide Step, Invariant, DueLog, DueReply, DueRecords, Due;
    if ins != [] {
      var n := |ins| - 1;
      RunIsDue(cfg, ins[..n]);
      Reachable(cfg, ins[..n]);
      OutcomeIsDue(cfg, Run(cfg, ins[..n]), ins[n]);
      forall k | 0 <= k < |ins| ensures Run(cfg, ins).sent[k] == DueReply(cfg, Run(cfg, ins[..k]), ins[k]) {
        if k < n {
          assert ins[..n][..k] == ins[..k];
        }
      }
    }
  }

  lemma {:induction false} EventOfStep(cfg: Config, ins: seq<Input>, m: nat) returns (k: nat)
    requires m < |DueLogs(cfg, ins)|
    ensures k < |ins| && DueLogs(cfg, ins)[m] in DueLog(cfg, Run(cfg, ins[..k]), ins[k])
  {
    hide Run, DueLog;
    var n := |ins| - 1;
    if m < |DueLogs(cfg, ins[..n])| {
      k := EventOfStep(cfg, ins[..n], m);
      assert ins[..n][..k] == ins[..k];
    } else {
      k := n;
    }
  }

  /** An event about no record is about the request of this step: its peer, session and
      method, and whether it was received or denied, and why. */
  predicate ReportsRequest(inp: Input, e: Event) {
    && Parse(inp.body).Some? && e.caller == inp.peer && e.approver == None
    && e.session == Parse(inp.body).value.session && e.name == Parse(inp.body).value.name
    && if e.kind == RequestReceived
       then inp.ToolSocket? && e.decision == "received" && e.risk == "" && e.errorKind == ""
       else && e.kind == PreflightDenied && e.decision == "deny" && e.risk == "denied"
            && e.errorKind in {"control_plane_denied", "unknown_tool", "policy_denied"}
  }

  /** The decision and the error kind that go with an event about a record. */
  function Spelling(k: EventKind): (string, string) {
    match k
    case ApprovalRequired => ("approval_required", "")
    case ApprovalGranted => ("granted", "")
    case ApprovalRejected => ("rejected", "")
    case ExecutionStarted => ("started", "")
    case ExecutionFinished => ("finished", "")
    case ExecutionFailed => ("failed", "execution_failed")
    case _ => ("", "")
  }

  predicate Spelled(inp: Input, e: Event) {
    if e.id == "" then ReportsRequest(inp, e)
    else (e.decision, e.errorKind) == Spelling(e.kind) && e.risk == "low" && e.name == "sys.info"
  }

  lemma DueIsSpelled(cfg: Config, st: State, inp: Input)
    requires Invariant(cfg, st)
    ensures forall e | e in DueLog(cfg, st, inp) :: Spelled(inp, e)
  {
    hide Parse, ToolLog, AdminLog, Spelled, Invariant;
    if Parse(inp.body).Some? {
      if inp.ToolSocket? {
        ToolIsSpelled(cfg, st, inp);
      } else {
        AdminIsSpelled(cfg, st, inp);
      }
    }
  }

  lemma ToolIsSpelled(cfg: Config, st: State, inp: Input)
    requires inp.ToolSocket? && Parse(inp.body).Some?
    ensures forall e | e in ToolLog(cfg, st, inp, Parse(inp.body).value) :: Spelled(inp, e)
  {
    hide Parse, Decimal;
  }

  lemma AdminIsSpelled(cfg: Config, st: State, inp: Input)
    requires Invariant(cfg, st) && inp.AdminSocket? && Parse(inp.body).Some?
    ensures forall e | e in AdminLog(cfg, st, inp, Parse(inp.body).value) :: Spelled(inp, e)
  {
    hide Parse, Due, IsAdmin, Sound, RequestId;
    var act := Due(cfg, st, inp);
    if !act.Quiet? && act.slot < |st.records| {
      RequestIdPlain(act.slot + 1);
      assert st.records[act.slot].id != "";
    }
  }

  /** Every event of every reachable log is spelled as the audit contract has it, and those
      about no record name the peer, the session and the method of a request of the run. */
  lemma LogIsSpelled(cfg: Config, ins: seq<Input>, m: nat) returns (k: nat)
    requires m < |Run(cfg, ins).log|
    ensures k < |ins| && Spelled(ins[k], Run(cfg, ins).log[m])
  {
    hide Run, DueLog, Spelled, DueReply, Invariant;
    RunIsDue(cfg, ins);
    k := EventOfStep(cfg, ins, m);
    Reachable(cfg, ins[..k]);
    DueIsSpelled(cfg, Run(cfg, ins[..k]), ins[k]);
  }

  /** A stored record is the request of the step that added it, word for word; only its
      status and its approver have changed since. */
  lemma {:induction false} RecordIsRequest(cfg: Config, ins: seq<Input>, i: nat) returns (c: nat)
    requires i < |Run(cfg, ins).records|
    ensures c < |ins| && Acts(cfg, ins)[c] == Added(i, ins[c].peer, ins[c].now)
    ensures var r := Run(cfg, ins).records[i]; var q := Parse(ins[c].body);
      && q.Some?
      && r == Asked(i, q.value, ins[c].peer, ins[c].now + cfg.ttl).(approver := r.approver, status := r.status)
  {
    hide Step, Invariant, DueLog, DueReply, Parse, Asked, Run, Acts;
    var n := |ins| - 1;
    OneMore(cfg, ins);
    var st := Run(cfg, ins[..n]);
    OutcomeIsDue(cfg, st, ins[n]);
    DueIsInRange(cfg, st, ins[n]);
    if i < |st.records| {
      c := RecordIsRequest(cfg, ins[..n], i);
    } else {
      c := n;
    }
  }

  lemma OneMore(cfg: Config, ins: seq<Input>)
    requires Run(cfg, ins) != INITIAL
    ensures ins != []
    ensures var n := |ins| - 1; var st := Run(cfg, ins[..n]);
      && Invariant(cfg, st) && Run(cfg, ins).records == Step(cfg, st, ins[n]).records
      && Acts(cfg, ins) == Acts(cfg, ins[..n]) + [Step(cfg, st, ins[n]).act]
  {
    hide Step, Invariant;
    Reachable(cfg, ins[..|ins| - 1]);
  }

  lemma DueIsInRange(cfg: Config, st: State, inp: Input)
    ensures match Due(cfg, st, inp)
      case Quiet => true
      case Added(i, who, at) => Parse(inp.body).Some? && i == |st.records| && who == inp.peer && at == inp.now
      case Granting(i, _, _) => i < |st.records|
      case Rejecting(i, _, _) => i < |st.records|
      case Running(i, _, _, _) => i < |st.records|
  {
    hide Parse, Extract, FindSlot, IsAdmin, Approvable;
  }
}
