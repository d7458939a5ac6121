/** One request, one step: what the two socket handlers do to the approval store and the
    audit log, and the one response they send. */
module Protocol {
  import opened Bytes
  import opened JsonString
  import opened Config
  import opened Policy
  import opened RpcParse
  import opened RpcParams
  import opened RpcReply
  import opened Approval
  import opened Audit

  const MAX_LIST: nat := 4096

  datatype Payload = ApprovedNote | RejectedNote | Listing(text: string) | SysInfo(requestId: string, text: string)

  datatype ErrorKind =
    | InvalidRequest | AuditFailed | ControlPlaneDenied | Denied(reason: string) | UnknownTool
    | ResourceLimit | NeedsApproval(record: Record) | InvalidParams | Refused(denial: Denial)
    | RecheckFailed | ToolFailed(text: string)

  datatype Reply = Answer(to: string, payload: Payload) | Error(to: string, kind: ErrorKind)

  /** The outcome of gathering the system information: its text or one of its errors. */
  datatype Gathered = Info(text: string) | UnameFailed | EscapingFailed | OutputTooLarge

  function GatherError(g: Gathered): string {
    match g
    case Info(_) => ""
    case UnameFailed => "uname failed"
    case EscapingFailed => "sys.info JSON escaping failed"
    case OutputTooLarge => "sys.info output exceeded buffer"
  }

  /** What the environment decides in one step: who asks what on which socket, the clock,
      whether each of the two possible audit writes reaches the disk, and the outcome of
      the tool. */
  datatype Input =
    | ToolSocket(peer: Identity, body: string, now: int, io1: bool, io2: bool)
    | AdminSocket(peer: Identity, body: string, now: int, io1: bool, io2: bool, info: Gathered)

  datatype State = State(records: seq<Record>, nextId: nat, log: seq<Event>, sent: seq<Reply>)

  const INITIAL := State([], 1, [], [])

  /** What a step did to a slot. */
  datatype Act =
    | Quiet
    | Added(slot: nat, who: Identity, at: int)
    | Granting(slot: nat, who: Identity, at: int)
    | Rejecting(slot: nat, who: Identity, at: int)
    | Running(slot: nat, who: Identity, at: int, ok: bool)

  /** The effect of one step: the new store, the events that reached the log, the reply. */
  datatype Outcome = Outcome(records: seq<Record>, nextId: nat, events: seq<Event>, reply: Reply, act: Act)

  function After(st: State, o: Outcome): State {
    State(o.records, o.nextId, st.log + o.events, st.sent + [o.reply])
  }

  /** A step that leaves the store alone. */
  function Just(st: State, events: seq<Event>, reply: Reply): Outcome {
    Outcome(st.records, st.nextId, events, reply, Quiet)
  }

  /** `checked_audit`, then the reply; a failed write replaces the reply. */
  function Checked(o: Outcome, e: Event, io: bool): Outcome {
    if io && CanWrite(e) then o.(events := o.events + [e]) else o.(reply := Error(o.reply.to, AuditFailed))
  }

  // ---- the tool socket --------------------------------------------------------------

  function ReceivedEvent(q: Request, who: Identity): Event {
    Event(RequestReceived, "", q.session, who, None, q.name, "", "received", "", "bounded request")
  }

  function ControlDeniedEvent(q: Request, who: Identity, summary: string): Event {
    Event(PreflightDenied, "", q.session, who, None, q.name, "denied", "deny", "control_plane_denied", summary)
  }

  function PolicyDeniedEvent(q: Request, who: Identity, v: Verdict): Event {
    Event(PreflightDenied, "", q.session, who, None, q.name, v.risk, "deny", v.reason, v.summary)
  }

  /** An event about a record. */
  function RecordEvent(kind: EventKind, r: Record, who: Identity, approver: Option<Identity>,
                       decision: string, errorKind: string, summary: string): Event {
    Event(kind, r.id, r.session, who, approver, r.name, r.risk, decision, errorKind, summary)
  }

  function RequiredEvent(r: Record, who: Identity): Event {
    RecordEvent(ApprovalRequired, r, who, None, "approval_required", "", r.summary)
  }

  predicate RequiredFits(r: Record) {
    |Escape(r.id)| < 128 && |Escape(r.risk)| < 64 && |Escape(r.summary)| < 512
  }

  function ToolStep(cfg: Config, st: State, peer: Identity, body: string, now: int, io1: bool, io2: bool): Outcome {
    var p := Parse(body);
    if p.None? then Just(st, [], Error("null", InvalidRequest))
    else
      var q := p.value;
      var e := ReceivedEvent(q, peer);
      if !(io1 && CanWrite(e)) then Just(st, [], Error(q.id, AuditFailed))
      else ToolRoute(cfg, st, peer, q, now, io2, [e])
  }

  function ToolRoute(cfg: Config, st: State, peer: Identity, q: Request, now: int, io: bool, es: seq<Event>): Outcome {
    var v := Preflight(cfg, q);
    if "approval." <= q.name then
      Checked(Just(st, es, Error(q.id, ControlPlaneDenied)),
              ControlDeniedEvent(q, peer, "agent tool socket cannot access approval methods"), io)
    else if v.decision == Decision.Deny then
      Checked(Just(st, es, Error(q.id, Denied(v.reason))), PolicyDeniedEvent(q, peer, v), io)
    else if q.name != "sys.info" then Just(st, es, Error(q.id, UnknownTool))
    else if |st.records| >= MAX_PENDING then Just(st, es, Error(q.id, ResourceLimit))
    else
      var r := NewRecord(st.nextId, q, v, peer, now + cfg.ttl);
      var o := Outcome(st.records + [r], st.nextId + 1, es, Error(q.id, NeedsApproval(r)),
                       Added(|st.records|, peer, now));
      if RequiredFits(r) then Checked(o, RequiredEvent(r, peer), io)
      else o.(reply := Error(q.id, ResourceLimit))
  }

  // ---- the admin socket ---------------------------------------------------------------

  function AdminStep(cfg: Config, st: State, peer: Identity, body: string, now: int,
                     io1: bool, io2: bool, info: Gathered): Outcome {
    var p := Parse(body);
    if p.None? then Just(st, [], Error("null", InvalidRequest))
    else if !IsAdmin(cfg, peer) then
      Checked(Just(st, [], Error(p.value.id, ControlPlaneDenied)),
              ControlDeniedEvent(p.value, peer, "admin caller is not in allowlist"), io1)
    else AdminRoute(cfg, st, peer, p.value, now, io1, io2, info)
  }

  function AdminRoute(cfg: Config, st: State, peer: Identity, q: Request, now: int,
                      io1: bool, io2: bool, info: Gathered): Outcome {
    if q.name == "approval.list" then Just(st, [], ListReply(st.records, q.id))
    else
      var id := Extract(q.params, "request_id", MAX_REQUEST_ID);
      if id.None? then Just(st, [], Error(q.id, InvalidParams))
      else
        var slot := FindSlot(st.records, id.value);
        if q.name == "approval.execute" then ExecuteSlot(cfg, st, peer, q.id, slot, now, io1, io2, info)
        else if q.name == "approval.approve" then ApproveSlot(st, peer, q.id, slot, now, io1)
        else if q.name == "approval.reject" then RejectSlot(st, peer, q.id, slot, now, io1)
        else Just(st, [], Error(q.id, UnknownTool))
  }

  function ListReply(records: seq<Record>, to: string): Reply {
    if AllFit(records) && |ListText(records)| < MAX_LIST then Answer(to, Listing(ListText(records)))
    else Error(to, ResourceLimit)
  }

  function ApproveSlot(st: State, peer: Identity, to: string, slot: Option<nat>, now: int, io: bool): Outcome
    requires slot.Some? ==> slot.value < |st.records|
  {
    if slot.None? then Just(st, [], Error(to, Refused(NotFound)))
    else
      var r := st.records[slot.value];
      var d := GrantDenial(r, peer, now);
      if d.Some? then Just(st, [], Error(to, Refused(d.value)))
      else
        var g := r.(approver := peer, status := Granted);
        Checked(Outcome(st.records[slot.value := g], st.nextId, [], Answer(to, ApprovedNote),
                        Granting(slot.value, peer, now)),
                RecordEvent(ApprovalGranted, g, g.requester, Some(peer), "granted", "", g.summary), io)
  }

  function RejectSlot(st: State, peer: Identity, to: string, slot: Option<nat>, now: int, io: bool): Outcome
    requires slot.Some? ==> slot.value < |st.records|
  {
    if slot.None? then Just(st, [], Error(to, Refused(NotFound)))
    else
      var r := st.records[slot.value];
      var d := RejectDenial(r, peer);
      if d.Some? then Just(st, [], Error(to, Refused(d.value)))
      else
        var g := r.(approver := peer, status := Rejected);
        Checked(Outcome(st.records[slot.value := g], st.nextId, [], Answer(to, RejectedNote),
                        Rejecting(slot.value, peer, now)),
                RecordEvent(ApprovalRejected, g, g.requester, Some(peer), "rejected", "", g.summary), io)
  }

  /** Without a record there is nothing to hash and validation fails first. */
  function SlotDenial(st: State, slot: Option<nat>, now: int): Option<Denial>
    requires slot.Some? ==> slot.value < |st.records|
  {
    if slot.None? then Some(NotFound)
    else ExecuteDenial(st.records[slot.value], ToRequest(st.records[slot.value]).hash, now)
  }

  function ExecuteSlot(cfg: Config, st: State, peer: Identity, to: string, slot: Option<nat>, now: int,
                       io1: bool, io2: bool, info: Gathered): Outcome
    requires slot.Some? ==> slot.value < |st.records|
  {
    var d := SlotDenial(st, slot, now);
    if d.Some? then Just(st, [], Error(to, Refused(d.value)))
    else
      var r := st.records[slot.value];
      var v := Preflight(cfg, ToRequest(r));
      var started := RecordEvent(ExecutionStarted, r, r.requester, Some(peer), "started", "", r.summary);
      if v.decision == Decision.Deny || v.hash != r.hash then Just(st, [], Error(to, RecheckFailed))
      else if !(io1 && CanWrite(started)) then Just(st, [], Error(to, AuditFailed))
      else RunTool(st, peer, to, slot.value, now, io2, info, started)
  }

  function RunTool(st: State, peer: Identity, to: string, i: nat, now: int, io: bool,
                   info: Gathered, started: Event): Outcome
    requires i < |st.records|
  {
    var r := st.records[i];
    if info.Info? then
      Checked(Outcome(st.records[i := r.(status := Executed)], st.nextId, [started],
                      Answer(to, SysInfo(r.id, info.text)), Running(i, peer, now, true)),
              RecordEvent(ExecutionFinished, r, r.requester, Some(peer), "finished", "", r.summary), io)
    else
      Checked(Outcome(st.records, st.nextId, [started], Error(to, ToolFailed(GatherError(info))),
                      Running(i, peer, now, false)),
              RecordEvent(ExecutionFailed, r, r.requester, Some(peer), "failed", "execution_failed",
                          GatherError(info)), io)
  }

  function Step(cfg: Config, st: State, inp: Input): Outcome {
    match inp
    case ToolSocket(peer, body, now, io1, io2) => ToolStep(cfg, st, peer, body, now, io1, io2)
    case AdminSocket(peer, body, now, io1, io2, info) => AdminStep(cfg, st, peer, body, now, io1, io2, info)
  }
}
