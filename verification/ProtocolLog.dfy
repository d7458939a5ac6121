/** When the audit log misses something: exactly when a write failed, and for the requests
    that the handlers never report. */
module ProtocolLog {
  import opened Bytes
  import opened JsonString
  import opened Config
  import opened Policy
  import opened RpcParse
  import opened RpcParams
  import opened RpcReply
  import opened Approval
  import opened Audit
  import opened Protocol
  import opened ProtocolSteps
  import opened ProtocolAudit
  import opened ProtocolList

  /** The events that the log should hold after an act, given which writes went through. */
  function Owed(act: Act, io1: bool, io2: bool): seq<EventKind> {
    match act
    case Quiet => []
    case Added(_, _, _) => if io2 then [ApprovalRequired] else []
    case Granting(_, _, _) => if io1 then [ApprovalGranted] else []
    case Rejecting(_, _, _) => if io1 then [ApprovalRejected] else []
    case Running(_, _, _, ok) =>
      [ExecutionStarted] + if !io2 then [] else if ok then [ExecutionFinished] else [ExecutionFailed]
  }

  function Kinds(es: seq<Event>): seq<EventKind> {
    seq(|es|, i requires 0 <= i < |es| => es[i].kind)
  }

  lemma KindsOf(e: Event, f: Event)
    ensures Kinds([]) == [] && Kinds([e]) == [e.kind] && Kinds([e, f]) == [e.kind, f.kind]
    ensures [] + [e] == [e] && [e] + [f] == [e, f]
  {}

  lemma SlotStepsLogged(cfg: Config, st: State, peer: Identity, to: string, slot: Option<nat>, now: int,
                        io1: bool, io2: bool, info: Gathered)
    requires Invariant(cfg, st) && (slot.Some? ==> slot.value < |st.records|)
    ensures var o := ApproveSlot(st, peer, to, slot, now, io1); Kinds(o.events) == Owed(o.act, io1, io2)
    ensures var o := RejectSlot(st, peer, to, slot, now, io1); Kinds(o.events) == Owed(o.act, io1, io2)
    ensures var o := ExecuteSlot(cfg, st, peer, to, slot, now, io1, io2, info); Kinds(o.events) == Owed(o.act, io1, io2)
  {
    hide CanWrite, ShortPlain, RequestId, Invariant, Sound, ToRequest, Preflight;
    if slot.Some? {
      var i := slot.value;
      var r := st.records[i];
      DecisionsPlain();
      ExecutionNamesPlain();
      ApprovalNamesPlain();
      SummaryIsShort(cfg, st, i);
      StepEventFits(cfg, st, i, ApprovalGranted, peer, "granted", "", r.summary, Granted);
      StepEventFits(cfg, st, i, ApprovalRejected, peer, "rejected", "", r.summary, Rejected);
      StepEventFits(cfg, st, i, ExecutionFinished, peer, "finished", "", r.summary, Granted);
      StepEventFits(cfg, st, i, ExecutionFailed, peer, "failed", "execution_failed", GatherError(info), Granted);
    }
  }

  /** On the admin socket, a step logs exactly the events of what it did to the store: one
      is missing exactly when its write failed.  An authorised admin request that changes
      nothing, be it the list or a refusal, is never logged. */
  lemma AdminStepLogged(cfg: Config, st: State, inp: Input)
    requires Invariant(cfg, st) && inp.AdminSocket?
    ensures var o := Step(cfg, st, inp);
      Kinds(o.events) == if Parse(inp.body).Some? && !IsAdmin(cfg, inp.peer)
                         then (if inp.io1 then [PreflightDenied] else [])
                         else Owed(o.act, inp.io1, inp.io2)
  {
    hide Parse, CanWrite, Invariant, IsAdmin, AdminRoute, Owed, Kinds, ControlDeniedEvent;
    NothingOwed();
    if Parse(inp.body).Some? {
      var q := Parse(inp.body).value;
      if IsAdmin(cfg, inp.peer) {
        AdminRouteLogged(cfg, st, inp.peer, q, inp.now, inp.io1, inp.io2, inp.info);
      } else {
        RequestEventsFit(cfg, inp.body, inp.peer);
        var e := ControlDeniedEvent(q, inp.peer, "admin caller is not in allowlist");
        DeniedKind(q, inp.peer, "admin caller is not in allowlist");
        KindsOf(e, e);
      }
    }
  }

  lemma DeniedKind(q: Request, who: Identity, summary: string)
    ensures ControlDeniedEvent(q, who, summary).kind == PreflightDenied
  {}

  lemma NothingOwed()
    ensures Kinds([]) == [] && forall io1, io2 :: Owed(Quiet, io1, io2) == []
  {}

  lemma AdminRouteLogged(cfg: Config, st: State, peer: Identity, q: Request, now: int,
                         io1: bool, io2: bool, info: Gathered)
    requires Invariant(cfg, st)
    ensures var o := AdminRoute(cfg, st, peer, q, now, io1, io2, info); Kinds(o.events) == Owed(o.act, io1, io2)
  {
    hide Extract, ListReply, Invariant, ExecuteSlot, ApproveSlot, RejectSlot, Kinds, Owed;
    NothingOwed();
    var id := Extract(q.params, "request_id", MAX_REQUEST_ID);
    if id.Some? {
      SlotStepsLogged(cfg, st, peer, q.id, FindSlot(st.records, id.value), now, io1, io2, info);
    }
  }

  /** The answer to an approvable request always fits: the branch for a response that is
      too large is never taken. */
  lemma NewRecordFits(cfg: Config, body: string, n: nat, who: Identity, expires: int)
    requires Parse(body).Some? && n <= MAX_PENDING && Preflight(cfg, Parse(body).value).decision == AskFirst
    ensures var q := Parse(body).value; var r := NewRecord(n, q, Preflight(cfg, q), who, expires);
      RequiredFits(r) && CanWrite(RequiredEvent(r, who))
  {
    hide Parse, NewRecord, Preflight, RequestId, CanWrite, Sound;
    var q := Parse(body).value;
    var r := NewRecord(n, q, Preflight(cfg, q), who, expires);
    NewRecordSound(cfg, body, n, who, expires);
    EscapedFields(cfg, r, n);
    RequiredEventFits(cfg, r, n, who);
  }

  /** Whether the request would be added to the store. */
  predicate Approvable(cfg: Config, st: State, q: Request) {
    q.name == "sys.info" && cfg.sysRead && |st.records| < MAX_PENDING
  }

  predicate AsksApproval(st: State, o: Outcome) {
    o.reply.Error? && |st.records| < |o.records| && o.reply.kind == NeedsApproval(o.records[|st.records|])
  }

  /** What a received request comes to: exactly the approvable ones are stored, a full
      store is the only reason to turn an allowed one away, and the log holds the receipt
      and one more event, unless the write of that event failed or the store was full. */
  predicate Reported(cfg: Config, st: State, q: Request, io2: bool, o: Outcome) {
    var asks := q.name == "sys.info" && cfg.sysRead;
    && (o.act.Added? <==> Approvable(cfg, st, q))
    && (asks && !o.act.Added? ==> o.reply == Error(q.id, ResourceLimit))
    && (o.act.Added? && io2 ==> AsksApproval(st, o))
    && Kinds(o.events) == [RequestReceived] +
         (if o.act.Added? then Owed(o.act, true, io2) else if asks || !io2 then [] else [PreflightDenied])
  }

  /** On the tool socket, an unreadable request leaves no trace, nothing else is done before
      the receipt is logged, and then the request is reported as described. */
  lemma ToolStepLogged(cfg: Config, st: State, inp: Input)
    requires Invariant(cfg, st) && inp.ToolSocket?
    ensures var o := Step(cfg, st, inp); var p := Parse(inp.body);
      if p.None? then o.events == [] && o.act == Quiet && o.reply == Error("null", InvalidRequest)
      else if inp.io1 then Reported(cfg, st, p.value, inp.io2, o)
      else o.events == [] && o.act == Quiet && o.reply == Error(p.value.id, AuditFailed)
  {
    hide Parse, Step, ToolRoute, ReceivedEvent, Reported, Invariant;
    if Parse(inp.body).None? {
      UnreadableTool(cfg, st, inp);
    } else {
      ReceiptComesFirst(cfg, st, inp);
      ToolRouteLogged(cfg, st, inp);
    }
  }

  lemma UnreadableTool(cfg: Config, st: State, inp: Input)
    requires inp.ToolSocket? && Parse(inp.body).None?
    ensures Step(cfg, st, inp) == Just(st, [], Error("null", InvalidRequest))
  {
    hide Parse, CanWrite, ToolRoute;
  }

  lemma ReceiptComesFirst(cfg: Config, st: State, inp: Input)
    requires inp.ToolSocket? && Parse(inp.body).Some?
    ensures var q := Parse(inp.body).value;
      Step(cfg, st, inp) == if inp.io1
                            then ToolRoute(cfg, st, inp.peer, q, inp.now, inp.io2, [ReceivedEvent(q, inp.peer)])
                            else Just(st, [], Error(q.id, AuditFailed))
  {
    hide Parse, CanWrite, ToolRoute, Preflight;
    RequestEventsFit(cfg, inp.body, inp.peer);
  }

  lemma ToolRouteLogged(cfg: Config, st: State, inp: Input)
    requires Invariant(cfg, st) && inp.ToolSocket? && Parse(inp.body).Some?
    ensures var q := Parse(inp.body).value;
      Reported(cfg, st, q, inp.io2,
               ToolRoute(cfg, st, inp.peer, q, inp.now, inp.io2, [ReceivedEvent(q, inp.peer)]))
  {
    hide Parse, CanWrite, NewRecord, RequiredFits, Invariant, Kinds;
    var q := Parse(inp.body).value;
    var e := ReceivedEvent(q, inp.peer);
    RequestEventsFit(cfg, inp.body, inp.peer);
    ToolNameIsNotApproval();
    KindsOf(e, ControlDeniedEvent(q, inp.peer, "agent tool socket cannot access approval methods"));
    KindsOf(e, PolicyDeniedEvent(q, inp.peer, Preflight(cfg, q)));
    if Approvable(cfg, st, q) {
      NextIdFits(cfg, st);
      NewRecordFits(cfg, inp.body, st.nextId, inp.peer, inp.now + cfg.ttl);
      KindsOf(e, RequiredEvent(NewRecord(st.nextId, q, Preflight(cfg, q), inp.peer, inp.now + cfg.ttl), inp.peer));
    }
  }

  lemma ToolNameIsNotApproval()
    ensures !("approval." <= "sys.info")
  {}

  lemma NextIdFits(cfg: Config, st: State)
    requires Invariant(cfg, st) && |st.records| < MAX_PENDING
    ensures st.nextId <= MAX_PENDING
  {}
}
