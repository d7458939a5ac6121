/** Who the audit log says did what. */
module ProtocolAttribution {
  import opened Bytes
  import opened JsonString
  import opened Config
  import opened Policy
  import opened RpcParse
  import opened RpcParams
  import opened RpcReply
  import opened Approval
  import opened Audit
  import opened Protocol
  import opened ProtocolSteps
  import opened ProtocolRuns
  import opened ProtocolOutcome

  /** The event is about this record: it names its requester as the caller, and for all but
      the request for approval it names an authorised admin, who for a grant or a rejection
      is not the requester. */
  predicate About(cfg: Config, r: Record, e: Event) {
    && e.id == r.id && e.caller == r.requester
    && e.session == r.session && e.name == r.name && e.risk == r.risk
    && e.kind !in {RequestReceived, PreflightDenied}
    && (e.kind == ApprovalRequired <==> e.approver.None?)
    && (e.approver.Some? ==> IsAdmin(cfg, e.approver.value))
    && (e.kind in {ApprovalGranted, ApprovalRejected} ==> e.approver != Some(r.requester))
  }

  predicate Attributed(cfg: Config, records: seq<Record>, e: Event) {
    if e.id == "" then e.kind in {RequestReceived, PreflightDenied} && e.approver == None
    else exists i | 0 <= i < |records| :: About(cfg, records[i], e)
  }

  predicate AllAttributed(cfg: Config, records: seq<Record>, es: seq<Event>) {
    forall k | 0 <= k < |es| :: Attributed(cfg, records, es[k])
  }

  lemma AttributedTo(cfg: Config, records: seq<Record>, i: nat, e: Event)
    requires i < |records| && About(cfg, records[i], e) && e.id != ""
    ensures Attributed(cfg, records, e)
  {}

  lemma OneOrTwo(cfg: Config, records: seq<Record>, es: seq<Event>, e: Event)
    requires AllAttributed(cfg, records, es) && Attributed(cfg, records, e)
    ensures AllAttributed(cfg, records, es + [e])
  {}

  /** A last audit write keeps the attribution, whether it goes through or not. */
  lemma CheckedAttributed(cfg: Config, o: Outcome, e: Event, io: bool)
    requires AllAttributed(cfg, o.records, o.events) && Attributed(cfg, o.records, e)
    ensures AllAttributed(cfg, Checked(o, e, io).records, Checked(o, e, io).events)
  {
    hide CanWrite, Attributed;
    OneOrTwo(cfg, o.records, o.events, e);
  }

  lemma Nothing(cfg: Config, records: seq<Record>)
    ensures AllAttributed(cfg, records, [])
  {}

  lemma ApproveAttributed(cfg: Config, st: State, peer: Identity, to: string, slot: Option<nat>, now: int, io: bool)
    requires Invariant(cfg, st) && IsAdmin(cfg, peer) && (slot.Some? ==> slot.value < |st.records|)
    ensures var o := ApproveSlot(st, peer, to, slot, now, io); AllAttributed(cfg, o.records, o.events)
    ensures var o := RejectSlot(st, peer, to, slot, now, io); AllAttributed(cfg, o.records, o.events)
  {
    hide Checked, AllAttributed, Attributed, Sound, RequestId, IsAdmin;
    if slot.Some? {
      var i := slot.value;
      var r := st.records[i];
      RequestIdPlain(i + 1);
      var g, h := r.(approver := peer, status := Granted), r.(approver := peer, status := Rejected);
      var grants, rejects := st.records[i := g], st.records[i := h];
      Nothing(cfg, grants);
      Nothing(cfg, rejects);
      var e := RecordEvent(ApprovalGranted, g, g.requester, Some(peer), "granted", "", g.summary);
      var f := RecordEvent(ApprovalRejected, h, h.requester, Some(peer), "rejected", "", h.summary);
      if GrantDenial(r, peer, now).None? {
        AttributedTo(cfg, grants, i, e);
        CheckedAttributed(cfg, Outcome(grants, st.nextId, [], Answer(to, ApprovedNote), Granting(i, peer, now)), e, io);
      }
      if RejectDenial(r, peer).None? {
        AttributedTo(cfg, rejects, i, f);
        CheckedAttributed(cfg, Outcome(rejects, st.nextId, [], Answer(to, RejectedNote),
                                       Rejecting(i, peer, now)), f, io);
      }
    }
    Nothing(cfg, st.records);
  }

  lemma RunAttributed(cfg: Config, st: State, peer: Identity, to: string, i: nat, now: int, io: bool,
                      info: Gathered, started: Event)
    requires Invariant(cfg, st) && IsAdmin(cfg, peer) && i < |st.records|
    requires var r := st.records[i];
      started == RecordEvent(ExecutionStarted, r, r.requester, Some(peer), "started", "", r.summary)
    ensures var o := RunTool(st, peer, to, i, now, io, info, started); AllAttributed(cfg, o.records, o.events)
  {
    hide Checked, AllAttributed, Attributed, Sound, RequestId, IsAdmin;
    var r := st.records[i];
    RequestIdPlain(i + 1);
    var records := if info.Info? then st.records[i := r.(status := Executed)] else st.records;
    Nothing(cfg, records);
    AttributedTo(cfg, records, i, started);
    OneOrTwo(cfg, records, [], started);
    assert [] + [started] == [started];
    if info.Info? {
      var e := RecordEvent(ExecutionFinished, r, r.requester, Some(peer), "finished", "", r.summary);
      AttributedTo(cfg, records, i, e);
      CheckedAttributed(cfg, Outcome(records, st.nextId, [started], Answer(to, SysInfo(r.id, info.text)),
                                     Running(i, peer, now, true)), e, io);
    } else {
      var e := RecordEvent(ExecutionFailed, r, r.requester, Some(peer), "failed", "execution_failed",
                           GatherError(info));
      AttributedTo(cfg, records, i, e);
      CheckedAttributed(cfg, Outcome(records, st.nextId, [started], Error(to, ToolFailed(GatherError(info))),
                                     Running(i, peer, now, false)), e, io);
    }
  }

  lemma AdminAttributed(cfg: Config, st: State, inp: Input)
    requires Invariant(cfg, st) && inp.AdminSocket?
    ensures var o := Step(cfg, st, inp); AllAttributed(cfg, o.records, o.events)
  {
    hide Parse, IsAdmin, Checked, AllAttributed, Attributed, AdminRoute, Invariant;
    Nothing(cfg, st.records);
    if Parse(inp.body).Some? {
      var q := Parse(inp.body).value;
      if IsAdmin(cfg, inp.peer) {
        RouteAttributed(cfg, st, inp.peer, q, inp.now, inp.io1, inp.io2, inp.info);
      } else {
        var e := ControlDeniedEvent(q, inp.peer, "admin caller is not in allowlist");
        NobodysEvent(cfg, st.records, e);
        CheckedAttributed(cfg, Just(st, [], Error(q.id, ControlPlaneDenied)), e, inp.io1);
      }
    }
  }

  lemma NobodysEvent(cfg: Config, records: seq<Record>, e: Event)
    requires e.id == "" && e.kind in {RequestReceived, PreflightDenied} && e.approver == None
    ensures Attributed(cfg, records, e)
  {}

  lemma RouteAttributed(cfg: Config, st: State, peer: Identity, q: Request, now: int,
                        io1: bool, io2: bool, info: Gathered)
    requires Invariant(cfg, st) && IsAdmin(cfg, peer)
    ensures var o := AdminRoute(cfg, st, peer, q, now, io1, io2, info); AllAttributed(cfg, o.records, o.events)
  {
    hide Extract, ListReply, Invariant, ApproveSlot, RejectSlot, RunTool, AllAttributed, IsAdmin, CanWrite, Preflight;
    Nothing(cfg, st.records);
    var id := Extract(q.params, "request_id", MAX_REQUEST_ID);
    if id.Some? {
      var slot := FindSlot(st.records, id.value);
      ApproveAttributed(cfg, st, peer, q.id, slot, now, io1);
      if slot.Some? {
        var r := st.records[slot.value];
        RunAttributed(cfg, st, peer, q.id, slot.value, now, io2, info,
                      RecordEvent(ExecutionStarted, r, r.requester, Some(peer), "started", "", r.summary));
      }
    }
  }

  lemma ToolAttributed(cfg: Config, st: State, inp: Input)
    requires Invariant(cfg, st) && inp.ToolSocket?
    ensures var o := Step(cfg, st, inp); AllAttributed(cfg, o.records, o.events)
  {
    hide Parse, Checked, AllAttributed, Attributed, CanWrite, ToolRoute;
    Nothing(cfg, st.records);
    if Parse(inp.body).Some? {
      ToolRouteAttributed(cfg, st, inp);
    }
  }

  lemma ToolRouteAttributed(cfg: Config, st: State, inp: Input)
    requires Invariant(cfg, st) && inp.ToolSocket? && Parse(inp.body).Some?
    ensures var q := Parse(inp.body).value;
      var o := ToolRoute(cfg, st, inp.peer, q, inp.now, inp.io2, [ReceivedEvent(q, inp.peer)]);
      AllAttributed(cfg, o.records, o.events)
  {
    hide Parse, Checked, AllAttributed, Attributed, NewRecord, RequiredFits, RequestId, Sound, Escape;
    var q := Parse(inp.body).value;
    var v := Preflight(cfg, q);
    var e := ReceivedEvent(q, inp.peer);
    DefaultDeny(cfg, q);
    ReceiptAttributed(cfg, st.records, e);
    NobodysEvent(cfg, st.records, ControlDeniedEvent(q, inp.peer, "agent tool socket cannot access approval methods"));
    NobodysEvent(cfg, st.records, PolicyDeniedEvent(q, inp.peer, v));
    CheckedAttributed(cfg, Just(st, [e], Error(q.id, ControlPlaneDenied)),
                      ControlDeniedEvent(q, inp.peer, "agent tool socket cannot access approval methods"), inp.io2);
    CheckedAttributed(cfg, Just(st, [e], Error(q.id, Denied(v.reason))), PolicyDeniedEvent(q, inp.peer, v), inp.io2);
    if v.decision == AskFirst && |st.records| < MAX_PENDING {
      var r := NewRecord(st.nextId, q, v, inp.peer, inp.now + cfg.ttl);
      NewRecordSound(cfg, inp.body, st.nextId, inp.peer, inp.now + cfg.ttl);
      RecordOfPeer(st.nextId, q, v, inp.peer, inp.now + cfg.ttl);
      RequestIdPlain(st.nextId);
      var records := st.records + [r];
      ReceiptAttributed(cfg, records, e);
      AttributedTo(cfg, records, |st.records|, RequiredEvent(r, inp.peer));
      CheckedAttributed(cfg, Outcome(records, st.nextId + 1, [e], Error(q.id, NeedsApproval(r)),
                                     Added(|st.records|, inp.peer, inp.now)), RequiredEvent(r, inp.peer), inp.io2);
    }
  }

  lemma ReceiptAttributed(cfg: Config, records: seq<Record>, e: Event)
    requires e.id == "" && e.kind == RequestReceived && e.approver == None
    ensures AllAttributed(cfg, records, [e])
  {}

  lemma RecordOfPeer(n: nat, q: Request, v: Verdict, who: Identity, expires: int)
    ensures NewRecord(n, q, v, who, expires).requester == who
  {}

  /** Records that only changed status or approver, or became more, keep attribution. */
  lemma AttributionLasts(cfg: Config, before: seq<Record>, after: seq<Record>, es: seq<Event>)
    requires |before| <= |after|
    requires forall i | 0 <= i < |before| ::
      after[i] == before[i].(approver := after[i].approver, status := after[i].status)
    requires AllAttributed(cfg, before, es)
    ensures AllAttributed(cfg, after, es)
  {
    hide IsAdmin;
    forall k | 0 <= k < |es| ensures Attributed(cfg, after, es[k]) {
      if es[k].id != "" {
        var i :| 0 <= i < |before| && About(cfg, before[i], es[k]);
        AttributedTo(cfg, after, i, es[k]);
      }
    }
  }

  /** Attribution over all runs: every event in every reachable log is either the receipt
      or the denial of one of the run's requests and names its peer, session and method, or
      it is about a stored record, names that record's own requester, session, method and
      risk, and, but for the request for approval, an authorised admin; the identity that
      grants or rejects, a triple of user, group and process, is never the requester's. */
  lemma {:induction false} LogIsAttributed(cfg: Config, ins: seq<Input>)
    ensures AllAttributed(cfg, Run(cfg, ins).records, Run(cfg, ins).log)
    ensures forall e | e in Run(cfg, ins).log && e.id == "" :: exists k | 0 <= k < |ins| :: ReportsRequest(ins[k], e)
  {
    hide Step, AllAttributed, Invariant;
    ReceiptsAreRequests(cfg, ins);
    if ins == [] {
      Nothing(cfg, []);
    } else {
      var before, inp := ins[..|ins| - 1], ins[|ins| - 1];
      var st := Run(cfg, before);
      LogIsAttributed(cfg, before);
      Reachable(cfg, before);
      if inp.ToolSocket? {
        ToolAttributed(cfg, st, inp);
      } else {
        AdminAttributed(cfg, st, inp);
      }
      OneMoreStatus(cfg, ins);
      var o := Step(cfg, st, inp);
      AttributionLasts(cfg, st.records, o.records, st.log);
      BothParts(cfg, o.records, st.log, o.events);
    }
  }

  lemma ReceiptsAreRequests(cfg: Config, ins: seq<Input>)
    ensures forall e | e in Run(cfg, ins).log && e.id == "" :: exists k | 0 <= k < |ins| :: ReportsRequest(ins[k], e)
  {
    hide Run, ReportsRequest;
    forall e | e in Run(cfg, ins).log && e.id == "" ensures exists k | 0 <= k < |ins| :: ReportsRequest(ins[k], e) {
      var m :| 0 <= m < |Run(cfg, ins).log| && Run(cfg, ins).log[m] == e;
      var k := LogIsSpelled(cfg, ins, m);
    }
  }

  lemma OneMoreStatus(cfg: Config, ins: seq<Input>)
    requires ins != []
    ensures var a, b := Run(cfg, ins[..|ins| - 1]).records, Run(cfg, ins).records;
      && |a| <= |b|
      && forall i | 0 <= i < |a| :: b[i] == a[i].(approver := b[i].approver, status := b[i].status)
  {
    hide Run;
    var a, b := Run(cfg, ins[..|ins| - 1]).records, Run(cfg, ins).records;
    forall i | 0 <= i < |a| ensures i < |b| && b[i] == a[i].(approver := b[i].approver, status := b[i].status) {
      StatusRises(cfg, ins, |ins| - 1, i);
    }
    if |a| > 0 {
      StatusRises(cfg, ins, |ins| - 1, |a| - 1);
    }
  }

  lemma BothParts(cfg: Config, records: seq<Record>, a: seq<Event>, b: seq<Event>)
    requires AllAttributed(cfg, records, a) && AllAttributed(cfg, records, b)
    ensures AllAttributed(cfg, records, a + b)
  {}

  /** The id that a reply must carry: the request's own, or "null" if there is none. */
  function IdOf(body: string): string {
    var q := Parse(body);
    if q.Some? then q.value.id else "null"
  }

  lemma StepAnswersAsker(cfg: Config, st: State, inp: Input)
    ensures Step(cfg, st, inp).reply.to == IdOf(inp.body)
  {
    hide Parse, CanWrite, ToolRoute, AdminRoute, IsAdmin;
    if Parse(inp.body).Some? {
      var q := Parse(inp.body).value;
      if inp.ToolSocket? {
        ToolRouteAnswers(cfg, st, inp.peer, q, inp.now, inp.io2, [ReceivedEvent(q, inp.peer)]);
      } else {
        AdminRouteAnswers(cfg, st, inp.peer, q, inp.now, inp.io1, inp.io2, inp.info);
      }
    }
  }

  lemma ToolRouteAnswers(cfg: Config, st: State, peer: Identity, q: Request, now: int, io: bool, es: seq<Event>)
    ensures ToolRoute(cfg, st, peer, q, now, io, es).reply.to == q.id
  {
    hide CanWrite, NewRecord, RequiredFits, Preflight;
  }

  lemma AdminRouteAnswers(cfg: Config, st: State, peer: Identity, q: Request, now: int,
                          io1: bool, io2: bool, info: Gathered)
    ensures AdminRoute(cfg, st, peer, q, now, io1, io2, info).reply.to == q.id
  {
    hide Extract, CanWrite, ListText, AllFit, Preflight, ToRequest;
  }

  /** Section 5 of the JSON-RPC 2.0 specification over whole runs: reply k carries the id
      of request k, or "null" when the request could not be read. */
  lemma ReplyCarriesId(cfg: Config, ins: seq<Input>, k: nat)
    requires k < |ins|
    ensures k < |Run(cfg, ins).sent| && Run(cfg, ins).sent[k].to == IdOf(ins[k].body)
  {
    hide Run, Step, IdOf;
    OneReplyEach(cfg, ins, k);
    StepAnswersAsker(cfg, Run(cfg, ins[..k]), ins[k]);
    assert ins[..k + 1][..k] == ins[..k];
  }
}
