/** What every single step keeps and what each kind of step changes. */
module ProtocolSteps {
  import opened Bytes
  import opened JsonString
  import opened JsonScan
  import opened RpcHash
  import opened RpcGrammar
  import opened Config
  import opened Policy
  import opened RpcParse
  import opened RpcParams
  import opened RpcReply
  import opened Approval
  import opened Audit
  import opened Protocol

  // ---- the invariant ------------------------------------------------------------------

  /** A stored record is an approvable request copied without loss: recomputing its hash
      from the copies gives the stored hash. */
  predicate Sound(cfg: Config, r: Record) {
    && r.name == "sys.info" && cfg.sysRead
    && r.hash == HashOf(r.name, r.params, r.session)
    && |r.session| < MAX_SESSION && Encodable(r.session) && |r.params| < MAX_PARAMS
    && r.risk == "low" && r.summary == SUMMARY
  }

  predicate Invariant(cfg: Config, st: State) {
    && Numbered(st.records, st.nextId)
    && forall i | 0 <= i < |st.records| :: Sound(cfg, st.records[i])
  }

  // ---- every event and every field fits its buffer -----------------------------------------

  predicate ShortPlain(t: string) {
    Plain(t) && |t| < 64
  }

  lemma ShortPlainFits(t: string)
    requires ShortPlain(t)
    ensures |Escape(t)| < 64
  {
    EscapePlain(t);
  }

  lemma RequestNamesPlain()
    ensures ShortPlain("request_received") && ShortPlain("preflight_denied") && ShortPlain("approval_required")
  {}

  lemma ApprovalNamesPlain()
    ensures ShortPlain("approval_granted") && ShortPlain("approval_rejected") && ShortPlain("execution_failed")
  {}

  lemma ExecutionNamesPlain()
    ensures ShortPlain("execution_started") && ShortPlain("execution_finished")
    ensures ShortPlain("sys.info") && ShortPlain("low") && ShortPlain("")
  {}

  lemma DecisionsPlain()
    ensures ShortPlain("granted") && ShortPlain("rejected") && ShortPlain("started")
    ensures ShortPlain("finished") && ShortPlain("failed")
  {}

  lemma KindFits(k: EventKind)
    ensures |Escape(KindName(k))| < 64
  {
    hide Plain, Escape;
    RequestNamesPlain();
    ApprovalNamesPlain();
    ExecutionNamesPlain();
    ShortPlainFits(KindName(k));
  }

  lemma RequestIdPlain(n: nat)
    ensures Plain(RequestId(n)) && RequestId(n) != ""
  {}

  lemma IdFits(n: nat)
    requires n <= MAX_PENDING
    ensures |Escape(RequestId(n))| <= 6
  {
    RequestIdPlain(n);
    EscapePlain(RequestId(n));
    RequestIdFits(n);
  }

  /** No audit write about a stored record fails for lack of buffer space. */
  lemma RecordEventFits(cfg: Config, r: Record, n: nat, kind: EventKind, who: Identity,
                        approver: Option<Identity>, decision: string, errorKind: string, summary: string)
    requires Sound(cfg, r) && n <= MAX_PENDING && r.id == RequestId(n)
    requires ShortPlain(decision) && ShortPlain(errorKind) && |summary| <= 64
    ensures CanWrite(RecordEvent(kind, r, who, approver, decision, errorKind, summary))
  {
    hide Escape, KindName, RequestId, Plain, HashOf;
    KindFits(kind);
    IdFits(n);
    EscapeAtMostDoubles(r.session);
    ExecutionNamesPlain();
    ShortPlainFits("sys.info");
    ShortPlainFits("low");
    ShortPlainFits(decision);
    ShortPlainFits(errorKind);
    EscapeAtMostSix(summary);
  }

  // ---- the effect of a step -------------------------------------------------------------

  /** The kinds of the events about one request id, in order. */
  function Project(log: seq<Event>, id: string): seq<EventKind> {
    if log == [] then []
    else
      var e := log[|log| - 1];
      Project(log[..|log| - 1], id) + (if e.id == id then [e.kind] else [])
  }

  /** The events are about this id or about none. */
  predicate Only(es: seq<Event>, id: string) {
    forall i | 0 <= i < |es| :: es[i].id == "" || es[i].id == id
  }

  predicate Reports(es: seq<Event>, id: string, first: EventKind, second: Option<EventKind>) {
    && Only(es, id)
    && (Project(es, id) == [first] || (second.Some? && Project(es, id) == [first, second.value]))
  }

  predicate ReportsOrNot(es: seq<Event>, id: string, kind: EventKind) {
    Only(es, id) && (Project(es, id) == [] || Project(es, id) == [kind])
  }

  predicate IsToolResult(reply: Reply) {
    reply.Answer? && reply.payload.SysInfo?
  }

  /** The two refusals that the invariant rules out. */
  predicate NeverRefused(reply: Reply) {
    reply.Error? ==> reply.kind != ErrorKind.Refused(Changed) && reply.kind != RecheckFailed
  }

  predicate QuietEffect(st: State, o: Outcome) {
    && o.records == st.records && o.nextId == st.nextId
    && Only(o.events, "") && !IsToolResult(o.reply)
  }

  predicate AddedEffect(cfg: Config, st: State, o: Outcome, i: nat, who: Identity, at: int) {
    && i == |st.records| < MAX_PENDING
    && |o.records| == i + 1 && o.records[..i] == st.records && o.nextId == st.nextId + 1
    && var r := o.records[i];
    && r.id == RequestId(st.nextId) && Sound(cfg, r)
    && r.status == Pending && r.requester == who && r.expires == at + cfg.ttl
    && ReportsOrNot(o.events, r.id, ApprovalRequired) && !IsToolResult(o.reply)
  }

  predicate GrantEffect(cfg: Config, st: State, o: Outcome, i: nat, who: Identity, at: int) {
    && i < |st.records| && IsAdmin(cfg, who)
    && var r := st.records[i];
    && r.status == Pending && at <= r.expires && who != r.requester
    && o.records == st.records[i := r.(approver := who, status := Granted)] && o.nextId == st.nextId
    && ReportsOrNot(o.events, r.id, ApprovalGranted) && !IsToolResult(o.reply)
  }

  predicate RejectEffect(cfg: Config, st: State, o: Outcome, i: nat, who: Identity) {
    && i < |st.records| && IsAdmin(cfg, who)
    && var r := st.records[i];
    && who != r.requester
    && o.records == st.records[i := r.(approver := who, status := Rejected)] && o.nextId == st.nextId
    && ReportsOrNot(o.events, r.id, ApprovalRejected) && !IsToolResult(o.reply)
  }

  predicate RunEffect(cfg: Config, st: State, o: Outcome, i: nat, who: Identity, at: int, ok: bool) {
    && i < |st.records| && IsAdmin(cfg, who)
    && var r := st.records[i];
    && r.status == Granted && at <= r.expires
    && o.records == (if ok then st.records[i := r.(status := Executed)] else st.records)
    && o.nextId == st.nextId
    && Reports(o.events, r.id, ExecutionStarted, Some(if ok then ExecutionFinished else ExecutionFailed))
    && (IsToolResult(o.reply) <==> ok && |o.events| == 2)
    && (IsToolResult(o.reply) ==> o.reply.payload.requestId == r.id)
    && (IsToolResult(o.reply) ==> Project(o.events, r.id) == [ExecutionStarted, ExecutionFinished])
  }

  predicate Effect(cfg: Config, st: State, o: Outcome) {
    && NeverRefused(o.reply)
    && match o.act
       case Quiet => QuietEffect(st, o)
       case Added(i, who, at) => AddedEffect(cfg, st, o, i, who, at)
       case Granting(i, who, at) => GrantEffect(cfg, st, o, i, who, at)
       case Rejecting(i, who, at) => RejectEffect(cfg, st, o, i, who)
       case Running(i, who, at, ok) => RunEffect(cfg, st, o, i, who, at, ok)
  }

  lemma ProjectOne(e: Event, id: string)
    ensures Project([], id) == []
    ensures Project([e], id) == if e.id == id then [e.kind] else []
    ensures [] + [e] == [e]
  {
    assert [e][..0] == [];
  }

  lemma ProjectTwo(e: Event, f: Event, id: string)
    ensures Project([e, f], id) == Project([e], id) + Project([f], id)
    ensures [e] + [f] == [e, f]
  {
    ProjectOne(e, id);
    ProjectOne(f, id);
    assert [e, f][..1] == [e];
  }

  /** Copying an approvable request into a record and back loses nothing. */
  lemma NewRecordSound(cfg: Config, body: string, n: nat, who: Identity, expires: int)
    requires Parse(body).Some? && n <= MAX_PENDING
    requires var q := Parse(body).value; Preflight(cfg, q).decision == AskFirst
    ensures var q := Parse(body).value; var r := NewRecord(n, q, Preflight(cfg, q), who, expires);
      Sound(cfg, r) && r.id == RequestId(n)
  {
    hide HashOf, Parse, RequestId;
    ParsedFits(body);
    RequestIdFits(n);
    assert Trunc(SUMMARY, 256) == SUMMARY;
  }

  lemma CopyIsLossless(cfg: Config, r: Record)
    requires Sound(cfg, r)
    ensures ToRequest(r).hash == r.hash && ToRequest(r).name == "sys.info"
    ensures Preflight(cfg, ToRequest(r)).decision == AskFirst && Preflight(cfg, ToRequest(r)).hash == r.hash
  {
    hide HashOf;
  }

  /** Asking for approval adds one sound pending record. */
  lemma AddEffect(cfg: Config, st: State, peer: Identity, body: string, now: int, io: bool, e: Event)
    requires Invariant(cfg, st) && Parse(body).Some? && e.id == "" && |st.records| < MAX_PENDING
    requires Preflight(cfg, Parse(body).value).decision == AskFirst
    requires !("approval." <= Parse(body).value.name)
    ensures Effect(cfg, st, ToolRoute(cfg, st, peer, Parse(body).value, now, io, [e]))
  {
    hide Parse, CanWrite, RequestId, HashOf, Escape, Project, RequiredFits;
    var q := Parse(body).value;
    var r := NewRecord(st.nextId, q, Preflight(cfg, q), peer, now + cfg.ttl);
    NewRecordSound(cfg, body, st.nextId, peer, now + cfg.ttl);
    RequestIdPlain(st.nextId);
    EventOfNobody(e, RequiredEvent(r, peer), r.id);
  }

  lemma ToolRouteQuiet(cfg: Config, st: State, peer: Identity, q: Request, now: int, io: bool, e: Event)
    requires e.id == ""
    requires "approval." <= q.name || Preflight(cfg, q).decision != AskFirst || |st.records| >= MAX_PENDING
    ensures Effect(cfg, st, ToolRoute(cfg, st, peer, q, now, io, [e]))
  {
    hide CanWrite, NewRecord, RequiredFits, RequiredEvent, Preflight, Trunc;
    hide AddedEffect, GrantEffect, RejectEffect, RunEffect;
    DefaultDeny(cfg, q);
  }

  lemma ToolStepEffect(cfg: Config, st: State, peer: Identity, body: string, now: int, io1: bool, io2: bool)
    requires Invariant(cfg, st)
    ensures Effect(cfg, st, ToolStep(cfg, st, peer, body, now, io1, io2))
  {
    hide Parse, CanWrite, ToolRoute, Preflight;
    if Parse(body).Some? {
      var q := Parse(body).value;
      var e := ReceivedEvent(q, peer);
      if "approval." <= q.name || Preflight(cfg, q).decision != AskFirst || |st.records| >= MAX_PENDING {
        ToolRouteQuiet(cfg, st, peer, q, now, io2, e);
      } else {
        AddEffect(cfg, st, peer, body, now, io2, e);
      }
    }
  }

  lemma EventOfNobody(e: Event, f: Event, id: string)
    requires e.id == "" && f.id == id && id != ""
    ensures Project([e], id) == [] && Project([e, f], id) == [f.kind] && [e] + [f] == [e, f]
  {
    ProjectOne(e, id);
    ProjectOne(f, id);
    ProjectTwo(e, f, id);
  }

  lemma ApproveEffect(cfg: Config, st: State, peer: Identity, to: string, slot: Option<nat>, now: int, io: bool)
    requires Invariant(cfg, st) && IsAdmin(cfg, peer) && (slot.Some? ==> slot.value < |st.records|)
    ensures Effect(cfg, st, ApproveSlot(st, peer, to, slot, now, io))
  {
    hide CanWrite, Sound, Project, RequestId;
    if slot.Some? {
      var r := st.records[slot.value];
      var g := r.(approver := peer, status := Granted);
      ProjectOne(RecordEvent(ApprovalGranted, g, g.requester, Some(peer), "granted", "", g.summary), r.id);
    }
  }

  lemma RejectEffects(cfg: Config, st: State, peer: Identity, to: string, slot: Option<nat>, now: int, io: bool)
    requires Invariant(cfg, st) && IsAdmin(cfg, peer) && (slot.Some? ==> slot.value < |st.records|)
    ensures Effect(cfg, st, RejectSlot(st, peer, to, slot, now, io))
  {
    hide CanWrite, Sound, Project, RequestId;
    if slot.Some? {
      var r := st.records[slot.value];
      var g := r.(approver := peer, status := Rejected);
      ProjectOne(RecordEvent(ApprovalRejected, g, g.requester, Some(peer), "rejected", "", g.summary), r.id);
    }
  }

  lemma RunToolEffect(cfg: Config, st: State, peer: Identity, to: string, i: nat, now: int, io: bool,
                      info: Gathered, started: Event)
    requires i < |st.records| && IsAdmin(cfg, peer)
    requires st.records[i].status == Granted && now <= st.records[i].expires
    requires started.kind == ExecutionStarted && started.id == st.records[i].id
    ensures Effect(cfg, st, RunTool(st, peer, to, i, now, io, info, started))
  {
    hide CanWrite, Sound, Project;
    var r := st.records[i];
    var e := if info.Info? then RecordEvent(ExecutionFinished, r, r.requester, Some(peer), "finished", "", r.summary)
             else RecordEvent(ExecutionFailed, r, r.requester, Some(peer), "failed", "execution_failed",
                              GatherError(info));
    ProjectOne(started, r.id);
    ProjectOne(e, r.id);
    ProjectTwo(started, e, r.id);
  }

  lemma ExecuteEffect(cfg: Config, st: State, peer: Identity, to: string, slot: Option<nat>, now: int,
                      io1: bool, io2: bool, info: Gathered)
    requires Invariant(cfg, st) && IsAdmin(cfg, peer) && (slot.Some? ==> slot.value < |st.records|)
    ensures Effect(cfg, st, ExecuteSlot(cfg, st, peer, to, slot, now, io1, io2, info))
  {
    hide CanWrite, Sound, RunTool, ToRequest, Preflight;
    if slot.Some? {
      var r := st.records[slot.value];
      CopyIsLossless(cfg, r);
      if SlotDenial(st, slot, now).None? {
        RunToolEffect(cfg, st, peer, to, slot.value, now, io2, info,
                      RecordEvent(ExecutionStarted, r, r.requester, Some(peer), "started", "", r.summary));
      }
    }
  }

  lemma AdminStepEffect(cfg: Config, st: State, peer: Identity, body: string, now: int,
                        io1: bool, io2: bool, info: Gathered)
    requires Invariant(cfg, st)
    ensures Effect(cfg, st, AdminStep(cfg, st, peer, body, now, io1, io2, info))
  {
    hide Parse, Extract, CanWrite, ExecuteSlot, ApproveSlot, RejectSlot, AllFit, ListText, Sound, Invariant;
    if Parse(body).Some? && IsAdmin(cfg, peer) {
      var q := Parse(body).value;
      var id := Extract(q.params, "request_id", MAX_REQUEST_ID);
      if id.Some? {
        var slot := FindSlot(st.records, id.value);
        ExecuteEffect(cfg, st, peer, q.id, slot, now, io1, io2, info);
        ApproveEffect(cfg, st, peer, q.id, slot, now, io1);
        RejectEffects(cfg, st, peer, q.id, slot, now, io1);
      }
    }
  }

  /** Every step has one of the described effects. */
  lemma StepEffect(cfg: Config, st: State, inp: Input)
    requires Invariant(cfg, st)
    ensures Effect(cfg, st, Step(cfg, st, inp))
  {
    hide ToolStep, AdminStep, Effect, Invariant;
    match inp
    case ToolSocket(peer, body, now, io1, io2) => ToolStepEffect(cfg, st, peer, body, now, io1, io2);
    case AdminSocket(peer, body, now, io1, io2, info) => AdminStepEffect(cfg, st, peer, body, now, io1, io2, info);
  }

  /** Acts are done by the connected peer at the step's clock: adding on the tool socket,
      everything else on the admin socket. */
  predicate ActOf(inp: Input, act: Act) {
    match act
    case Quiet => true
    case Added(i, who, at) => inp.ToolSocket? && who == inp.peer && at == inp.now
    case Granting(i, who, at) => inp.AdminSocket? && who == inp.peer && at == inp.now
    case Rejecting(i, who, at) => inp.AdminSocket? && who == inp.peer && at == inp.now
    case Running(i, who, at, ok) => inp.AdminSocket? && who == inp.peer && at == inp.now && ok == inp.info.Info?
  }

  lemma AdminStepActs(cfg: Config, st: State, inp: Input)
    requires inp.AdminSocket?
    ensures ActOf(inp, Step(cfg, st, inp).act)
  {
    hide Parse, Extract, CanWrite, ListText, AllFit, Preflight, ToRequest, IsAdmin;
    hide RecordEvent, GrantDenial, RejectDenial, SlotDenial, ControlDeniedEvent;
  }

  lemma StepActs(cfg: Config, st: State, inp: Input)
    ensures ActOf(inp, Step(cfg, st, inp).act)
  {
    hide Parse, CanWrite, NewRecord, Preflight, RequiredFits, AdminStep;
    if inp.AdminSocket? {
      AdminStepActs(cfg, st, inp);
    }
  }

  /** And every step keeps the invariant. */
  lemma StepKeepsInvariant(cfg: Config, st: State, inp: Input)
    requires Invariant(cfg, st)
    ensures Invariant(cfg, After(st, Step(cfg, st, inp)))
  {
    hide Step, Sound, ReportsOrNot, Reports, IsToolResult, IsAdmin, RequestId;
    StepEffect(cfg, st, inp);
    var o := Step(cfg, st, inp);
    SoundIgnoresStatus(cfg, st.records);
    if o.act.Added? {
      forall k | 0 <= k < |o.records| ensures o.records[k].id == RequestId(k + 1) && Sound(cfg, o.records[k]) {
        if k < |st.records| {
          assert o.records[k] == o.records[..|st.records|][k];
        }
      }
    }
  }

  lemma SoundIgnoresStatus(cfg: Config, records: seq<Record>)
    ensures forall i, who, s | 0 <= i < |records| && Sound(cfg, records[i]) ::
              Sound(cfg, records[i].(approver := who, status := s))
    ensures forall i, s | 0 <= i < |records| && Sound(cfg, records[i]) :: Sound(cfg, records[i].(status := s))
  {}
}
