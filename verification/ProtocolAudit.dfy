/** The audit log over whole runs, and which requests always get as far as executing. */
module ProtocolAudit {
  import opened Bytes
  import opened JsonString
  import opened Config
  import opened Policy
  import opened RpcGrammar
  import opened RpcParse
  import opened RpcParams
  import opened RpcReply
  import opened Approval
  import opened Audit
  import opened Protocol
  import opened ProtocolSteps
  import opened ProtocolRuns

  // ---- the log about one id -------------------------------------------------------------

  lemma {:induction false} ProjectAppend(a: seq<Event>, b: seq<Event>, id: string)
    ensures Project(a + b, id) == Project(a, id) + Project(b, id)
  {
    if b == [] {
      assert a + b == a;
    } else {
      var n := |b| - 1;
      assert (a + b)[..|a| + n] == a + b[..n];
      ProjectAppend(a, b[..n], id);
    }
  }

  lemma {:induction false} ProjectOther(es: seq<Event>, other: string, id: string)
    requires Only(es, other) && id != other && id != ""
    ensures Project(es, id) == []
  {
    if es != [] {
      ProjectOther(es[..|es| - 1], other, id);
    }
  }

  /** Which phases of the log go with a record's status.  The log may lag behind the
      store, because the store is changed before the audit write that can fail. */
  predicate PhaseFits(p: Phase, s: Status) {
    match s
    case Pending => p in {Silent, Asked}
    case Granted => p in {Silent, Asked, Allowed, Open, Closed}
    case Executed => p in {Open, Finished}
    case Rejected => true
  }

  predicate WordFits(w: seq<EventKind>, records: seq<Record>, i: nat) {
    if i < |records| then PhaseOf(w).Some? && PhaseFits(PhaseOf(w).value, records[i].status)
    else w == []
  }

  lemma PhaseOfOne(w: seq<EventKind>, k: EventKind)
    ensures PhaseOf(w + [k]) == if PhaseOf(w).Some? then Advance(PhaseOf(w).value, k) else None
  {
    assert (w + [k])[..|w|] == w;
  }

  lemma PhaseOfTwo(w: seq<EventKind>, k: EventKind, m: EventKind)
    ensures w + [k, m] == (w + [k]) + [m]
  {}

  /** The slot that an act is about. */
  function SlotOf(act: Act): Option<nat> {
    if act.Quiet? then None else Some(act.slot)
  }

  /** All events of a step are about the slot that it touches. */
  lemma EventsAboutSlot(cfg: Config, st: State, o: Outcome, i: nat)
    requires Invariant(cfg, st) && Effect(cfg, st, o) && SlotOf(o.act) != Some(i)
    ensures Project(o.events, RequestId(i + 1)) == []
  {
    hide Sound, IsToolResult, IsAdmin, NeverRefused, Project, RequestId;
    var id := RequestId(i + 1);
    RequestIdPlain(i + 1);
    if o.act.Quiet? {
      ProjectOther(o.events, "", id);
    } else {
      var j := o.act.slot;
      if RequestId(j + 1) == id {
        RequestIdInjective(j + 1, i + 1);
      }
      ProjectOther(o.events, RequestId(j + 1), id);
    }
  }

  lemma WordAfterOwn(cfg: Config, st: State, o: Outcome, i: nat, w: seq<EventKind>)
    requires Invariant(cfg, st) && Effect(cfg, st, o) && SlotOf(o.act) == Some(i) && WordFits(w, st.records, i)
    ensures WordFits(w + Project(o.events, RequestId(i + 1)), o.records, i)
  {
    hide Sound, IsToolResult, IsAdmin, NeverRefused, Project, RequestId, PhaseOf;
    var id := RequestId(i + 1);
    var more := Project(o.events, id);
    if more == [] {
      assert w + more == w;
    }
    NothingYet();
    if |more| >= 1 {
      PhaseOfOne(w, more[0]);
    }
    if |more| == 2 {
      PhaseOfTwo(w, more[0], more[1]);
      PhaseOfOne(w + [more[0]], more[1]);
    }
  }

  lemma NothingYet()
    ensures PhaseOf([]) == Some(Silent)
  {}

  lemma WordAfterOther(cfg: Config, st: State, o: Outcome, i: nat, w: seq<EventKind>)
    requires Effect(cfg, st, o) && SlotOf(o.act) != Some(i) && WordFits(w, st.records, i)
    ensures WordFits(w, o.records, i)
  {
    hide Sound, IsToolResult, IsAdmin, NeverRefused, ReportsOrNot, Reports, Only, PhaseOf;
    if o.act.Added? && i < |st.records| {
      assert o.records[..|st.records|][i] == st.records[i];
    }
  }

  /** In every reachable log, the events about each id form a word of the log language,
      in a phase that fits the record; ids that were not handed out have none. */
  lemma {:induction false} LogInLanguage(cfg: Config, ins: seq<Input>, i: nat)
    ensures WordFits(Project(Run(cfg, ins).log, RequestId(i + 1)), Run(cfg, ins).records, i)
  {
    hide Step, Effect, Invariant, WordFits, RequestId, ActOf;
    if ins == [] {
      EmptyWordFits(i);
    } else {
      var before := ins[..|ins| - 1];
      LogInLanguage(cfg, before, i);
      var st, o := LastStepEffect(cfg, ins);
      var id := RequestId(i + 1);
      var w := Project(st.log, id);
      ProjectAppend(st.log, o.events, id);
      if SlotOf(o.act) == Some(i) {
        WordAfterOwn(cfg, st, o, i, w);
      } else {
        EventsAboutSlot(cfg, st, o, i);
        WordAfterOther(cfg, st, o, i, w);
        assert w + Project(o.events, id) == w;
      }
    }
  }

  lemma EmptyWordFits(i: nat)
    ensures WordFits([], [], i)
  {}

  /** Audit ordering, spelled out for two positions of the word of one id: each end of an
      execution directly follows its own start, and nothing but rejections follows a
      finished execution or a rejection; so an execution finishes at most once. */
  lemma AuditOrdering(cfg: Config, ins: seq<Input>, i: nat, k: nat, m: nat)
    requires i < |Run(cfg, ins).records|
    requires k < m < |Project(Run(cfg, ins).log, RequestId(i + 1))|
    ensures var w := Project(Run(cfg, ins).log, RequestId(i + 1));
      && (w[m] in {ExecutionFinished, ExecutionFailed} ==> w[m - 1] == ExecutionStarted)
      && w[0] !in {ExecutionFinished, ExecutionFailed}
      && (w[k] in {ExecutionFinished, ApprovalRejected} ==> w[m] == ApprovalRejected)
  {
    hide Run, Project, RequestId, PhaseOf, Advance;
    LogInLanguage(cfg, ins, i);
    var w := Project(Run(cfg, ins).log, RequestId(i + 1));
    if w[m] in {ExecutionFinished, ExecutionFailed} {
      EndFollowsStart(w, m);
    }
    if w[0] in {ExecutionFinished, ExecutionFailed} {
      EndFollowsStart(w, 0);
    }
    if w[k] in {ExecutionFinished, ApprovalRejected} {
      OnlyRejectionsAfter(w, k, m);
    }
  }

  // ---- a sent result is logged --------------------------------------------------------------

  lemma {:induction false} LogGrows(cfg: Config, ins: seq<Input>, n: nat)
    requires n <= |ins|
    ensures Run(cfg, ins[..n]).log <= Run(cfg, ins).log
  {
    hide Step;
    if n == |ins| {
      assert ins[..n] == ins;
    } else {
      LogGrows(cfg, ins[..|ins| - 1], n);
      assert ins[..|ins| - 1][..n] == ins[..n];
    }
  }

  lemma TwoProjected(es: seq<Event>, id: string, a: EventKind, b: EventKind)
    requires |es| == 2 && Project(es, id) == [a, b]
    ensures es[0].id == id && es[0].kind == a && es[1].id == id && es[1].kind == b
  {
    assert es == [es[0], es[1]];
    ProjectOne(es[0], id);
    ProjectOne(es[1], id);
    ProjectTwo(es[0], es[1], id);
    var p, q := Project([es[0]], id), Project([es[1]], id);
    assert |p| == 1 && |q| == 1 && (p + q)[0] == p[0] && (p + q)[1] == q[0];
  }

  /** Whoever was sent system information, the log says so: it holds the start and the end
      of that execution, next to each other. */
  lemma ResultIsLogged(cfg: Config, ins: seq<Input>, k: nat) returns (m: nat)
    requires k < |ins| && |Run(cfg, ins).sent| == |ins| && IsToolResult(Run(cfg, ins).sent[k])
    ensures m + 1 < |Run(cfg, ins).log|
    ensures var log, id := Run(cfg, ins).log, Run(cfg, ins).sent[k].payload.requestId;
      && log[m].kind == ExecutionStarted && log[m].id == id
      && log[m + 1].kind == ExecutionFinished && log[m + 1].id == id
  {
    hide Step, Run, Sound, Only, IsAdmin, Project, RequestId, Acts;
    OneReplyEach(cfg, ins, k);
    var st, o := LastStepEffect(cfg, ins[..k + 1]);
    var id := Run(cfg, ins).sent[k].payload.requestId;
    TwoProjected(o.events, id, ExecutionStarted, ExecutionFinished);
    LogGrows(cfg, ins, k + 1);
    m := |st.log|;
    var log := Run(cfg, ins[..k + 1]).log;
    assert log == st.log + o.events;
    assert log[m] == o.events[0] && log[m + 1] == o.events[1];
  }

  // ---- what always gets through ---------------------------------------------------------------

  /** The refusals for a changed request and for a failed policy recheck are never sent. */
  lemma NeverChanged(cfg: Config, ins: seq<Input>, k: nat)
    requires k < |ins|
    ensures k < |Run(cfg, ins).sent| && NeverRefused(Run(cfg, ins).sent[k])
  {
    hide Step, Run, QuietEffect, AddedEffect, GrantEffect, RejectEffect, RunEffect;
    OneReplyEach(cfg, ins, k);
    var st, o := LastStepEffect(cfg, ins[..k + 1]);
  }

  lemma RequestEventsFit(cfg: Config, body: string, peer: Identity)
    requires Parse(body).Some?
    ensures var q := Parse(body).value;
      && CanWrite(ReceivedEvent(q, peer))
      && CanWrite(ControlDeniedEvent(q, peer, "agent tool socket cannot access approval methods"))
      && CanWrite(ControlDeniedEvent(q, peer, "admin caller is not in allowlist"))
      && CanWrite(PolicyDeniedEvent(q, peer, Preflight(cfg, q)))
  {
    hide Parse, Escape, KindName, Plain;
    ParsedFits(body);
    var q := Parse(body).value;
    KindFits(RequestReceived);
    KindFits(PreflightDenied);
    EscapeAtMostDoubles(q.session);
    EscapeAtMostDoubles(q.name);
    ExecutionNamesPlain();
    DenialNamesPlain();
    ShortPlainFits("");
    ShortPlainFits("low");
    ShortPlainFits("received");
    ShortPlainFits("denied");
    ShortPlainFits("deny");
    ShortPlainFits("bounded request");
    ShortPlainFits("control_plane_denied");
    EscapeAtMostSix("agent tool socket cannot access approval methods");
    EscapeAtMostSix("admin caller is not in allowlist");
    VerdictFits(cfg, q);
  }

  lemma DenialNamesPlain()
    ensures ShortPlain("received") && ShortPlain("denied") && ShortPlain("deny")
    ensures ShortPlain("bounded request") && ShortPlain("control_plane_denied")
  {}

  lemma ReasonsPlain()
    ensures ShortPlain("unknown_tool") && ShortPlain("policy_denied") && ShortPlain("approval_required")
  {}

  lemma VerdictFits(cfg: Config, q: Request)
    requires Encodable(q.name) && |q.name| < MAX_METHOD
    ensures var v := Preflight(cfg, q); |Escape(v.reason)| < 128 && |Escape(v.summary)| < 512
  {
    hide Escape, Plain;
    ReasonsPlain();
    ShortPlainFits("unknown_tool");
    ShortPlainFits("policy_denied");
    ShortPlainFits("approval_required");
    EscapeAtMostSix("sys.info denied because capabilities.sys_read is disabled");
    EscapeAtMostSix(SUMMARY);
    assert Encodable("Unknown method " + q.name) by {
      assert Encodable("Unknown method ");
    }
    EscapeAtMostDoubles("Unknown method " + q.name);
  }

  lemma ChangedRecordSound(cfg: Config, st: State, i: nat, who: Identity, s: Status)
    requires Invariant(cfg, st) && i < |st.records|
    ensures var r := st.records[i]; r.id == RequestId(i + 1) && i + 1 <= MAX_PENDING
    ensures Sound(cfg, st.records[i]) && Sound(cfg, st.records[i].(approver := who, status := s))
  {}

  lemma StepEventFits(cfg: Config, st: State, i: nat, kind: EventKind, admin: Identity,
                      decision: string, errorKind: string, summary: string, s: Status)
    requires Invariant(cfg, st) && i < |st.records|
    requires ShortPlain(decision) && ShortPlain(errorKind) && |summary| <= 64
    ensures var r := st.records[i];
      && CanWrite(RecordEvent(kind, r, r.requester, Some(admin), decision, errorKind, summary))
      && CanWrite(RecordEvent(kind, r.(approver := admin, status := s), r.requester, Some(admin),
                              decision, errorKind, summary))
  {
    hide Sound, CanWrite, ShortPlain, RequestId, Invariant;
    ChangedRecordSound(cfg, st, i, admin, s);
    var r := st.records[i];
    RecordEventFits(cfg, r, i + 1, kind, r.requester, Some(admin), decision, errorKind, summary);
    RecordEventFits(cfg, r.(approver := admin, status := s), i + 1, kind, r.requester, Some(admin),
                    decision, errorKind, summary);
  }

  predicate AuditFailedReply(o: Outcome) {
    o.reply.Error? && o.reply.kind == AuditFailed
  }

  lemma SlotAuditFailure(cfg: Config, st: State, peer: Identity, to: string, slot: Option<nat>, now: int,
                         info: Gathered)
    requires Invariant(cfg, st) && (slot.Some? ==> slot.value < |st.records|)
    ensures !AuditFailedReply(ApproveSlot(st, peer, to, slot, now, true))
    ensures !AuditFailedReply(RejectSlot(st, peer, to, slot, now, true))
    ensures !AuditFailedReply(ExecuteSlot(cfg, st, peer, to, slot, now, true, true, info))
  {
    hide CanWrite, ShortPlain, RequestId, Invariant, Sound, ToRequest, Preflight;
    if slot.Some? {
      var i := slot.value;
      var r := st.records[i];
      DecisionsPlain();
      ExecutionNamesPlain();
      ApprovalNamesPlain();
      SummaryIsShort(cfg, st, i);
      StepEventFits(cfg, st, i, ApprovalGranted, peer, "granted", "", r.summary, Granted);
      StepEventFits(cfg, st, i, ApprovalRejected, peer, "rejected", "", r.summary, Rejected);
      StepEventFits(cfg, st, i, ExecutionStarted, peer, "started", "", r.summary, Granted);
      StepEventFits(cfg, st, i, ExecutionFinished, peer, "finished", "", r.summary, Granted);
      StepEventFits(cfg, st, i, ExecutionFailed, peer, "failed", "execution_failed", GatherError(info), Granted);
    }
  }

  lemma SummaryIsShort(cfg: Config, st: State, i: nat)
    requires Invariant(cfg, st) && i < |st.records|
    ensures |st.records[i].summary| <= 64
  {}

  /** The scratch buffers never run out: an audit failure is answered only when the file
      system refused one of the writes. */
  lemma AuditFailureIsIo(cfg: Config, st: State, inp: Input)
    requires Invariant(cfg, st) && inp.io1 && inp.io2
    ensures !AuditFailedReply(Step(cfg, st, inp))
  {
    hide Parse, Extract, CanWrite, Invariant, ListText, AllFit, ExecuteSlot, ApproveSlot, RejectSlot, ToolRoute;
    if Parse(inp.body).Some? {
      var q := Parse(inp.body).value;
      RequestEventsFit(cfg, inp.body, inp.peer);
      if inp.ToolSocket? {
        ToolAuditFailure(cfg, st, inp.peer, inp.body, inp.now, [ReceivedEvent(q, inp.peer)]);
      } else {
        var id := Extract(q.params, "request_id", MAX_REQUEST_ID);
        if id.Some? {
          SlotAuditFailure(cfg, st, inp.peer, q.id, FindSlot(st.records, id.value), inp.now, inp.info);
        }
      }
    }
  }

  lemma ToolAuditFailure(cfg: Config, st: State, peer: Identity, body: string, now: int, es: seq<Event>)
    requires Invariant(cfg, st) && Parse(body).Some?
    ensures !AuditFailedReply(ToolRoute(cfg, st, peer, Parse(body).value, now, true, es))
  {
    hide Parse, CanWrite, Sound, NewRecord, RequiredFits, RequestId, ShortPlain, Preflight;
    var q := Parse(body).value;
    RequestEventsFit(cfg, body, peer);
    DefaultDeny(cfg, q);
    if Preflight(cfg, q).decision == AskFirst && |st.records| < MAX_PENDING {
      var r := NewRecord(st.nextId, q, Preflight(cfg, q), peer, now + cfg.ttl);
      NewRecordSound(cfg, body, st.nextId, peer, now + cfg.ttl);
      RequiredEventFits(cfg, r, st.nextId, peer);
    }
  }

  lemma RequiredEventFits(cfg: Config, r: Record, n: nat, peer: Identity)
    requires Sound(cfg, r) && n <= MAX_PENDING && r.id == RequestId(n)
    ensures CanWrite(RequiredEvent(r, peer))
  {
    hide RequestId, ShortPlain, CanWrite;
    RequestNamesPlain();
    ExecutionNamesPlain();
    RecordEventFits(cfg, r, n, ApprovalRequired, peer, None, "approval_required", "", r.summary);
  }

  /** A granted record that has not expired is always executable: when an admin asks, the
      start is audited, and if that reaches the disk the tool runs. */
  lemma GrantedIsExecutable(cfg: Config, st: State, i: nat, peer: Identity, body: string, now: int,
                            io1: bool, io2: bool, info: Gathered)
    requires Invariant(cfg, st) && i < |st.records| && IsAdmin(cfg, peer)
    requires st.records[i].status == Granted && now <= st.records[i].expires
    requires Parse(body).Some? && Parse(body).value.name == "approval.execute"
    requires Extract(Parse(body).value.params, "request_id", MAX_REQUEST_ID) == Some(RequestId(i + 1))
    ensures var o := AdminStep(cfg, st, peer, body, now, io1, io2, info);
      if io1 then o.act == Running(i, peer, now, info.Info?)
      else o.act == Quiet && o.reply == Error(Parse(body).value.id, AuditFailed) && o.events == []
  {
    hide Parse, Extract, CanWrite, Sound, ToRequest, Preflight, RequestId, ShortPlain;
    FindExact(st.records, st.nextId, RequestId(i + 1), i);
    var r := st.records[i];
    CopyIsLossless(cfg, r);
    DecisionsPlain();
    ExecutionNamesPlain();
    SummaryIsShort(cfg, st, i);
    StepEventFits(cfg, st, i, ExecutionStarted, peer, "started", "", r.summary, Granted);
  }

  // ---- frames -----------------------------------------------------------------------------

  /** A tool request appends at most one pending record and touches no other. */
  lemma ToolFrame(cfg: Config, st: State, inp: Input)
    requires Invariant(cfg, st) && inp.ToolSocket?
    ensures var records := Step(cfg, st, inp).records;
      || records == st.records
      || (|records| == |st.records| + 1 && records[..|st.records|] == st.records
          && records[|st.records|].status == Pending && records[|st.records|].requester == inp.peer)
  {
    hide Step, Sound, ReportsOrNot, IsToolResult;
    StepEffect(cfg, st, inp);
    StepActs(cfg, st, inp);
  }

  /** An admin request changes at most the status and the approver of one record. */
  lemma AdminFrame(cfg: Config, st: State, inp: Input) returns (i: nat)
    requires Invariant(cfg, st) && inp.AdminSocket?
    ensures var records := Step(cfg, st, inp).records;
      && |records| == |st.records|
      && (forall k | 0 <= k < |records| && k != i :: records[k] == st.records[k])
      && (i < |records| ==>
            records[i] == st.records[i].(approver := records[i].approver, status := records[i].status))
  {
    hide Step, Sound, ReportsOrNot, Reports, IsToolResult, IsAdmin;
    StepEffect(cfg, st, inp);
    StepActs(cfg, st, inp);
    var act := Step(cfg, st, inp).act;
    i := if act.Quiet? then 0 else act.slot;
  }
}
