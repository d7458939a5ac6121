/** What a request does and what it leaves in the log, said by the request and the record
    it names alone: conditions that a caller can check before the call. */
module ProtocolDue {
  import opened Bytes
  import opened Config
  import opened Policy
  import opened RpcParse
  import opened RpcParams
  import opened RpcReply
  import opened Approval
  import opened Audit
  import opened Protocol
  import opened ProtocolSteps
  import opened ProtocolAudit
  import opened ProtocolLog

  /** The slot of the record that the params name. */
  function Target(st: State, q: Request): (slot: Option<nat>)
    ensures slot.Some? ==> slot.value < |st.records|
  {
    var id := Extract(q.params, "request_id", MAX_REQUEST_ID);
    if id.Some? then FindSlot(st.records, id.value) else None
  }

  /** What an authorised admin may do to a record.  Identities are whole triples: the same
      user in another process is another identity. */
  function DueOn(r: Record, i: nat, name: string, inp: Input): Act
    requires inp.AdminSocket?
  {
    if name == "approval.approve" && r.status == Pending && inp.now <= r.expires && inp.peer != r.requester then
      Granting(i, inp.peer, inp.now)
    else if name == "approval.reject" && inp.peer != r.requester then
      Rejecting(i, inp.peer, inp.now)
    else if name == "approval.execute" && r.status == Granted && inp.now <= r.expires && inp.io1 then
      Running(i, inp.peer, inp.now, inp.info.Info?)
    else
      Quiet
  }

  function Due(cfg: Config, st: State, inp: Input): Act {
    var p := Parse(inp.body);
    if p.None? then Quiet
    else if inp.ToolSocket? then
      if inp.io1 && Approvable(cfg, st, p.value) then Added(|st.records|, inp.peer, inp.now) else Quiet
    else
      var slot := Target(st, p.value);
      if IsAdmin(cfg, inp.peer) && slot.Some? then DueOn(st.records[slot.value], slot.value, p.value.name, inp)
      else Quiet
  }

  lemma SlotActs(cfg: Config, st: State, inp: Input, to: string, slot: nat)
    requires Invariant(cfg, st) && inp.AdminSocket? && slot < |st.records|
    ensures var r := st.records[slot];
      && ApproveSlot(st, inp.peer, to, Some(slot), inp.now, inp.io1).act == DueOn(r, slot, "approval.approve", inp)
      && RejectSlot(st, inp.peer, to, Some(slot), inp.now, inp.io1).act == DueOn(r, slot, "approval.reject", inp)
      && ExecuteSlot(cfg, st, inp.peer, to, Some(slot), inp.now, inp.io1, inp.io2, inp.info).act
      == DueOn(r, slot, "approval.execute", inp)
  {
    hide CanWrite, Sound, ToRequest, Preflight, RequestId, ShortPlain, Invariant;
    var r := st.records[slot];
    RecordIsSound(cfg, st, slot);
    CopyIsLossless(cfg, r);
    DecisionsPlain();
    ExecutionNamesPlain();
    SummaryIsShort(cfg, st, slot);
    StepEventFits(cfg, st, slot, ExecutionStarted, inp.peer, "started", "", r.summary, Granted);
  }

  lemma RecordIsSound(cfg: Config, st: State, i: nat)
    requires Invariant(cfg, st) && i < |st.records|
    ensures Sound(cfg, st.records[i])
  {}

  lemma AdminActIsDue(cfg: Config, st: State, inp: Input)
    requires Invariant(cfg, st) && inp.AdminSocket?
    ensures Step(cfg, st, inp).act == Due(cfg, st, inp)
  {
    hide Parse, Extract, FindSlot, IsAdmin, CanWrite, Invariant, ListReply, ApproveSlot, RejectSlot, ExecuteSlot;
    if Parse(inp.body).Some? {
      var q := Parse(inp.body).value;
      var slot := Target(st, q);
      if slot.Some? {
        SlotActs(cfg, st, inp, q.id, slot.value);
      } else {
        NoSlotNoAct(cfg, st, inp, q.id);
      }
    }
  }

  lemma NoSlotNoAct(cfg: Config, st: State, inp: Input, to: string)
    requires inp.AdminSocket?
    ensures ApproveSlot(st, inp.peer, to, None, inp.now, inp.io1).act == Quiet
    ensures RejectSlot(st, inp.peer, to, None, inp.now, inp.io1).act == Quiet
    ensures ExecuteSlot(cfg, st, inp.peer, to, None, inp.now, inp.io1, inp.io2, inp.info).act == Quiet
  {}

  lemma ToolActIsDue(cfg: Config, st: State, inp: Input)
    requires Invariant(cfg, st) && inp.ToolSocket?
    ensures Step(cfg, st, inp).act == Due(cfg, st, inp)
  {
    hide Parse, Step, Invariant, Approvable, Kinds, Owed, Sound, ReportsOrNot, IsToolResult, NeverRefused;
    ToolStepLogged(cfg, st, inp);
    StepActs(cfg, st, inp);
    StepEffect(cfg, st, inp);
  }

  /** In every state that satisfies the invariant, a request does to the store exactly what
      its body, its peer, the clock, the named record and the first audit write call for:
      nothing is granted, rejected or run without the conditions, and nothing that meets
      them is held back. */
  lemma ActIsDue(cfg: Config, st: State, inp: Input)
    requires Invariant(cfg, st)
    ensures Step(cfg, st, inp).act == Due(cfg, st, inp)
  {
    hide Step, Due, Invariant;
    if inp.ToolSocket? {
      ToolActIsDue(cfg, st, inp);
    } else {
      AdminActIsDue(cfg, st, inp);
    }
  }

  // ---- what is logged -------------------------------------------------------------------

  /** The kinds of the events that a request leaves in the log. */
  function DueEvents(cfg: Config, st: State, inp: Input): seq<EventKind> {
    var p := Parse(inp.body);
    if p.None? then []
    else if inp.AdminSocket? && IsAdmin(cfg, inp.peer) then Owed(Due(cfg, st, inp), inp.io1, inp.io2)
    else if !inp.io1 then []
    else if inp.AdminSocket? then [PreflightDenied]
    else if Approvable(cfg, st, p.value) then [RequestReceived] + if inp.io2 then [ApprovalRequired] else []
    else if inp.io2 && !(p.value.name == "sys.info" && cfg.sysRead) then [RequestReceived, PreflightDenied]
    else [RequestReceived]
  }

  /** A request leaves exactly these events, so at least one is logged exactly when it can
      be read, the first write goes through, and it is not an authorised admin request that
      changes nothing. */
  lemma EventsAreDue(cfg: Config, st: State, inp: Input)
    requires Invariant(cfg, st)
    ensures Kinds(Step(cfg, st, inp).events) == DueEvents(cfg, st, inp)
    ensures Step(cfg, st, inp).events != [] <==>
            && Parse(inp.body).Some? && inp.io1
            && (inp.AdminSocket? && IsAdmin(cfg, inp.peer) ==> Due(cfg, st, inp) != Quiet)
  {
    hide Parse, Step, Invariant, Approvable, Target, DueOn, IsAdmin, AsksApproval;
    ActIsDue(cfg, st, inp);
    var o := Step(cfg, st, inp);
    if inp.ToolSocket? {
      ToolStepLogged(cfg, st, inp);
    } else {
      AdminStepLogged(cfg, st, inp);
      RunsNeedTheWrite(cfg, st, inp);
    }
    assert o.events == [] <==> Kinds(o.events) == [];
  }

  lemma RunsNeedTheWrite(cfg: Config, st: State, inp: Input)
    ensures inp.AdminSocket? && Due(cfg, st, inp).Running? ==> inp.io1
    ensures inp.AdminSocket? ==> !Due(cfg, st, inp).Added?
  {
    hide Parse, Extract, FindSlot, IsAdmin;
  }

  /** The design asks for an event for every approved, rejected and started request.  An
      approved one lacks its event exactly when the write fails: the store has changed. */
  lemma GrantLacksEvent(cfg: Config, st: State, inp: Input)
    requires Invariant(cfg, st) && Due(cfg, st, inp).Granting?
    ensures var o := Step(cfg, st, inp); var i := Due(cfg, st, inp).slot;
      && i < |o.records| && o.records[i].status == Granted
      && (o.events == [] <==> !inp.io1)
  {
    hide Parse, Step, Sound, ReportsOrNot, IsToolResult, NeverRefused, IsAdmin, RequestId;
    hide Target, DueOn, Due, DueEvents;
    ActIsDue(cfg, st, inp);
    StepEffect(cfg, st, inp);
    StepActs(cfg, st, inp);
    GrantEvents(cfg, st, inp);
  }

  lemma GrantEvents(cfg: Config, st: State, inp: Input)
    requires Invariant(cfg, st) && Due(cfg, st, inp).Granting?
    ensures Step(cfg, st, inp).events == [] <==> !inp.io1
  {
    hide Step, Target, DueOn, IsAdmin, Parse, Invariant, Approvable;
    EventsAreDue(cfg, st, inp);
  }

  // ---- an executed record is not safe from rejection --------------------------------------

  /** EXECUTED is left exactly by a reject request for that record from an authorised admin
      with another identity than the requester, at any time. */
  lemma ExecutedCanBeRejected(cfg: Config, st: State, inp: Input, i: nat)
    requires Invariant(cfg, st) && i < |st.records| && st.records[i].status == Executed
    ensures var records := Step(cfg, st, inp).records; var p := Parse(inp.body);
      && i < |records|
      && (records[i].status != Executed <==>
            && inp.AdminSocket? && IsAdmin(cfg, inp.peer) && inp.peer != st.records[i].requester
            && p.Some? && p.value.name == "approval.reject"
            && Extract(p.value.params, "request_id", MAX_REQUEST_ID) == Some(RequestId(i + 1)))
      && records[i].status in {Executed, Rejected}
  {
    hide Parse, Step, Extract, FindSlot, Sound, ReportsOrNot, Reports, IsToolResult, NeverRefused, IsAdmin;
    hide RequestId, Approvable;
    ActIsDue(cfg, st, inp);
    StepEffect(cfg, st, inp);
    var p := Parse(inp.body);
    if p.Some? {
      var id := Extract(p.value.params, "request_id", MAX_REQUEST_ID);
      if id.Some? {
        FindExact(st.records, st.nextId, id.value, i);
      }
    }
    if Step(cfg, st, inp).act.Added? {
      assert Step(cfg, st, inp).records[..|st.records|][i] == st.records[i];
    }
  }

  // ---- who is the requester ---------------------------------------------------------------

  /** An approval of a pending record in time is refused for being the requester's own
      exactly when user, group and process are all the requester's. */
  lemma OnlySameTripleRefused(cfg: Config, st: State, inp: Input, i: nat)
    requires Invariant(cfg, st) && i < |st.records| && inp.AdminSocket? && IsAdmin(cfg, inp.peer)
    requires st.records[i].status == Pending && inp.now <= st.records[i].expires
    requires Parse(inp.body).Some? && Parse(inp.body).value.name == "approval.approve"
    requires Extract(Parse(inp.body).value.params, "request_id", MAX_REQUEST_ID) == Some(RequestId(i + 1))
    ensures var o := Step(cfg, st, inp); var r := st.records[i];
      && (o.act == Quiet <==> inp.peer.uid == r.requester.uid && inp.peer.gid == r.requester.gid
                              && inp.peer.pid == r.requester.pid)
      && (o.act == Quiet ==> o.reply == Error(Parse(inp.body).value.id, ErrorKind.Refused(SameIdentity)))
      && (o.act != Quiet ==> o.act == Granting(i, inp.peer, inp.now))
  {
    hide Parse, Extract, FindSlot, CanWrite, Sound, IsAdmin, RequestId;
    FindExact(st.records, st.nextId, RequestId(i + 1), i);
  }
}
