/** The daemon: the two request handlers, working in place on the store and the log, and
    proved to take exactly the steps of the protocol. */
module Daemon {
  import opened Bytes
  import opened JsonString
  import opened Config
  import opened Policy
  import opened RpcParse
  import opened RpcParams
  import opened RpcReply
  import opened Approval
  import opened Audit
  import opened Protocol
  import opened ProtocolRuns

  /** A line of the audit file that reports the event at some time. */
  ghost predicate IsLine(line: string, e: Event) {
    exists ts :: Printable(ts) && line == LineBody(e, ts) + "\n"
  }

  /** The file holds exactly one line for each event, in order. */
  ghost predicate Reports(file: seq<string>, log: seq<Event>) {
    |file| == |log| && forall k | 0 <= k < |log| :: IsLine(file[k], log[k])
  }

  /** The state of the daemon.  The audit file is a list of lines; stamp is the formatted
      time that the next line gets. */
  class DaemonState {
    const cfg: Config
    const store: Store
    var file: seq<string>
    var stamp: string
    ghost var log: seq<Event>
    var sent: seq<Reply>

    ghost predicate Valid()
      reads this, store
    {
      store.Valid() && Printable(stamp) && Reports(file, log)
    }

    ghost function View(): State
      requires Valid()
      reads this, store, store.slots
    {
      State(store.Contents(), store.nextId, log, sent)
    }

    constructor (cfg: Config)
      ensures Valid() && fresh(store) && fresh(store.slots) && this.cfg == cfg && View() == INITIAL
    {
      this.cfg := cfg;
      store := new Store();
      file, stamp, log, sent := [], "", [], [];
    }

    method Send(reply: Reply)
      modifies `sent
      ensures sent == old(sent) + [reply]
    {
      sent := sent + [reply];
    }

    /** `checked_audit`: append the event, or answer that the audit failed. */
    method CheckedAudit(e: Event, io: bool, to: string) returns (ok: bool)
      requires Valid()
      modifies `file, `log, `sent
      ensures Valid()
      ensures ok == (io && CanWrite(e))
      ensures file == old(file) + (if ok then [LineBody(e, stamp) + "\n"] else [])
      ensures log == old(log) + (if ok then [e] else [])
      ensures sent == old(sent) + (if ok then [] else [Error(to, AuditFailed)])
    {
      hide LineBody, CanWrite;
      var line := WriteEvent(e, stamp, io);
      if line.Some? {
        file, log := file + [line.value], log + [e];
        assert IsLine(line.value, e);
        return true;
      }
      Send(Error(to, AuditFailed));
      return false;
    }

    /** One audit write and then the reply, the way most branches end. */
    method FinishChecked(e: Event, io: bool, reply: Reply, ghost st: State, ghost o: Outcome)
      requires Valid() && View() == State(o.records, o.nextId, st.log + o.events, st.sent)
      requires o.reply == reply
      modifies `file, `log, `sent
      ensures Valid() && View() == After(st, Checked(o, e, io))
    {
      var ok := CheckedAudit(e, io, reply.to);
      if ok {
        assert st.log + o.events + [e] == st.log + (o.events + [e]);
        Send(reply);
      }
    }

    /** `handle_tool_request` */
    method HandleTool(peer: Identity, body: string, now: int, io1: bool, io2: bool)
      requires Valid()
      modifies this, store, store.slots
      ensures Valid() && View() == After(old(View()), ToolStep(cfg, old(View()), peer, body, now, io1, io2))
    {
      hide Reports, LineBody, Printable, Parse, CanWrite, ToolRoute;
      ghost var st := View();
      assert st.log + [] == st.log;
      var request := Receive(body);
      if request.None? {
        Send(Error("null", InvalidRequest));
        return;
      }
      var q := request.value;
      var ok := CheckedAudit(ReceivedEvent(q, peer), io1, q.id);
      if !ok {
        return;
      }
      RouteTool(q, peer, now, io2, st, [ReceivedEvent(q, peer)]);
    }

    method RouteTool(q: Request, peer: Identity, now: int, io: bool, ghost st: State, ghost es: seq<Event>)
      requires Valid() && View() == st.(log := st.log + es)
      modifies this, store, store.slots
      ensures Valid() && View() == After(st, ToolRoute(cfg, st, peer, q, now, io, es))
    {
      hide Reports, LineBody, Printable, CanWrite, NewRecord, RequiredFits, Preflight;
      if |q.name| >= 9 && q.name[..9] == "approval." {
        var reply := Error(q.id, ControlPlaneDenied);
        FinishChecked(ControlDeniedEvent(q, peer, "agent tool socket cannot access approval methods"),
                      io, reply, st, Just(st, es, reply));
        return;
      }
      var policy := new PolicyResult();
      policy.Decide(cfg, q);
      var v := policy.View();
      if v.decision == Decision.Deny {
        var reply := Error(q.id, Denied(v.reason));
        FinishChecked(PolicyDeniedEvent(q, peer, v), io, reply, st, Just(st, es, reply));
        return;
      }
      if q.name != "sys.info" {
        Send(Error(q.id, UnknownTool));
        return;
      }
      AskApproval(q, v, peer, now, io, st, es);
    }

    /** Escapes the fields that the approval response shows. */
    static method ReplyFits(r: Record) returns (ok: bool)
      ensures ok == RequiredFits(r)
    {
      var e;
      ok, e := EscapeField(r.id, 128);
      if ok { ok, e := EscapeField(r.risk, 64); }
      if ok { ok, e := EscapeField(r.summary, 512); }
    }

    /** The record is added before its audit write and stays if that write fails. */
    method AskApproval(q: Request, v: Verdict, peer: Identity, now: int, io: bool,
                       ghost st: State, ghost es: seq<Event>)
      requires Valid() && View() == st.(log := st.log + es)
      requires v == Preflight(cfg, q) && v.decision != Decision.Deny && q.name == "sys.info"
      modifies this, store, store.slots
      ensures Valid() && View() == After(st, ToolRoute(cfg, st, peer, q, now, io, es))
    {
      hide Reports, LineBody, Printable, CanWrite, NewRecord, Preflight, Copies, RequiredFits;
      var slot := store.Add(q, v, peer, cfg.ttl, now);
      if slot.None? {
        Send(Error(q.id, ResourceLimit));
        return;
      }
      var r := store.slots[slot.value];
      assert r == store.Contents()[slot.value];
      var ok := ReplyFits(r);
      if !ok {
        Send(Error(q.id, ResourceLimit));
        return;
      }
      var reply := Error(q.id, NeedsApproval(r));
      FinishChecked(RequiredEvent(r, peer), io, reply, st,
        Outcome(st.records + [r], st.nextId + 1, es, reply, Added(|st.records|, peer, now)));
    }

    /** `handle_admin_request` */
    method HandleAdmin(peer: Identity, body: string, now: int, io1: bool, io2: bool, info: Gathered)
      requires Valid()
      modifies this, store, store.slots
      ensures Valid()
      ensures View() == After(old(View()), AdminStep(cfg, old(View()), peer, body, now, io1, io2, info))
    {
      hide Reports, LineBody, Printable, Parse, CanWrite, AdminRoute, IsAdmin;
      ghost var st := View();
      assert st.log + [] == st.log;
      var request := Receive(body);
      if request.None? {
        Send(Error("null", InvalidRequest));
        return;
      }
      var q := request.value;
      var admin := IdentityIsAdmin(cfg, peer);
      if !admin {
        var reply := Error(q.id, ControlPlaneDenied);
        FinishChecked(ControlDeniedEvent(q, peer, "admin caller is not in allowlist"), io1, reply, st,
                      Just(st, [], reply));
        return;
      }
      RouteAdmin(q, peer, now, io1, io2, info);
    }

    method RouteAdmin(q: Request, peer: Identity, now: int, io1: bool, io2: bool, info: Gathered)
      requires Valid()
      modifies this, store, store.slots
      ensures Valid()
      ensures View() == After(old(View()), AdminRoute(cfg, old(View()), peer, q, now, io1, io2, info))
    {
      hide Reports, LineBody, Printable, Extract, CanWrite, UpToNul;
      hide ExecuteSlot, ApproveSlot, RejectSlot, ListReply, FindSlot;
      ghost var st := View();
      assert st.log + [] == st.log;
      if q.name == "approval.list" {
        SendList(q.id);
        return;
      }
      var buffer := new char[MAX_REQUEST_ID];
      var found := ExtractParam(q.params, "request_id", buffer);
      if !found {
        Send(Error(q.id, InvalidParams));
        return;
      }
      ExtractedReadsBack(q.params, buffer);
      var slot := store.Find(UpToNul(buffer[..]));
      if q.name == "approval.execute" {
        Execute(peer, q.id, slot, now, io1, io2, info);
      } else if q.name == "approval.approve" {
        Approve(peer, q.id, slot, now, io1);
      } else if q.name == "approval.reject" {
        Reject(peer, q.id, slot, now, io1);
      } else {
        Send(Error(q.id, UnknownTool));
      }
    }

    method SendList(to: string)
      requires Valid()
      modifies `sent
      ensures sent == old(sent) + [ListReply(store.Contents(), to)]
    {
      hide ListText, AllFit, UpToNul;
      var result := new char[MAX_LIST];
      var ok := ListJson(store, result);
      if !ok {
        Send(Error(to, ResourceLimit));
        return;
      }
      ListPrintable(store.Contents());
      PrintableHasNoNul(ListText(store.Contents()));
      ReadBack(result, ListText(store.Contents()));
      Send(Answer(to, Listing(UpToNul(result[..]))));
    }

    method Approve(peer: Identity, to: string, slot: Option<nat>, now: int, io: bool)
      requires Valid() && (slot.Some? ==> slot.value < store.count)
      modifies this, store, store.slots
      ensures Valid() && View() == After(old(View()), ApproveSlot(old(View()), peer, to, slot, now, io))
    {
      hide Reports, LineBody, Printable, CanWrite;
      ghost var st := View();
      assert st.log + [] == st.log;
      var denial := store.Grant(slot, peer, now);
      if denial.Some? {
        Send(Error(to, ErrorKind.Refused(denial.value)));
        return;
      }
      var r := store.slots[slot.value];
      assert r == store.Contents()[slot.value];
      var reply := Answer(to, ApprovedNote);
      FinishChecked(RecordEvent(ApprovalGranted, r, r.requester, Some(peer), "granted", "", r.summary), io, reply,
        st, Outcome(store.Contents(), st.nextId, [], reply, Granting(slot.value, peer, now)));
    }

    method Reject(peer: Identity, to: string, slot: Option<nat>, now: int, io: bool)
      requires Valid() && (slot.Some? ==> slot.value < store.count)
      modifies this, store, store.slots
      ensures Valid() && View() == After(old(View()), RejectSlot(old(View()), peer, to, slot, now, io))
    {
      hide Reports, LineBody, Printable, CanWrite;
      ghost var st := View();
      assert st.log + [] == st.log;
      var denial := store.Reject(slot, peer);
      if denial.Some? {
        Send(Error(to, ErrorKind.Refused(denial.value)));
        return;
      }
      var r := store.slots[slot.value];
      assert r == store.Contents()[slot.value];
      var reply := Answer(to, RejectedNote);
      FinishChecked(RecordEvent(ApprovalRejected, r, r.requester, Some(peer), "rejected", "", r.summary), io, reply,
        st, Outcome(store.Contents(), st.nextId, [], reply, Rejecting(slot.value, peer, now)));
    }

    /** `handle_admin_execute`, from the lookup on. */
    method Execute(peer: Identity, to: string, slot: Option<nat>, now: int, io1: bool, io2: bool, info: Gathered)
      requires Valid() && (slot.Some? ==> slot.value < store.count)
      modifies this, store, store.slots
      ensures Valid()
      ensures View() == After(old(View()), ExecuteSlot(cfg, old(View()), peer, to, slot, now, io1, io2, info))
    {
      hide Reports, LineBody, Printable, CanWrite, RunTool, Preflight;
      ghost var st := View();
      assert st.log + [] == st.log;
      var original := ToRequest(BLANK);
      var hash := 0;
      if slot.Some? {
        assert store.slots[slot.value] == store.Contents()[slot.value];
        original := ToRequest(store.slots[slot.value]);
        hash := original.hash;
      }
      var denial := store.ValidateForExecute(slot, hash, now);
      if denial.Some? {
        Send(Error(to, ErrorKind.Refused(denial.value)));
        return;
      }
      var r := store.slots[slot.value];
      var recheck := new PolicyResult();
      recheck.Decide(cfg, original);
      if recheck.decision == Decision.Deny || recheck.hash != r.hash {
        Send(Error(to, RecheckFailed));
        return;
      }
      var started := RecordEvent(ExecutionStarted, r, r.requester, Some(peer), "started", "", r.summary);
      var ok := CheckedAudit(started, io1, to);
      if ok {
        RunStarted(peer, to, slot.value, now, io2, info, started, st);
      }
    }

    /** After the start is audited: the tool, the status, the second audit write. */
    method RunStarted(peer: Identity, to: string, i: nat, now: int, io: bool, info: Gathered,
                      started: Event, ghost st: State)
      requires Valid() && i < store.count && View() == st.(log := st.log + [started])
      modifies this, store, store.slots
      ensures Valid() && View() == After(st, RunTool(st, peer, to, i, now, io, info, started))
    {
      hide Reports, LineBody, Printable, CanWrite;
      var r := store.slots[i];
      assert r == store.Contents()[i];
      if !info.Info? {
        var reply := Error(to, ToolFailed(GatherError(info)));
        FinishChecked(RecordEvent(ExecutionFailed, r, r.requester, Some(peer), "failed", "execution_failed",
                                  GatherError(info)), io, reply, st,
          Outcome(st.records, st.nextId, [started], reply, Running(i, peer, now, false)));
        return;
      }
      store.MarkExecuted(i);
      var reply := Answer(to, SysInfo(r.id, info.text));
      FinishChecked(RecordEvent(ExecutionFinished, r, r.requester, Some(peer), "finished", "", r.summary), io, reply,
        st, Outcome(store.Contents(), st.nextId, [started], reply, Running(i, peer, now, true)));
    }

    /** One connection: the socket decides the handler; stamp is the time of its audit lines. */
    method Handle(inp: Input, stamp: string)
      requires Valid() && Printable(stamp)
      modifies this, store, store.slots
      ensures Valid() && View() == After(old(View()), Step(cfg, old(View()), inp))
    {
      this.stamp := stamp;
      match inp {
        case ToolSocket(peer, body, now, io1, io2) => HandleTool(peer, body, now, io1, io2);
        case AdminSocket(peer, body, now, io1, io2, info) => HandleAdmin(peer, body, now, io1, io2, info);
      }
    }

    /** Serving connections one after the other from the start is a run of the protocol,
        and the audit file then reports exactly the run's log. */
    method Serve(ins: seq<Input>, stamps: seq<string>)
      requires Valid() && View() == INITIAL
      requires |stamps| == |ins| && forall k | 0 <= k < |stamps| :: Printable(stamps[k])
      modifies this, store, store.slots
      ensures Valid() && View() == Run(cfg, ins)
    {
      hide Step;
      assert ins[..0] == [];
      for k := 0 to |ins|
        invariant Valid() && View() == Run(cfg, ins[..k])
      {
        assert ins[..k + 1][..k] == ins[..k];
        Handle(ins[k], stamps[k]);
      }
      assert ins[..|ins|] == ins;
    }
  }

  lemma ExtractedReadsBack(params: string, buffer: array<char>)
    requires Extract(params, "request_id", buffer.Length).Some?
    requires Holds(buffer, Extract(params, "request_id", buffer.Length).value)
    ensures UpToNul(buffer[..]) == Extract(params, "request_id", buffer.Length).value
  {
    ExtractFits(params, "request_id", buffer.Length);
    EncodableHasNoNul(Extract(params, "request_id", buffer.Length).value);
    ReadBack(buffer, Extract(params, "request_id", buffer.Length).value);
  }
}
