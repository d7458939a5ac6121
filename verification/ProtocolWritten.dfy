/** Runs in which every audit write succeeds: then the log alone tells every status. */
module ProtocolWritten {
  import opened Bytes
  import opened Config
  import opened Approval
  import opened Audit
  import opened Protocol
  import opened ProtocolSteps
  import opened ProtocolRuns
  import opened ProtocolAudit
  import opened ProtocolAttribution
  import opened ProtocolLog
  import opened ProtocolDue

  predicate AllWritten(ins: seq<Input>) {
    forall k | 0 <= k < |ins| :: ins[k].io1 && ins[k].io2
  }

  /** The status that a complete log tells. */
  function StatusOf(p: Phase): Status {
    match p
    case Silent | Asked => Pending
    case Allowed | Open | Closed => Granted
    case Finished => Executed
    case Ended => Rejected
  }

  /** The log has caught up: nothing about the record is missing or half done. */
  predicate Tells(w: seq<EventKind>, records: seq<Record>, i: nat) {
    if i < |records| then
      && PhaseOf(w).Some? && PhaseOf(w).value !in {Silent, Open}
      && StatusOf(PhaseOf(w).value) == records[i].status
    else w == []
  }

  /** Which events are about an id, told by their kinds. */
  lemma ProjectShort(es: seq<Event>, id: string)
    requires id != "" && |es| <= 2 && Only(es, id)
    requires forall k | 0 <= k < |es| :: es[k].id == "" <==> es[k].kind in {RequestReceived, PreflightDenied}
    ensures Kinds(es) == [] ==> Project(es, id) == []
    ensures |es| == 1 && es[0].kind !in {RequestReceived, PreflightDenied} ==> Project(es, id) == Kinds(es)
    ensures |es| == 2 && es[1].kind !in {RequestReceived, PreflightDenied} ==>
              Project(es, id) == if es[0].kind in {RequestReceived, PreflightDenied} then [es[1].kind] else Kinds(es)
  {
    if |es| == 1 {
      assert es == [es[0]];
      ProjectOne(es[0], id);
    } else if |es| == 2 {
      assert es == [es[0], es[1]];
      ProjectOne(es[0], id);
      ProjectOne(es[1], id);
      ProjectTwo(es[0], es[1], id);
    }
  }

  lemma StepAttributed(cfg: Config, st: State, inp: Input)
    requires Invariant(cfg, st)
    ensures var es := Step(cfg, st, inp).events;
      forall k | 0 <= k < |es| :: es[k].id == "" <==> es[k].kind in {RequestReceived, PreflightDenied}
  {
    hide Step, Invariant, IsAdmin;
    var o := Step(cfg, st, inp);
    if inp.ToolSocket? {
      ToolAttributed(cfg, st, inp);
    } else {
      AdminAttributed(cfg, st, inp);
    }
    assert forall k | 0 <= k < |o.events| :: Attributed(cfg, o.records, o.events[k]);
  }

  /** With both writes through, the events about the record are all that its act owes. */
  lemma OwnEvents(cfg: Config, st: State, inp: Input)
    requires Invariant(cfg, st) && inp.io1 && inp.io2 && Step(cfg, st, inp).act != Quiet
    ensures var o := Step(cfg, st, inp);
      Project(o.events, RequestId(o.act.slot + 1)) == Owed(o.act, true, true)
  {
    hide Step, Invariant, Sound, RequestId, Due, Project, IsAdmin, Approvable;
    var o := Step(cfg, st, inp);
    var id := RequestId(o.act.slot + 1);
    RequestIdPlain(o.act.slot + 1);
    EventsAboutOwn(cfg, st, o);
    StepAttributed(cfg, st, inp);
    KindsOfAct(cfg, st, inp);
    var ks := Kinds(o.events);
    assert forall k | 0 <= k < |o.events| :: ks[k] == o.events[k].kind;
    ProjectShort(o.events, id);
  }

  lemma EventsAboutOwn(cfg: Config, st: State, o: Outcome)
    requires Invariant(cfg, st) && o.act != Quiet
    ensures Effect(cfg, st, o) ==> Only(o.events, RequestId(o.act.slot + 1))
  {
    hide Sound, IsToolResult, IsAdmin, NeverRefused, Project, RequestId, Only;
  }

  lemma KindsOfAct(cfg: Config, st: State, inp: Input)
    requires Invariant(cfg, st) && inp.io1 && inp.io2 && Step(cfg, st, inp).act != Quiet
    ensures var o := Step(cfg, st, inp);
      && Effect(cfg, st, o)
      && Kinds(o.events) == (if o.act.Added? then [RequestReceived] else []) + Owed(o.act, true, true)
  {
    hide Step, Invariant, Effect, Target, DueOn, IsAdmin, Approvable;
    StepEffect(cfg, st, inp);
    ActIsDue(cfg, st, inp);
    EventsAreDue(cfg, st, inp);
    RunsNeedTheWrite(cfg, st, inp);
    assert [] + Owed(Step(cfg, st, inp).act, true, true) == Owed(Step(cfg, st, inp).act, true, true);
  }

  lemma TellsAfterOwn(cfg: Config, st: State, inp: Input, i: nat, w: seq<EventKind>)
    requires Invariant(cfg, st) && inp.io1 && inp.io2 && Tells(w, st.records, i)
    requires SlotOf(Step(cfg, st, inp).act) == Some(i)
    ensures var o := Step(cfg, st, inp); Tells(w + Project(o.events, RequestId(i + 1)), o.records, i)
  {
    hide Step, Sound, IsToolResult, IsAdmin, NeverRefused, ReportsOrNot, Reports, Project, RequestId, PhaseOf;
    var o := Step(cfg, st, inp);
    StepEffect(cfg, st, inp);
    OwnEvents(cfg, st, inp);
    var more := Owed(o.act, true, true);
    NothingYet();
    PhaseOfOne(w, more[0]);
    if |more| == 2 {
      PhaseOfTwo(w, more[0], more[1]);
      PhaseOfOne(w + [more[0]], more[1]);
    }
    assert |more| == 1 ==> w + more == w + [more[0]];
    assert |more| == 2 ==> w + more == w + [more[0], more[1]];
  }

  lemma TellsAfterOther(cfg: Config, st: State, o: Outcome, i: nat, w: seq<EventKind>)
    requires Effect(cfg, st, o) && SlotOf(o.act) != Some(i) && Tells(w, st.records, i)
    ensures Tells(w, o.records, i)
  {
    hide Sound, IsToolResult, IsAdmin, NeverRefused, ReportsOrNot, Reports, Only, PhaseOf;
    if o.act.Added? && i < |st.records| {
      assert o.records[..|st.records|][i] == st.records[i];
    }
  }

  /** In a run whose audit writes all succeed the events about an id tell that the record
      exists and which status it has: nothing happens to a record behind the log's back. */
  lemma {:induction false} LogTellsStatus(cfg: Config, ins: seq<Input>, i: nat)
    requires AllWritten(ins)
    ensures Tells(Project(Run(cfg, ins).log, RequestId(i + 1)), Run(cfg, ins).records, i)
  {
    hide Step, Effect, Invariant, Tells, RequestId, ActOf;
    if ins == [] {
      NothingTold(i);
    } else {
      var before := ins[..|ins| - 1];
      LogTellsStatus(cfg, before, i);
      var st, o := LastStepEffect(cfg, ins);
      var id := RequestId(i + 1);
      var w := Project(st.log, id);
      ProjectAppend(st.log, o.events, id);
      if SlotOf(o.act) == Some(i) {
        TellsAfterOwn(cfg, st, ins[|ins| - 1], i, w);
      } else {
        EventsAboutSlot(cfg, st, o, i);
        TellsAfterOther(cfg, st, o, i, w);
        assert w + Project(o.events, id) == w;
      }
    }
  }

  lemma NothingTold(i: nat)
    ensures Tells([], [], i)
  {}
}
