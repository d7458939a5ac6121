/** Audit events and the log lines they become. */
module Audit {
  import opened Bytes
  import opened JsonString
  import opened Config

  datatype EventKind =
    | RequestReceived | PreflightDenied | ApprovalRequired | ApprovalGranted | ApprovalRejected
    | ExecutionStarted | ExecutionFinished | ExecutionFailed

  datatype Event = Event(
    kind: EventKind, id: string, session: string, caller: Identity, approver: Option<Identity>,
    name: string, risk: string, decision: string, errorKind: string, summary: string)

  function KindName(k: EventKind): string {
    match k
    case RequestReceived => "request_received"
    case PreflightDenied => "preflight_denied"
    case ApprovalRequired => "approval_required"
    case ApprovalGranted => "approval_granted"
    case ApprovalRejected => "approval_rejected"
    case ExecutionStarted => "execution_started"
    case ExecutionFinished => "execution_finished"
    case ExecutionFailed => "execution_failed"
  }

  /** The audit contract's list of events. */
  const CONTRACT_EVENTS: seq<string> := [
    "request_received", "preflight_denied", "approval_required", "approval_granted",
    "approval_rejected", "execution_started", "execution_finished", "execution_failed"]

  /** `is_known_event`; the writer ignores its answer. */
  method IsKnownEvent(event: string) returns (known: bool)
    ensures known == (event in CONTRACT_EVENTS)
  {
    for i := 0 to |CONTRACT_EVENTS|
      invariant event !in CONTRACT_EVENTS[..i]
    {
      if CONTRACT_EVENTS[i] == event {
        return true;
      }
    }
    assert CONTRACT_EVENTS[..|CONTRACT_EVENTS|] == CONTRACT_EVENTS;
    return false;
  }

  lemma NamesDiffer()
    ensures forall i, j | 0 <= i < j < 8 :: CONTRACT_EVENTS[i] != CONTRACT_EVENTS[j]
  {}

  function Place(k: EventKind): (i: nat)
    ensures i < 8
  {
    match k
    case RequestReceived => 0
    case PreflightDenied => 1
    case ApprovalRequired => 2
    case ApprovalGranted => 3
    case ApprovalRejected => 4
    case ExecutionStarted => 5
    case ExecutionFinished => 6
    case ExecutionFailed => 7
  }

  lemma NameIsPlaced(k: EventKind)
    ensures KindName(k) == CONTRACT_EVENTS[Place(k)]
  {}

  lemma PlaceIsTaken(i: nat) returns (k: EventKind)
    requires i < 8
    ensures Place(k) == i
  {
    k := if i == 0 then RequestReceived else if i == 1 then PreflightDenied else if i == 2 then ApprovalRequired
         else if i == 3 then ApprovalGranted else if i == 4 then ApprovalRejected else if i == 5 then ExecutionStarted
         else if i == 6 then ExecutionFinished else ExecutionFailed;
  }

  lemma PlaceIsInjective(k: EventKind, m: EventKind)
    requires Place(k) == Place(m)
    ensures k == m
  {}

  /** The events that the handlers write are the contract's, one name for each kind. */
  lemma KindsAreContract(name: string, k: EventKind, m: EventKind)
    ensures KindName(k) in CONTRACT_EVENTS
    ensures name in CONTRACT_EVENTS ==> exists k :: KindName(k) == name
    ensures KindName(k) == KindName(m) ==> k == m
  {
    NamesDiffer();
    NameIsPlaced(k);
    NameIsPlaced(m);
    hide KindName, Place;
    if KindName(k) == KindName(m) {
      PlaceIsInjective(k, m);
    }
    if name in CONTRACT_EVENTS {
      var i :| 0 <= i < 8 && CONTRACT_EVENTS[i] == name;
      var n := PlaceIsTaken(i);
      NameIsPlaced(n);
    }
  }

  /** The escaped fields fit the writer's scratch buffers. */
  predicate CanWrite(e: Event) {
    && |Escape(KindName(e.kind))| < 64 && |Escape(e.id)| < 128 && |Escape(e.session)| < 128
    && |Escape(e.name)| < 128 && |Escape(e.risk)| < 64 && |Escape(e.decision)| < 64
    && |Escape(e.errorKind)| < 128 && |Escape(e.summary)| < 512
  }

  function IdentityText(who: Identity): string {
    Concat(["{\"uid\":", Number(who.uid), ",\"gid\":", Number(who.gid), ",\"pid\":", Number(who.pid), "}"])
  }

  function ApproverText(who: Option<Identity>): string {
    if who.Some? then Concat(["\"approver\":", IdentityText(who.value), ","]) else ""
  }

  /** Everything of a log line but its newline; ts is the formatted time. */
  function LineBody(e: Event, ts: string): string {
    Concat(HeadParts(e, ts)) + Concat(TailParts(e))
  }

  function HeadParts(e: Event, ts: string): seq<string> {
    [ "{\"timestamp\":\"", ts, "\",\"event\":\"", Escape(KindName(e.kind)),
      "\",\"request_id\":\"", Escape(e.id), "\",\"session_id\":\"", Escape(e.session),
      "\",\"caller\":", IdentityText(e.caller), ",", ApproverText(e.approver)]
  }

  function TailParts(e: Event): seq<string> {
    [ "\"method\":\"", Escape(e.name), "\",\"risk\":\"", Escape(e.risk),
      "\",\"decision\":\"", Escape(e.decision), "\",\"error_kind\":\"", Escape(e.errorKind),
      "\",\"duration_ms\":0,", "\"params_summary\":\"", Escape(e.summary), "\"}"]
  }

  lemma IdentityPrintable(who: Identity)
    ensures Printable(IdentityText(who))
  {
    ConcatPrintable(["{\"uid\":", Number(who.uid), ",\"gid\":", Number(who.gid),
                     ",\"pid\":", Number(who.pid), "}"]);
  }

  lemma ApproverPrintable(who: Option<Identity>)
    ensures Printable(ApproverText(who))
  {
    if who.Some? {
      IdentityPrintable(who.value);
      ConcatPrintable(["\"approver\":", IdentityText(who.value), ","]);
    }
  }

  /** One event is one line: whatever bytes its fields hold, no control character reaches
      the log before the newline that ends the line. */
  lemma EventIsOneLine(e: Event, ts: string)
    requires Printable(ts)
    ensures Printable(LineBody(e, ts))
  {
    hide HeadParts, TailParts, Concat;
    HeadPrintable(e, ts);
    TailPrintable(e);
  }

  lemma HeadPrintable(e: Event, ts: string)
    requires Printable(ts)
    ensures Printable(Concat(HeadParts(e, ts)))
  {
    hide IdentityText, ApproverText, KindName, Escape, Concat;
    EscapePrintable(KindName(e.kind));
    EscapePrintable(e.id);
    EscapePrintable(e.session);
    IdentityPrintable(e.caller);
    ApproverPrintable(e.approver);
    ConcatPrintable(HeadParts(e, ts));
  }

  lemma TailPrintable(e: Event)
    ensures Printable(Concat(TailParts(e)))
  {
    hide Escape, Concat;
    EscapePrintable(e.name);
    EscapePrintable(e.risk);
    EscapePrintable(e.decision);
    EscapePrintable(e.errorKind);
    EscapePrintable(e.summary);
    ConcatPrintable(TailParts(e));
  }

  /** `anything_audit_write_event`: escapes the fields into its scratch buffers; the line
      is appended if all of them fit and the file system plays along. */
  method WriteEvent(e: Event, ts: string, io: bool) returns (line: Option<string>)
    ensures line == if CanWrite(e) && io then Some(LineBody(e, ts) + "\n") else None
  {
    if !io {
      return None;
    }
    var ok := Fits(KindName(e.kind), 64);
    if ok { ok := Fits(e.id, 128); }
    if ok { ok := Fits(e.session, 128); }
    if ok { ok := Fits(e.name, 128); }
    if ok { ok := Fits(e.risk, 64); }
    if ok { ok := Fits(e.decision, 64); }
    if ok { ok := Fits(e.errorKind, 128); }
    if ok { ok := Fits(e.summary, 512); }
    return if ok then Some(LineBody(e, ts) + "\n") else None;
  }

  /** Escapes a field into a scratch buffer. */
  method Fits(text: string, size: nat) returns (ok: bool)
    ensures ok == (|Escape(text)| < size)
  {
    var scratch := new char[size];
    ok := EscapeString(text, scratch);
  }

  // ---- the language of the log ----------------------------------------------------------

  /** What the log says about one request id so far. */
  datatype Phase = Silent | Asked | Allowed | Open | Closed | Finished | Ended

  /** The next phase after an event about the id; None if the event is out of order. */
  function Advance(p: Phase, k: EventKind): Option<Phase> {
    match k
    case ApprovalRequired => if p == Silent then Some(Asked) else None
    case ApprovalGranted => if p in {Silent, Asked} then Some(Allowed) else None
    case ApprovalRejected => Some(Ended)
    case ExecutionStarted => if p in {Silent, Asked, Allowed, Open, Closed} then Some(Open) else None
    case ExecutionFailed => if p == Open then Some(Closed) else None
    case ExecutionFinished => if p == Open then Some(Finished) else None
    case _ => None
  }

  /** The phase after a whole word of events; None if it is not in the language. */
  function PhaseOf(w: seq<EventKind>): Option<Phase> {
    if w == [] then Some(Silent)
    else
      var p := PhaseOf(w[..|w| - 1]);
      if p.Some? then Advance(p.value, w[|w| - 1]) else None
  }

  lemma {:induction false} PrefixInLanguage(w: seq<EventKind>, k: nat)
    requires k <= |w| && PhaseOf(w).Some?
    ensures PhaseOf(w[..k]).Some?
  {
    if k < |w| {
      PrefixInLanguage(w[..|w| - 1], k);
      assert w[..|w| - 1][..k] == w[..k];
    } else {
      assert w[..k] == w;
    }
  }

  lemma LastStep(w: seq<EventKind>, k: nat)
    requires k < |w| && PhaseOf(w).Some?
    ensures PhaseOf(w[..k]).Some? && PhaseOf(w[..k + 1]) == Advance(PhaseOf(w[..k]).value, w[k])
    ensures PhaseOf(w[..k + 1]).Some?
  {
    PrefixInLanguage(w, k);
    PrefixInLanguage(w, k + 1);
    assert w[..k + 1][..k] == w[..k];
  }

  /** The end of an execution directly follows its own start. */
  lemma EndFollowsStart(w: seq<EventKind>, k: nat)
    requires k < |w| && PhaseOf(w).Some? && w[k] in {ExecutionFinished, ExecutionFailed}
    ensures k > 0 && w[k - 1] == ExecutionStarted
  {
    LastStep(w, k);
    assert w[..0] == [];
    if k > 0 {
      LastStep(w, k - 1);
    }
  }

  /** After a finished execution, and after a rejection, the log only reports rejections. */
  lemma {:induction false} OnlyRejectionsAfter(w: seq<EventKind>, k: nat, m: nat)
    requires k < m < |w| && PhaseOf(w).Some? && w[k] in {ExecutionFinished, ApprovalRejected}
    ensures w[m] == ApprovalRejected
  {
    LastStep(w, m);
    if m == k + 1 {
      LastStep(w, k);
    } else {
      OnlyRejectionsAfter(w, k, m - 1);
      LastStep(w, m - 1);
    }
  }
}
