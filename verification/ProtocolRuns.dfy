/** Properties of whole runs: any sequence of requests on the two sockets, any clock
    readings, any pattern of failing audit writes and failing tool runs. */
module ProtocolRuns {
  import opened Bytes
  import opened Config
  import opened RpcParse
  import opened RpcParams
  import opened RpcGrammar
  import opened Approval
  import opened Audit
  import opened Protocol
  import opened ProtocolSteps

  /** The state that a run reaches from the start. */
  function Run(cfg: Config, ins: seq<Input>): State {
    if ins == [] then INITIAL
    else
      var st := Run(cfg, ins[..|ins| - 1]);
      After(st, Step(cfg, st, ins[|ins| - 1]))
  }

  /** What each step of the run did. */
  function Acts(cfg: Config, ins: seq<Input>): (acts: seq<Act>)
    ensures |acts| == |ins|
  {
    if ins == [] then []
    else Acts(cfg, ins[..|ins| - 1]) + [LastOutcome(cfg, ins).act]
  }

  function LastOutcome(cfg: Config, ins: seq<Input>): Outcome
    requires ins != []
  {
    Step(cfg, Run(cfg, ins[..|ins| - 1]), ins[|ins| - 1])
  }

  /** The invariant holds in every reachable state. */
  lemma {:induction false} Reachable(cfg: Config, ins: seq<Input>)
    ensures Invariant(cfg, Run(cfg, ins))
  {
    hide Step, Sound;
    if ins != [] {
      Reachable(cfg, ins[..|ins| - 1]);
      StepKeepsInvariant(cfg, Run(cfg, ins[..|ins| - 1]), ins[|ins| - 1]);
    }
  }

  /** The last step of a run from a reachable state, with its effect. */
  lemma LastStepEffect(cfg: Config, ins: seq<Input>) returns (st: State, o: Outcome)
    requires ins != []
    ensures st == Run(cfg, ins[..|ins| - 1]) && o == LastOutcome(cfg, ins)
    ensures Invariant(cfg, st) && Effect(cfg, st, o) && ActOf(ins[|ins| - 1], o.act)
    ensures Run(cfg, ins) == After(st, o)
    ensures Acts(cfg, ins) == Acts(cfg, ins[..|ins| - 1]) + [o.act]
    ensures Invariant(cfg, Run(cfg, ins))
  {
    hide Step, Effect, Invariant, ActOf;
    st := Run(cfg, ins[..|ins| - 1]);
    o := LastOutcome(cfg, ins);
    Reachable(cfg, ins[..|ins| - 1]);
    StepEffect(cfg, st, ins[|ins| - 1]);
    StepActs(cfg, st, ins[|ins| - 1]);
    Reachable(cfg, ins);
  }

  lemma {:induction false} PrefixActs(cfg: Config, ins: seq<Input>, n: nat)
    requires n <= |ins|
    ensures Acts(cfg, ins[..n]) == Acts(cfg, ins)[..n]
  {
    hide Step;
    if n == |ins| {
      assert ins[..n] == ins;
    } else {
      PrefixActs(cfg, ins[..|ins| - 1], n);
      assert ins[..|ins| - 1][..n] == ins[..n];
    }
  }

  // ---- execution safety -----------------------------------------------------------------

  /** Every stored record was added by its requester, with an expiry of the time of that
      step plus the configured time to live. */
  lemma {:induction false} RecordWasAdded(cfg: Config, ins: seq<Input>, i: nat) returns (c: nat)
    requires i < |Run(cfg, ins).records|
    ensures c < |ins| && var r := Run(cfg, ins).records[i];
      Acts(cfg, ins)[c] == Added(i, r.requester, r.expires - cfg.ttl)
  {
    hide Step, Sound, ReportsOrNot, Reports, IsToolResult, IsAdmin, Invariant;
    var before := ins[..|ins| - 1];
    var st, o := LastStepEffect(cfg, ins);
    if o.act.Added? && o.act.slot == i {
      c := |ins| - 1;
    } else {
      if o.act.Added? {
        assert o.records[..|st.records|][i] == st.records[i];
      }
      c := RecordWasAdded(cfg, before, i);
    }
  }

  /** No step in between takes the grant of slot i away. */
  predicate StillGranted(acts: seq<Act>, i: nat, from: nat) {
    forall m | from < m < |acts| ::
      !(acts[m].Rejecting? && acts[m].slot == i) && !(acts[m].Running? && acts[m].slot == i && acts[m].ok)
  }

  /** A granted record was granted by an admin who is not its requester, no later than its
      expiry, after it was added, and was neither rejected nor executed since. */
  lemma {:induction false} GrantedWasGranted(cfg: Config, ins: seq<Input>, i: nat) returns (c: nat, j: nat)
    requires i < |Run(cfg, ins).records| && Run(cfg, ins).records[i].status == Granted
    ensures c < j < |ins| && StillGranted(Acts(cfg, ins), i, j)
    ensures var r := Run(cfg, ins).records[i]; var acts := Acts(cfg, ins);
      && acts[c] == Added(i, r.requester, r.expires - cfg.ttl)
      && acts[j].Granting? && acts[j].slot == i && acts[j].who == r.approver && acts[j].at <= r.expires
      && IsAdmin(cfg, r.approver) && r.approver != r.requester
  {
    hide Step, Sound, ReportsOrNot, Reports, IsToolResult, IsAdmin, Invariant;
    var before := ins[..|ins| - 1];
    var st, o := LastStepEffect(cfg, ins);
    if o.act.Granting? && o.act.slot == i {
      c := RecordWasAdded(cfg, before, i);
      j := |ins| - 1;
    } else {
      if o.act.Added? && i < |st.records| {
        assert o.records[..|st.records|][i] == st.records[i];
      }
      c, j := GrantedWasGranted(cfg, before, i);
    }
  }

  /** Step k executed a record that step c added and step j granted: the grant was made by
      an authorised admin other than the requester, no rejection and no successful
      execution of the record lies in between, and grant and execution are in time. */
  predicate SafeExecution(cfg: Config, acts: seq<Act>, c: nat, j: nat, k: nat) {
    && c < j < k < |acts|
    && acts[c].Added? && acts[j].Granting? && acts[k].Running?
    && acts[c].slot == acts[j].slot == acts[k].slot
    && IsAdmin(cfg, acts[j].who) && acts[j].who != acts[c].who && IsAdmin(cfg, acts[k].who)
    && acts[j].at <= acts[c].at + cfg.ttl && acts[k].at <= acts[c].at + cfg.ttl
    && StillGranted(acts[..k], acts[k].slot, j)
  }

  /** Execution safety: in every run, every execution of sys.info is a safe one. */
  lemma ExecutionSafety(cfg: Config, ins: seq<Input>, k: nat) returns (c: nat, j: nat)
    requires k < |ins| && Acts(cfg, ins)[k].Running?
    ensures SafeExecution(cfg, Acts(cfg, ins), c, j, k)
  {
    hide Step, Sound, Reports, IsToolResult, IsAdmin, Invariant, Acts, Run;
    var upto := ins[..k + 1];
    PrefixActs(cfg, ins, k + 1);
    PrefixActs(cfg, ins, k);
    assert upto[..k] == ins[..k];
    var st, o := LastStepEffect(cfg, upto);
    assert Acts(cfg, ins)[k] == Acts(cfg, upto)[k] == o.act;
    c, j := GrantedWasGranted(cfg, ins[..k], o.act.slot);
    assert Acts(cfg, ins)[c] == Acts(cfg, ins[..k])[c] && Acts(cfg, ins)[j] == Acts(cfg, ins[..k])[j];
  }

  // ---- at most one success ----------------------------------------------------------------

  /** The order in which a status can only rise. */
  function Rank(s: Status): nat {
    match s
    case Pending => 0
    case Granted => 1
    case Executed => 2
    case Rejected => 3
  }

  /** Along every run a record only changes its status and its approver, the status only
      rises, and no record disappears. */
  lemma {:induction false} StatusRises(cfg: Config, ins: seq<Input>, n: nat, i: nat)
    requires n <= |ins| && i < |Run(cfg, ins[..n]).records|
    ensures i < |Run(cfg, ins).records|
    ensures var r, s := Run(cfg, ins[..n]).records[i], Run(cfg, ins).records[i];
      Rank(r.status) <= Rank(s.status) && s == r.(approver := s.approver, status := s.status)
  {
    hide Step, Sound, ReportsOrNot, Reports, IsToolResult, IsAdmin, Invariant;
    if n == |ins| {
      assert ins[..n] == ins;
    } else {
      var before := ins[..|ins| - 1];
      assert before[..n] == ins[..n];
      StatusRises(cfg, before, n, i);
      var st, o := LastStepEffect(cfg, ins);
      if o.act.Added? {
        assert o.records[..|st.records|][i] == st.records[i];
      }
    }
  }

  predicate IsGrant(act: Act, i: nat) {
    act.Granting? && act.slot == i
  }

  predicate IsSuccess(act: Act, i: nat) {
    act.Running? && act.slot == i && act.ok
  }

  function Tally(acts: seq<Act>, p: Act -> bool): nat {
    if acts == [] then 0
    else Tally(acts[..|acts| - 1], p) + (if p(acts[|acts| - 1]) then 1 else 0)
  }

  lemma TallyLast(acts: seq<Act>, act: Act, p: Act -> bool)
    ensures Tally(acts + [act], p) == Tally(acts, p) + (if p(act) then 1 else 0)
  {
    assert (acts + [act])[..|acts|] == acts;
  }

  /** Whether a slot has reached a status of at least this rank. */
  predicate Reached(records: seq<Record>, i: nat, rank: nat) {
    i < |records| && Rank(records[i].status) >= rank
  }

  /** A grant takes a record from below GRANTED, a success from below EXECUTED. */
  lemma ReachedAfter(cfg: Config, st: State, o: Outcome, i: nat)
    requires Effect(cfg, st, o)
    ensures Reached(st.records, i, 1) ==> Reached(o.records, i, 1)
    ensures Reached(st.records, i, 2) ==> Reached(o.records, i, 2)
    ensures IsGrant(o.act, i) ==> !Reached(st.records, i, 1) && Reached(o.records, i, 1)
    ensures IsSuccess(o.act, i) ==> !Reached(st.records, i, 2) && Reached(o.records, i, 2)
  {
    hide Sound, ReportsOrNot, Reports, IsToolResult, IsAdmin, NeverRefused;
    if o.act.Added? && i < |st.records| {
      assert o.records[..|st.records|][i] == st.records[i];
    }
  }

  /** Each record is granted at most once and succeeds at most once, and only a record
      that left PENDING was granted, only one that left GRANTED succeeded. */
  lemma {:induction false} OncePerRecord(cfg: Config, ins: seq<Input>, i: nat)
    ensures Tally(Acts(cfg, ins), a => IsGrant(a, i)) <= if Reached(Run(cfg, ins).records, i, 1) then 1 else 0
    ensures Tally(Acts(cfg, ins), a => IsSuccess(a, i)) <= if Reached(Run(cfg, ins).records, i, 2) then 1 else 0
  {
    hide Step, Effect, Invariant, Reached, IsGrant, IsSuccess, ActOf;
    if ins != [] {
      var before := ins[..|ins| - 1];
      OncePerRecord(cfg, before, i);
      var st, o := LastStepEffect(cfg, ins);
      TallyLast(Acts(cfg, before), o.act, a => IsGrant(a, i));
      TallyLast(Acts(cfg, before), o.act, a => IsSuccess(a, i));
      ReachedAfter(cfg, st, o, i);
    }
  }

  // ---- totals -----------------------------------------------------------------------------

  predicate AnyAdd(act: Act) {
    act.Added?
  }

  predicate AnyGrant(act: Act) {
    act.Granting?
  }

  predicate AnySuccess(act: Act) {
    act.Running? && act.ok
  }

  function CountStatus(records: seq<Record>, s: Status): nat {
    if records == [] then 0
    else
      var n := |records| - 1;
      CountStatus(records[..n], s) + (if records[n].status == s then 1 else 0)
  }

  lemma {:induction false} CountStatusSet(records: seq<Record>, i: nat, r: Record, s: Status)
    requires i < |records|
    ensures CountStatus(records[i := r], s) + (if records[i].status == s then 1 else 0)
         == CountStatus(records, s) + (if r.status == s then 1 else 0)
  {
    var n := |records| - 1;
    if i == n {
      assert records[i := r][..n] == records[..n];
    } else {
      assert records[i := r][..n] == records[..n][i := r];
      CountStatusSet(records[..n], i, r, s);
    }
  }

  /** What one step adds to the tallies and takes from the statuses. */
  lemma CountsAfter(cfg: Config, st: State, o: Outcome)
    requires Effect(cfg, st, o)
    ensures CountStatus(o.records, Pending) + (if o.act.Granting? then 1 else 0)
         <= CountStatus(st.records, Pending) + |o.records| - |st.records|
    ensures CountStatus(o.records, Granted) + (if o.act.Running? && o.act.ok then 1 else 0)
         <= CountStatus(st.records, Granted) + (if o.act.Granting? then 1 else 0)
    ensures |o.records| == |st.records| + (if o.act.Added? then 1 else 0)
  {
    hide Sound, ReportsOrNot, Reports, IsToolResult, IsAdmin, NeverRefused;
    if o.act != Quiet && !o.act.Added? {
      CountStatusSet(st.records, o.act.slot, o.records[o.act.slot], Pending);
      CountStatusSet(st.records, o.act.slot, o.records[o.act.slot], Granted);
      assert o.records == st.records[o.act.slot := o.records[o.act.slot]];
    }
  }

  /** Successes are at most grants, grants at most records, records exactly the added ones
      and at most 64. */
  lemma {:induction false} TotalsBounded(cfg: Config, ins: seq<Input>)
    ensures var acts, records := Acts(cfg, ins), Run(cfg, ins).records;
      var grants, successes := Tally(acts, AnyGrant), Tally(acts, AnySuccess);
      && successes + CountStatus(records, Granted) <= grants
      && grants + CountStatus(records, Pending) <= |records| <= MAX_PENDING
      && |records| == Tally(acts, AnyAdd)
  {
    hide Step, Effect, Sound, ActOf;
    if ins != [] {
      var before := ins[..|ins| - 1];
      TotalsBounded(cfg, before);
      var st, o := LastStepEffect(cfg, ins);
      TallyLast(Acts(cfg, before), o.act, AnyGrant);
      TallyLast(Acts(cfg, before), o.act, AnySuccess);
      TallyLast(Acts(cfg, before), o.act, AnyAdd);
      CountsAfter(cfg, st, o);
    }
  }

  // ---- one reply per request, results only for successes ------------------------------------

  /** Reply k of a run answers request k. */
  lemma {:induction false} OneReplyEach(cfg: Config, ins: seq<Input>, k: nat)
    requires k < |ins|
    ensures |Run(cfg, ins).sent| == |ins|
    ensures Run(cfg, ins).sent[k] == LastOutcome(cfg, ins[..k + 1]).reply
  {
    hide Step;
    var n := |ins| - 1;
    if k < n {
      OneReplyEach(cfg, ins[..n], k);
      assert ins[..n][..k + 1] == ins[..k + 1];
    } else {
      assert ins[..k + 1] == ins;
      if n > 0 {
        OneReplyEach(cfg, ins[..n], 0);
      }
    }
  }

  /** Every reply with system information was sent by a successful execution of the record
      that it names; so each record has at most one. */
  lemma ResultIsSuccess(cfg: Config, ins: seq<Input>, k: nat)
    requires k < |ins| && |Run(cfg, ins).sent| == |ins| && IsToolResult(Run(cfg, ins).sent[k])
    ensures Acts(cfg, ins)[k].Running? && Acts(cfg, ins)[k].ok
    ensures Run(cfg, ins).sent[k].payload.requestId == RequestId(Acts(cfg, ins)[k].slot + 1)
  {
    hide Step, Sound, ReportsOrNot, Reports, IsAdmin, Acts, Run, RequestId, ActOf;
    OneReplyEach(cfg, ins, k);
    PrefixActs(cfg, ins, k + 1);
    var st, o := LastStepEffect(cfg, ins[..k + 1]);
    assert Acts(cfg, ins)[k] == Acts(cfg, ins[..k + 1])[k];
  }

  lemma {:induction false} TallyTwice(acts: seq<Act>, p: Act -> bool, j: nat, k: nat)
    requires j < k < |acts| && p(acts[j]) && p(acts[k])
    ensures Tally(acts, p) >= 2
  {
    var n := |acts| - 1;
    if k < n {
      TallyTwice(acts[..n], p, j, k);
    } else {
      TallyOnce(acts[..n], p, j);
    }
  }

  lemma {:induction false} TallyOnce(acts: seq<Act>, p: Act -> bool, j: nat)
    requires j < |acts| && p(acts[j])
    ensures Tally(acts, p) >= 1
  {
    if j < |acts| - 1 {
      TallyOnce(acts[..|acts| - 1], p, j);
    }
  }

  /** No two replies of a run carry system information for the same request id. */
  lemma OneResultPerRecord(cfg: Config, ins: seq<Input>, j: nat, k: nat)
    requires j < k < |ins| && |Run(cfg, ins).sent| == |ins|
    requires IsToolResult(Run(cfg, ins).sent[j]) && IsToolResult(Run(cfg, ins).sent[k])
    ensures Run(cfg, ins).sent[j].payload.requestId != Run(cfg, ins).sent[k].payload.requestId
  {
    hide Run, Acts, Reached, RequestId, Tally;
    ResultIsSuccess(cfg, ins, j);
    ResultIsSuccess(cfg, ins, k);
    var acts := Acts(cfg, ins);
    if Run(cfg, ins).sent[j].payload.requestId == Run(cfg, ins).sent[k].payload.requestId {
      RequestIdInjective(acts[j].slot + 1, acts[k].slot + 1);
      var i := acts[j].slot;
      OncePerRecord(cfg, ins, i);
      TallyTwice(acts, a => IsSuccess(a, i), j, k);
    }
  }
}
