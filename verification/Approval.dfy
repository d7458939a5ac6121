/** The approval store: 64 slots that are filled in order and never freed. */
module Approval {
  import opened Bytes
  import opened Config
  import opened Policy
  import opened RpcHash
  import opened RpcGrammar
  import opened RpcParse
  import opened JsonScan

  const MAX_PENDING: nat := 64
  const MAX_REQUEST_ID: nat := 40
  const NOBODY := Identity(0, 0, 0)

  datatype Status = Pending | Granted | Rejected | Executed

  datatype Record = Record(
    id: string, hash: nat, requester: Identity, approver: Identity,
    session: string, name: string, params: string, risk: string, summary: string,
    expires: int, status: Status)

  const BLANK := Record("", 0, NOBODY, NOBODY, "", "", "", "", "", 0, Pending)

  /** Why an approval operation was refused. */
  datatype Denial = NotFound | NotPending | Expired | SameIdentity | WasRejected | NotGranted | Changed

  function RequestId(n: nat): string {
    "req_" + Decimal(n)
  }

  /** The record that a request becomes: every text is copied into a fixed buffer. */
  function NewRecord(n: nat, q: Request, v: Verdict, who: Identity, expires: int): Record {
    Record(Trunc(RequestId(n), MAX_REQUEST_ID), v.hash, who, NOBODY,
           Trunc(q.session, MAX_SESSION), Trunc(q.name, MAX_METHOD), Trunc(q.params, MAX_PARAMS),
           Trunc(v.risk, 16), Trunc(v.summary, 256), expires, Pending)
  }

  /** The record is the request's: each text is copied whole or cut to its own buffer, the
      hash and the requester are the given ones, and nobody has approved it yet. */
  predicate Copies(r: Record, n: nat, q: Request, v: Verdict, who: Identity, expires: int) {
    && Cuts(r.id, "req_" + Decimal(n), 40) && r.hash == v.hash && r.requester == who && r.approver == NOBODY
    && Cuts(r.session, q.session, 64) && Cuts(r.name, q.name, 64) && Cuts(r.params, q.params, 1024)
    && Cuts(r.risk, v.risk, 16) && Cuts(r.summary, v.summary, 256)
    && r.expires == expires && r.status == Pending
  }

  /** t is u, or as much of it as a buffer of n bytes takes. */
  predicate Cuts(t: string, u: string, n: nat) {
    t <= u && (t == u || |t| == n - 1) && |t| < n
  }

  /** `pending_to_request`: the request that a record stands for. */
  function ToRequest(r: Record): Request {
    var name, params, session := Trunc(r.name, MAX_METHOD), Trunc(r.params, MAX_PARAMS), Trunc(r.session, MAX_SESSION);
    Request(Trunc(r.id, MAX_ID), name, session, params, HashOf(name, params, session))
  }

  /** The first slot with the id. */
  function FindSlot(records: seq<Record>, id: string): (slot: Option<nat>)
    ensures slot.Some? ==> slot.value < |records| && records[slot.value].id == id
  {
    if records == [] then None
    else if records[0].id == id then Some(0)
    else
      var s := FindSlot(records[1..], id);
      if s.Some? then Some(s.value + 1) else None
  }

  function GrantDenial(r: Record, who: Identity, now: int): Option<Denial> {
    if r.status != Pending then Some(NotPending)
    else if now > r.expires then Some(Expired)
    else if r.requester == who then Some(SameIdentity)
    else None
  }

  /** Rejecting looks neither at the status nor at the clock. */
  function RejectDenial(r: Record, who: Identity): Option<Denial> {
    if r.requester == who then Some(SameIdentity) else None
  }

  function ExecuteDenial(r: Record, hash: nat, now: int): Option<Denial> {
    if r.status == Rejected then Some(WasRejected)
    else if r.status != Granted then Some(NotGranted)
    else if now > r.expires then Some(Expired)
    else if r.hash != hash then Some(Changed)
    else None
  }

  // ---- the store --------------------------------------------------------------------

  /** The array of slots; a pointer into it is a slot number, the null pointer None. */
  class Store {
    const slots: array<Record>
    var count: nat
    var nextId: nat

    ghost predicate Valid()
      reads this
    {
      slots.Length == MAX_PENDING && count <= MAX_PENDING
    }

    ghost function Contents(): seq<Record>
      requires Valid()
      reads this, slots
    {
      slots[..count]
    }

    constructor ()
      ensures Valid() && fresh(slots) && Contents() == [] && nextId == 1
    {
      slots := new Record[MAX_PENDING](_ => BLANK);
      count, nextId := 0, 1;
    }

    method Add(q: Request, v: Verdict, who: Identity, ttl: int, now: int) returns (slot: Option<nat>)
      requires Valid()
      modifies this, slots
      ensures Valid()
      ensures slot.None? <==> |old(Contents())| == MAX_PENDING
      ensures slot.None? ==> Contents() == old(Contents()) && nextId == old(nextId)
      ensures slot.Some? ==> slot.value == |old(Contents())| && nextId == old(nextId) + 1
      ensures slot.Some? ==> Contents() == old(Contents()) + [NewRecord(old(nextId), q, v, who, now + ttl)]
      ensures slot.Some? ==> Copies(Contents()[slot.value], old(nextId), q, v, who, now + ttl)
    {
      if count >= MAX_PENDING {
        return None;
      }
      slots[count] := NewRecord(nextId, q, v, who, now + ttl);
      slot := Some(count);
      count, nextId := count + 1, nextId + 1;
      assert slots[..count] == old(slots[..count]) + [slots[count - 1]];
    }

    method Find(id: string) returns (slot: Option<nat>)
      requires Valid()
      ensures slot == FindSlot(Contents(), id)
    {
      ghost var all := slots[..count];
      var i := 0;
      while i < count
        invariant 0 <= i <= count
        invariant FindSlot(all, id) == Shift(FindSlot(all[i..], id), i)
      {
        if slots[i].id == id {
          return Some(i);
        }
        assert all[i..][1..] == all[i + 1..];
        i := i + 1;
      }
      return None;
    }

    method Grant(slot: Option<nat>, who: Identity, now: int) returns (denial: Option<Denial>)
      requires Valid() && (slot.Some? ==> slot.value < count)
      modifies slots
      ensures slot.None? ==> denial == Some(NotFound)
      ensures slot.Some? ==> denial == GrantDenial(old(Contents())[slot.value], who, now)
      ensures Contents() == if denial.Some? then old(Contents()) else
        old(Contents()[slot.value := Contents()[slot.value].(approver := who, status := Granted)])
    {
      if slot.None? {
        return Some(NotFound);
      }
      var p := slot.value;
      if slots[p].status != Pending {
        return Some(NotPending);
      }
      if now > slots[p].expires {
        return Some(Expired);
      }
      if slots[p].requester == who {
        return Some(SameIdentity);
      }
      slots[p] := slots[p].(approver := who);
      slots[p] := slots[p].(status := Granted);
      return None;
    }

    method Reject(slot: Option<nat>, who: Identity) returns (denial: Option<Denial>)
      requires Valid() && (slot.Some? ==> slot.value < count)
      modifies slots
      ensures slot.None? ==> denial == Some(NotFound)
      ensures slot.Some? ==> denial == RejectDenial(old(Contents())[slot.value], who)
      ensures Contents() == if denial.Some? then old(Contents()) else
        old(Contents()[slot.value := Contents()[slot.value].(approver := who, status := Rejected)])
    {
      if slot.None? {
        return Some(NotFound);
      }
      var p := slot.value;
      if slots[p].requester == who {
        return Some(SameIdentity);
      }
      slots[p] := slots[p].(approver := who);
      slots[p] := slots[p].(status := Rejected);
      return None;
    }

    method ValidateForExecute(slot: Option<nat>, hash: nat, now: int) returns (denial: Option<Denial>)
      requires Valid() && (slot.Some? ==> slot.value < count)
      ensures slot.None? ==> denial == Some(NotFound)
      ensures slot.Some? ==> denial == ExecuteDenial(Contents()[slot.value], hash, now)
    {
      if slot.None? {
        return Some(NotFound);
      }
      var p := slot.value;
      if slots[p].status != Granted {
        return Some(if slots[p].status == Rejected then WasRejected else NotGranted);
      }
      if now > slots[p].expires {
        return Some(Expired);
      }
      if slots[p].hash != hash {
        return Some(Changed);
      }
      return None;
    }

    /** The execute handler marks the record once the tool has succeeded. */
    method MarkExecuted(p: nat)
      requires Valid() && p < count
      modifies slots
      ensures Contents() == old(Contents()[p := Contents()[p].(status := Executed)])
    {
      slots[p] := slots[p].(status := Executed);
    }
  }

  function Shift(slot: Option<nat>, n: nat): Option<nat> {
    if slot.Some? then Some(slot.value + n) else None
  }

  // ---- the store as a map from request ids --------------------------------------------

  /** Ids are handed out in order, so slot k holds req_(k+1). */
  predicate Numbered(records: seq<Record>, nextId: nat) {
    && nextId == |records| + 1 <= MAX_PENDING + 1
    && forall k | 0 <= k < |records| :: records[k].id == RequestId(k + 1)
  }

  lemma RequestIdInjective(m: nat, n: nat)
    requires RequestId(m) == RequestId(n)
    ensures m == n
  {
    assert RequestId(m)[4..] == Decimal(m) && RequestId(n)[4..] == Decimal(n);
    DecimalRoundTrip(m);
    DecimalRoundTrip(n);
  }

  lemma RequestIdFits(n: nat)
    requires n <= MAX_PENDING
    ensures |RequestId(n)| <= 6 && Trunc(RequestId(n), MAX_REQUEST_ID) == RequestId(n)
  {
    if n >= 10 {
      assert |Decimal(n / 10)| == 1 && |Decimal(n)| == 2;
    }
  }

  lemma {:induction false} FindSlotFirst(records: seq<Record>, id: string, k: nat)
    requires k < |records| && records[k].id == id
    requires forall j | 0 <= j < k :: records[j].id != id
    ensures FindSlot(records, id) == Some(k)
  {
    if k > 0 {
      assert records[0].id != id;
      FindSlotFirst(records[1..], id, k - 1);
    }
  }

  /** Looking up a text finds slot k exactly when the text is req_(k+1) in canonical
      decimal, and finds nothing for every other text. */
  lemma FindExact(records: seq<Record>, nextId: nat, id: string, k: nat)
    requires Numbered(records, nextId)
    ensures FindSlot(records, id) == Some(k) <==> k < |records| && id == RequestId(k + 1)
    ensures RequestId(k + 1) == "req_" + Decimal(k + 1)
  {
    if k < |records| && id == RequestId(k + 1) {
      forall j | 0 <= j < k ensures records[j].id != id {
        if records[j].id == id {
          RequestIdInjective(j + 1, k + 1);
        }
      }
      FindSlotFirst(records, id, k);
    }
  }
}
