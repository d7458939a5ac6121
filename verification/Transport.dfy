/** The read and write loops over a socket that delivers and accepts bytes piecemeal. */
module Transport {
  import opened Bytes

  /** What one `read` call did, and the time since the start when the loop checked it. */
  datatype ReadResult = Data(bytes: string) | Eof | Interrupted | Broken

  datatype Turn = Turn(elapsed: int, result: ReadResult)

  /** Waiting: the environment has no more turns and the loop has not left yet. */
  datatype ReadEnd = Message(text: string) | TooSlow | Failed | TooLong | Waiting

  /** What a call can put into the rest of the buffer. */
  function Delivered(bytes: string, room: nat): (b: string)
    ensures |b| <= room
  {
    if |bytes| <= room then bytes else bytes[..room]
  }

  /** The checks after the loop; the clock is read once more. */
  function Finish(got: string, after: int, max: nat, deadline: int): ReadEnd {
    if after > deadline then TooSlow else if |got| >= max then TooLong else Message(got)
  }

  function ReadLoop(got: string, turns: seq<Turn>, after: int, max: nat, deadline: int): ReadEnd
    decreases |turns|
  {
    if |got| >= max then Finish(got, after, max, deadline)
    else if turns == [] then Waiting
    else if turns[0].elapsed > deadline then TooSlow
    else
      match turns[0].result
      case Interrupted => ReadLoop(got, turns[1..], after, max, deadline)
      case Broken => Failed
      case Eof => Finish(got, after, max, deadline)
      case Data(bytes) =>
        var now := got + Delivered(bytes, max - |got|);
        if bytes == "" || '\n' in now then Finish(now, after, max, deadline)
        else ReadLoop(now, turns[1..], after, max, deadline)
  }

  // ---- what a message is ------------------------------------------------------------------

  function Chunk(t: Turn): string {
    if t.result.Data? then t.result.bytes else ""
  }

  function Chunks(turns: seq<Turn>): string {
    if turns == [] then "" else Chunk(turns[0]) + Chunks(turns[1..])
  }

  predicate InTime(turns: seq<Turn>, deadline: int) {
    forall j | 0 <= j < |turns| :: turns[j].elapsed <= deadline
  }

  /** A turn after which the loop can go on. */
  predicate GoesOn(t: Turn) {
    t.result == Interrupted || (t.result.Data? && t.result.bytes != "")
  }

  predicate IsEnd(t: Turn) {
    t.result == Eof || t.result == Data("")
  }

  /** After k turns the message is complete: everything was in time, all turns delivered
      or were interrupted, the text is shorter than the limit, and it ends either with the
      first chunk that holds a newline or where the peer closed. */
  predicate CompleteAfter(turns: seq<Turn>, k: nat, after: int, max: nat, deadline: int) {
    && k <= |turns| && InTime(turns[..k], deadline) && after <= deadline
    && (forall j | 0 <= j < k :: GoesOn(turns[j]))
    && |Chunks(turns[..k])| < max
    && if k < |turns| && IsEnd(turns[k]) && '\n' !in Chunks(turns[..k])
       then turns[k].elapsed <= deadline
       else k > 0 && '\n' in Chunk(turns[k - 1]) && '\n' !in Chunks(turns[..k - 1])
  }

  lemma {:induction false} ChunksAppend(a: seq<Turn>, b: seq<Turn>)
    ensures Chunks(a + b) == Chunks(a) + Chunks(b)
  {
    if a == [] {
      assert a + b == b;
    } else {
      assert (a + b)[1..] == a[1..] + b;
      ChunksAppend(a[1..], b);
    }
  }

  lemma ChunksOne(turns: seq<Turn>, k: nat)
    requires k < |turns|
    ensures Chunks(turns[..k + 1]) == Chunks(turns[..k]) + Chunk(turns[k])
  {
    assert turns[..k + 1] == turns[..k] + [turns[k]];
    assert [turns[k]][1..] == [];
    ChunksAppend(turns[..k], [turns[k]]);
  }

  /** The state of the loop after n turns that it got through. */
  predicate Passed(turns: seq<Turn>, n: nat, max: nat, deadline: int) {
    && n <= |turns| && InTime(turns[..n], deadline)
    && (forall j | 0 <= j < n :: GoesOn(turns[j]))
    && |Chunks(turns[..n])| < max && '\n' !in Chunks(turns[..n])
  }

  lemma PassOne(turns: seq<Turn>, n: nat, max: nat, deadline: int)
    requires Passed(turns, n, max, deadline) && n < |turns| && turns[n].elapsed <= deadline && GoesOn(turns[n])
    ensures Chunks(turns[..n + 1]) == Chunks(turns[..n]) + Chunk(turns[n])
    ensures |Chunks(turns[..n + 1])| < max && '\n' !in Chunk(turns[n]) ==> Passed(turns, n + 1, max, deadline)
    ensures InTime(turns[..n + 1], deadline)
  {
    ChunksOne(turns, n);
    assert turns[..n + 1] == turns[..n] + [turns[n]];
  }

  /** From a passed state on, a message is returned only where one is complete. */
  lemma {:induction false} MessageIsComplete(turns: seq<Turn>, n: nat, after: int, max: nat, deadline: int)
    returns (k: nat)
    requires Passed(turns, n, max, deadline)
    requires ReadLoop(Chunks(turns[..n]), turns[n..], after, max, deadline).Message?
    ensures CompleteAfter(turns, k, after, max, deadline)
    ensures ReadLoop(Chunks(turns[..n]), turns[n..], after, max, deadline).text == Chunks(turns[..k])
    decreases |turns| - n
  {
    var got := Chunks(turns[..n]);
    var t := turns[n];
    assert turns[n..][0] == t && turns[n..][1..] == turns[n + 1..];
    if IsEnd(t) {
      assert got + "" == got;
      return n;
    }
    PassOne(turns, n, max, deadline);
    if '\n' in Chunk(t) {
      return n + 1;
    }
    assert t.result == Interrupted ==> got + Chunk(t) == got;
    k := MessageIsComplete(turns, n + 1, after, max, deadline);
  }

  /** Whether the message ends with the k-th turn rather than where the peer closed. */
  predicate EndsInLine(turns: seq<Turn>, k: nat) {
    0 < k <= |turns| && '\n' in Chunk(turns[k - 1])
  }

  lemma TurnOfComplete(turns: seq<Turn>, n: nat, k: nat, after: int, max: nat, deadline: int)
    requires CompleteAfter(turns, k, after, max, deadline) && n < k
    ensures turns[n].elapsed <= deadline && GoesOn(turns[n])
    ensures |Chunks(turns[..n + 1])| < max
    ensures '\n' in Chunk(turns[n]) ==> n + 1 == k
  {
    assert turns[..k][n] == turns[n];
    ChunksOne(turns, n);
    ChunksPrefix(turns, n + 1, k);
    if n + 1 < k {
      ChunksPrefix(turns, n + 1, k - 1);
    }
    if '\n' in Chunk(turns[n]) {
      assert '\n' in Chunks(turns[..n + 1]);
    }
  }

  lemma EndOfComplete(turns: seq<Turn>, k: nat, after: int, max: nat, deadline: int)
    requires CompleteAfter(turns, k, after, max, deadline) && !EndsInLine(turns, k)
    ensures k < |turns| && IsEnd(turns[k]) && turns[k].elapsed <= deadline
    ensures after <= deadline && |Chunks(turns[..k])| < max
  {}

  /** And where one is complete, it is returned. */
  lemma {:induction false} CompleteIsMessage(turns: seq<Turn>, n: nat, k: nat, after: int, max: nat, deadline: int)
    requires CompleteAfter(turns, k, after, max, deadline) && Passed(turns, n, max, deadline) && n <= k
    requires EndsInLine(turns, k) ==> n < k
    ensures ReadLoop(Chunks(turns[..n]), turns[n..], after, max, deadline) == Message(Chunks(turns[..k]))
    decreases k - n
  {
    hide Chunks;
    var got := Chunks(turns[..n]);
    GotInRoom(turns, n, max, deadline);
    if n == k {
      hide CompleteAfter, Passed;
      EndOfComplete(turns, k, after, max, deadline);
      assert turns[n..][0] == turns[n] && got + "" == got;
    } else {
      var t := turns[n];
      TurnOfComplete(turns, n, k, after, max, deadline);
      PassOne(turns, n, max, deadline);
      assert turns[n..][0] == t && turns[n..][1..] == turns[n + 1..];
      assert after <= deadline;
      if '\n' !in Chunk(t) {
        hide CompleteAfter, Passed;
        assert t.result == Interrupted ==> got + Chunk(t) == got;
        CompleteIsMessage(turns, n + 1, k, after, max, deadline);
      }
    }
  }

  lemma GotInRoom(turns: seq<Turn>, n: nat, max: nat, deadline: int)
    requires Passed(turns, n, max, deadline)
    ensures |Chunks(turns[..n])| < max && '\n' !in Chunks(turns[..n])
  {}

  lemma ChunksPrefix(turns: seq<Turn>, m: nat, n: nat)
    requires m <= |turns| && n <= |turns|
    ensures m <= n ==> |Chunks(turns[..m])| <= |Chunks(turns[..n])| && Chunks(turns[..m]) <= Chunks(turns[..n])
  {
    if m <= n {
      assert turns[..n] == turns[..m] + turns[m..n];
      ChunksAppend(turns[..m], turns[m..n]);
    }
  }

  /** The read loop under any partial reads, interruptions and clock readings: it returns
      a message exactly when one is complete after some number of turns, and the message
      is the concatenation of the chunks of those turns. */
  lemma ReadExact(turns: seq<Turn>, after: int, max: nat, deadline: int, text: string)
    ensures ReadLoop("", turns, after, max, deadline) == Message(text)
            <==> exists k: nat :: CompleteAfter(turns, k, after, max, deadline) && text == Chunks(turns[..k])
  {
    assert turns[..0] == [] && turns[0..] == turns;
    if ReadLoop("", turns, after, max, deadline) == Message(text) {
      var k := MessageIsComplete(turns, 0, after, max, deadline);
    }
    if k: nat :| CompleteAfter(turns, k, after, max, deadline) && text == Chunks(turns[..k]) {
      CompleteIsMessage(turns, 0, k, after, max, deadline);
    }
  }

  // ---- the other ends -----------------------------------------------------------------------

  lemma PassedPrefix(turns: seq<Turn>, n: nat, k: nat, max: nat, deadline: int)
    requires Passed(turns, k, max, deadline) && n <= k
    ensures Passed(turns, n, max, deadline)
  {
    ChunksPrefix(turns, n, k);
    assert forall j | 0 <= j < n :: turns[..n][j] == turns[..k][j];
  }

  /** The loop gets through turns that pass. */
  lemma {:induction false} LoopReaches(turns: seq<Turn>, k: nat, after: int, max: nat, deadline: int)
    requires Passed(turns, k, max, deadline)
    ensures ReadLoop("", turns, after, max, deadline)
         == ReadLoop(Chunks(turns[..k]), turns[k..], after, max, deadline)
  {
    if k == 0 {
      assert turns[..0] == [] && turns[0..] == turns;
    } else {
      var n := k - 1;
      PassedPrefix(turns, n, k, max, deadline);
      LoopReaches(turns, n, after, max, deadline);
      var t := turns[n];
      assert turns[..k][n] == t;
      PassOne(turns, n, max, deadline);
      assert turns[n..][0] == t && turns[n..][1..] == turns[k..];
      assert t.result == Interrupted ==> Chunks(turns[..n]) + Chunk(t) == Chunks(turns[..n]);
      NoNewlineIn(turns, k, max, deadline);
    }
  }

  lemma NoNewlineIn(turns: seq<Turn>, k: nat, max: nat, deadline: int)
    requires Passed(turns, k, max, deadline)
    ensures '\n' !in Chunks(turns[..k]) && |Chunks(turns[..k])| < max
  {}

  /** The first turn, if any, that the loop does not get through. */
  lemma {:induction false} LastPassed(turns: seq<Turn>, n: nat, max: nat, deadline: int) returns (k: nat)
    requires Passed(turns, n, max, deadline)
    ensures Passed(turns, k, max, deadline) && !Passed(turns, k + 1, max, deadline)
    decreases |turns| - n
  {
    if Passed(turns, n + 1, max, deadline) {
      k := LastPassed(turns, n + 1, max, deadline);
    } else {
      k := n;
    }
  }

  /** After k turns the next one arrives in time. */
  predicate Next(turns: seq<Turn>, k: nat, max: nat, deadline: int) {
    Passed(turns, k, max, deadline) && k < |turns| && turns[k].elapsed <= deadline
  }

  /** The k-th turn takes the loop to its regular end. */
  predicate Leaves(turns: seq<Turn>, k: nat, max: nat, deadline: int) {
    && Next(turns, k, max, deadline)
    && (IsEnd(turns[k]) || '\n' in Chunk(turns[k]) || Fills(turns, k, max, deadline))
  }

  /** The k-th turn fills the buffer. */
  predicate Fills(turns: seq<Turn>, k: nat, max: nat, deadline: int) {
    Next(turns, k, max, deadline) && |Chunks(turns[..k])| + |Chunk(turns[k])| >= max
  }

  lemma EndAtTurn(turns: seq<Turn>, k: nat, after: int, max: nat, deadline: int)
    requires Passed(turns, k, max, deadline) && !Passed(turns, k + 1, max, deadline)
    ensures var end := ReadLoop("", turns, after, max, deadline);
      if k == |turns| then end == Waiting
      else if turns[k].elapsed > deadline then end == TooSlow
      else if turns[k].result == Broken then end == Failed
      else
        && Leaves(turns, k, max, deadline)
        && (after > deadline ==> end == TooSlow)
        && (after <= deadline ==>
              (end == TooLong <==> Fills(turns, k, max, deadline)) && (end == TooLong || end.Message?))
  {
    LoopReaches(turns, k, after, max, deadline);
    NoNewlineIn(turns, k, max, deadline);
    if k < |turns| {
      var t := turns[k];
      assert turns[k..][0] == t;
      if t.elapsed <= deadline {
        if GoesOn(t) {
          PassOne(turns, k, max, deadline);
          AllGoOn(turns, k);
        }
      }
    }
  }

  lemma AllGoOn(turns: seq<Turn>, k: nat)
    requires k < |turns|
    ensures (forall j | 0 <= j < k :: GoesOn(turns[j])) && GoesOn(turns[k]) ==>
              forall j | 0 <= j < k + 1 :: GoesOn(turns[j])
  {}

  lemma OnlyOneStop(turns: seq<Turn>, j: nat, k: nat, max: nat, deadline: int)
    requires Passed(turns, k, max, deadline) && !Passed(turns, k + 1, max, deadline)
    requires Passed(turns, j, max, deadline) && !Passed(turns, j + 1, max, deadline)
    ensures j == k
  {
    if j < k {
      PassedPrefix(turns, j + 1, k, max, deadline);
    } else if k < j {
      PassedPrefix(turns, k + 1, j, max, deadline);
    }
  }

  lemma StopsHere(turns: seq<Turn>, k: nat, max: nat, deadline: int)
    requires Passed(turns, k, max, deadline)
    requires k == |turns| || turns[k].elapsed > deadline || turns[k].result == Broken || Leaves(turns, k, max, deadline)
    ensures !Passed(turns, k + 1, max, deadline)
  {
    if k < |turns| {
      ChunksOne(turns, k);
      assert turns[..k + 1][k] == turns[k];
    }
  }

  /** The ends of the read loop other than a message: it fails exactly when a read breaks
      in time, waits exactly when the environment has no more turns, is too slow exactly
      when a turn comes after the deadline or the clock has passed it at the end, and is
      too long exactly when a chunk fills the buffer in time. */
  lemma ReadFailsExactly(turns: seq<Turn>, after: int, max: nat, deadline: int)
    ensures var end := ReadLoop("", turns, after, max, deadline);
      && (end == Failed <==> exists k | 0 <= k < |turns| :: Next(turns, k, max, deadline) && turns[k].result == Broken)
      && (end == Waiting <==> Passed(turns, |turns|, max, deadline))
      && (end == TooLong <==>
            after <= deadline && (max == 0 || exists k | 0 <= k < |turns| :: Fills(turns, k, max, deadline)))
      && (end == TooSlow <==>
            || (exists k | 0 <= k < |turns| :: Passed(turns, k, max, deadline) && turns[k].elapsed > deadline)
            || (after > deadline && (max == 0 || exists k | 0 <= k < |turns| :: Leaves(turns, k, max, deadline))))
  {
    assert turns[..0] == [];
    if max == 0 {
      return;
    }
    var k := LastPassed(turns, 0, max, deadline);
    EndAtTurn(turns, k, after, max, deadline);
    forall j: nat | j <= |turns| && Passed(turns, j, max, deadline) &&
      (j == |turns| || turns[j].elapsed > deadline || turns[j].result == Broken || Leaves(turns, j, max, deadline))
      ensures j == k
    {
      StopsHere(turns, j, max, deadline);
      OnlyOneStop(turns, j, k, max, deadline);
    }
  }

  // ---- the loops --------------------------------------------------------------------------

  /** The kernel's side of `read`: copies bytes into the buffer. */
  method CopyIn(buffer: array<char>, total: nat, bytes: string)
    requires total + |bytes| <= buffer.Length
    modifies buffer
    ensures buffer[..total + |bytes|] == old(buffer[..total]) + bytes
  {
    var i := 0;
    while i < |bytes|
      invariant 0 <= i <= |bytes|
      invariant buffer[..total + i] == old(buffer[..total]) + bytes[..i]
    {
      buffer[total + i] := bytes[i];
      assert buffer[..total + i + 1] == buffer[..total + i] + [bytes[i]];
      i := i + 1;
    }
    assert bytes[..i] == bytes;
  }

  method FinishRead(buffer: array<char>, total: nat, after: int, max: nat, deadline: int) returns (end: ReadEnd)
    requires buffer.Length == max + 1 && total <= max
    modifies buffer
    ensures end == Finish(old(buffer[..total]), after, max, deadline)
    ensures end.Message? ==> Holds(buffer, end.text)
  {
    if after > deadline {
      return TooSlow;
    }
    if total >= max {
      return TooLong;
    }
    buffer[total] := '\0';
    return Message(buffer[..total]);
  }

  /** `anything_transport_read_request` on a buffer of max + 1 bytes. */
  method ReadRequest(turns: seq<Turn>, after: int, buffer: array<char>, max: nat, deadline: int)
    returns (end: ReadEnd)
    requires buffer.Length == max + 1
    modifies buffer
    ensures end == ReadLoop("", turns, after, max, deadline)
    ensures end.Message? ==> Holds(buffer, end.text)
  {
    var total: nat, i: nat := 0, 0;
    assert turns[0..] == turns;
    while total < max
      invariant 0 <= i <= |turns| && total <= max
      invariant ReadLoop("", turns, after, max, deadline)
             == ReadLoop(buffer[..total], turns[i..], after, max, deadline)
      decreases |turns| - i
    {
      if i == |turns| {
        return Waiting;
      }
      var t := turns[i];
      assert turns[i..][0] == t && turns[i..][1..] == turns[i + 1..];
      if t.elapsed > deadline {
        return TooSlow;
      }
      i := i + 1;
      match t.result {
        case Interrupted =>
        case Broken => return Failed;
        case Eof =>
          end := FinishRead(buffer, total, after, max, deadline);
          return;
        case Data(bytes) =>
          var b := Delivered(bytes, max - total);
          CopyIn(buffer, total, b);
          total := total + |b|;
          if b == "" || '\n' in buffer[..total] {
            end := FinishRead(buffer, total, after, max, deadline);
            return;
          }
      }
    }
    end := FinishRead(buffer, total, after, max, deadline);
  }

  /** What one `write` call did. */
  datatype WriteResult = Wrote(n: nat) | WriteInterrupted | WriteBroken

  datatype WriteEnd = Done | WriteFailed | StillWriting

  function WriteLoop(left: nat, calls: seq<WriteResult>): WriteEnd
    decreases |calls|
  {
    if left == 0 then Done
    else if calls == [] then StillWriting
    else
      match calls[0]
      case WriteBroken => WriteFailed
      case WriteInterrupted => WriteLoop(left, calls[1..])
      case Wrote(n) => WriteLoop(if n <= left then left - n else 0, calls[1..])
  }

  // ---- what the write loop achieves ---------------------------------------------------------

  function Accepted(calls: seq<WriteResult>): nat {
    if calls == [] then 0 else (if calls[0].Wrote? then calls[0].n else 0) + Accepted(calls[1..])
  }

  /** The calls before the first one that breaks. */
  function Unbroken(calls: seq<WriteResult>): (prefix: seq<WriteResult>)
    ensures prefix <= calls && WriteBroken !in prefix
    ensures |prefix| < |calls| ==> calls[|prefix|] == WriteBroken
  {
    if calls == [] || calls[0] == WriteBroken then []
    else
      assert calls == [calls[0]] + calls[1..];
      [calls[0]] + Unbroken(calls[1..])
  }

  /** The loop is done exactly when the calls before the first broken one accept all the
      bytes, and has failed exactly when they do not and one is broken. */
  lemma {:induction false} WriteEnds(left: nat, calls: seq<WriteResult>)
    ensures WriteLoop(left, calls) ==
      if Accepted(Unbroken(calls)) >= left then Done
      else if WriteBroken in calls then WriteFailed
      else StillWriting
    decreases |calls|
  {
    if calls != [] && calls[0] != WriteBroken {
      var rest := if !calls[0].Wrote? then left else if calls[0].n <= left then left - calls[0].n else 0;
      WriteEnds(rest, calls[1..]);
      assert Unbroken(calls)[1..] == Unbroken(calls[1..]);
      assert WriteBroken in calls <==> WriteBroken in calls[1..] by {
        assert calls == [calls[0]] + calls[1..];
      }
    }
  }

  lemma {:induction false} AcceptedGrows(calls: seq<WriteResult>, k: nat)
    requires k <= |calls|
    ensures Accepted(calls[..k]) <= Accepted(calls)
  {
    if k > 0 {
      assert calls[..k][1..] == calls[1..][..k - 1];
      AcceptedGrows(calls[1..], k - 1);
    } else {
      assert calls[..0] == [];
    }
  }

  lemma UnbrokenIsLongest(calls: seq<WriteResult>, k: nat)
    requires k <= |calls| && WriteBroken !in calls[..k]
    ensures k <= |Unbroken(calls)| && Accepted(calls[..k]) <= Accepted(Unbroken(calls))
  {
    var n := |Unbroken(calls)|;
    assert k <= n;
    assert Unbroken(calls)[..k] == calls[..k];
    AcceptedGrows(Unbroken(calls), k);
  }

  /** The same by prefixes: done exactly when some prefix of the calls is unbroken and
      accepts enough, failed exactly when a call breaks before that. */
  lemma WriteExact(left: nat, calls: seq<WriteResult>)
    ensures WriteLoop(left, calls) == Done <==>
            exists k | 0 <= k <= |calls| :: WriteBroken !in calls[..k] && Accepted(calls[..k]) >= left
    ensures WriteLoop(left, calls) == WriteFailed <==>
            exists k | 0 <= k < |calls| ::
              WriteBroken !in calls[..k] && Accepted(calls[..k]) < left && calls[k] == WriteBroken
  {
    WriteEnds(left, calls);
    var u := Unbroken(calls);
    assert calls[..|u|] == u;
    if k :| 0 <= k <= |calls| && WriteBroken !in calls[..k] && Accepted(calls[..k]) >= left {
      UnbrokenIsLongest(calls, k);
    }
    if k :| 0 <= k < |calls| && WriteBroken !in calls[..k] && Accepted(calls[..k]) < left && calls[k] == WriteBroken {
      UnbrokenIsLongest(calls, k);
      assert |u| <= k;
      assert u == calls[..k];
    }
  }

  function WithoutInterrupted(calls: seq<WriteResult>): seq<WriteResult> {
    if calls == [] then []
    else (if calls[0] == WriteInterrupted then [] else [calls[0]]) + WithoutInterrupted(calls[1..])
  }

  lemma UnbrokenStep(call: WriteResult, rest: seq<WriteResult>)
    ensures call == WriteBroken ==> Unbroken([call] + rest) == []
    ensures call != WriteBroken ==>
              var m := if call.Wrote? then call.n else 0;
              Accepted(Unbroken([call] + rest)) == m + Accepted(Unbroken(rest))
    ensures WriteBroken in [call] + rest <==> call == WriteBroken || WriteBroken in rest
  {
    assert ([call] + rest)[1..] == rest;
    if call != WriteBroken {
      assert Unbroken([call] + rest)[1..] == Unbroken(rest);
    }
  }

  lemma {:induction false} InterruptionsAddNothing(calls: seq<WriteResult>)
    ensures Accepted(Unbroken(WithoutInterrupted(calls))) == Accepted(Unbroken(calls))
    ensures WriteBroken in WithoutInterrupted(calls) <==> WriteBroken in calls
  {
    if calls != [] {
      var call, rest := calls[0], calls[1..];
      var w := WithoutInterrupted(rest);
      InterruptionsAddNothing(rest);
      assert calls == [call] + rest;
      assert WithoutInterrupted(calls) == if call == WriteInterrupted then w else [call] + w;
      hide Accepted, Unbroken, WithoutInterrupted;
      UnbrokenStep(call, rest);
      UnbrokenStep(call, w);
    }
  }

  /** Interrupted calls change neither the end nor the number of bytes sent. */
  lemma InterruptionsDoNotMatter(left: nat, calls: seq<WriteResult>)
    ensures WriteLoop(left, WithoutInterrupted(calls)) == WriteLoop(left, calls)
    ensures Accepted(Unbroken(WithoutInterrupted(calls))) == Accepted(Unbroken(calls))
  {
    InterruptionsAddNothing(calls);
    WriteEnds(left, calls);
    WriteEnds(left, WithoutInterrupted(calls));
  }

  /** How far a response of n bytes gets when so many of its bytes are already written. */
  function SentBy(n: nat, calls: seq<WriteResult>, written: nat): nat {
    var total := written + Accepted(Unbroken(calls));
    if total <= n then total else n
  }

  lemma SentStep(n: nat, calls: seq<WriteResult>, written: nat)
    requires calls != [] && written < n
    ensures calls[0] == WriteBroken ==> SentBy(n, calls, written) == written
    ensures calls[0] == WriteInterrupted ==> SentBy(n, calls, written) == SentBy(n, calls[1..], written)
    ensures calls[0].Wrote? ==>
              var m := if calls[0].n <= n - written then calls[0].n else n - written;
              SentBy(n, calls, written) == SentBy(n, calls[1..], written + m)
  {
    if calls[0] != WriteBroken {
      assert Unbroken(calls)[1..] == Unbroken(calls[1..]);
    }
  }

  /** The loop of the write: what it has sent and how it ended. */
  method WriteAll(response: string, calls: seq<WriteResult>) returns (end: WriteEnd, sent: string)
    ensures end == WriteLoop(|response|, calls)
    ensures sent == response[..SentBy(|response|, calls, 0)]
  {
    hide Accepted, Unbroken, SentBy;
    var written: nat, i: nat := 0, 0;
    sent := "";
    assert calls[0..] == calls;
    while written < |response|
      invariant 0 <= i <= |calls| && written <= |response|
      invariant sent == response[..written]
      invariant WriteLoop(|response|, calls) == WriteLoop(|response| - written, calls[i..])
      invariant SentBy(|response|, calls, 0) == SentBy(|response|, calls[i..], written)
      decreases |calls| - i
    {
      NothingLeft(|response|, calls[i..], written);
      if i == |calls| {
        return StillWriting, sent;
      }
      assert calls[i..][0] == calls[i] && calls[i..][1..] == calls[i + 1..];
      SentStep(|response|, calls[i..], written);
      match calls[i] {
        case WriteBroken => return WriteFailed, sent;
        case WriteInterrupted =>
        case Wrote(n) =>
          var m := if n <= |response| - written then n else |response| - written;
          sent := sent + response[written..written + m];
          written := written + m;
      }
      i := i + 1;
    }
    NothingLeft(|response|, calls[i..], written);
    return Done, sent;
  }

  lemma NothingLeft(n: nat, calls: seq<WriteResult>, written: nat)
    ensures SentBy(n, calls, written) <= n
    ensures written == n ==> SentBy(n, calls, written) == n
    ensures calls == [] && written <= n ==> SentBy(n, calls, written) == written
  {}

  /** `anything_transport_write_response`: whatever the partial writes, the peer gets the
      response's bytes once and in order, as many as were accepted before a call broke. */
  method WriteResponse(response: string, calls: seq<WriteResult>) returns (end: WriteEnd, sent: string)
    ensures end == WriteLoop(|response|, calls)
    ensures var total := Accepted(Unbroken(calls));
      && sent == response[..if total <= |response| then total else |response|]
      && end == (if total >= |response| then Done else if WriteBroken in calls then WriteFailed else StillWriting)
    ensures end == Done <==> sent == response
  {
    WriteEnds(|response|, calls);
    end, sent := WriteAll(response, calls);
  }
}
