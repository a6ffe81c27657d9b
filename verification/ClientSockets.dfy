// A socket of a pair: reads from its own descriptor, writes to its peer's, and is latched inactive
// by an error. Reading is as written: the count is kept unsigned, so only the end of the stream is
// taken for an error, and a failed read is returned as the largest word.

module ClientSockets {
  import opened Words

  const BUFFER: nat := 32768

  // What the system answers to a read(): a count, 0 or -1; and to each write().
  datatype ReadAnswer = Data(bytes: seq<byte>) | EndOfStream | Failure
  datatype WriteAnswer = WriteRetry | Wrote(count: nat) | WriteError

  // ---- The answers ----

  predicate IsAnswer(a: ReadAnswer) {
    a.Data? ==> 0 < |a.bytes| <= BUFFER
  }

  function Received(a: ReadAnswer): seq<byte> {
    if a.Data? then a.bytes else []
  }

  // The answer as an unsigned count.
  function Unsigned(a: ReadAnswer): Word
    requires IsAnswer(a)
  {
    match a
    case Data(bytes) => |bytes|
    case EndOfStream => 0
    case Failure => WORD - 1
  }

  // The answers end the write loop. A count beyond the largest signed word is refused.
  predicate WriteEnds(n: nat, answers: seq<WriteAnswer>)
    decreases |answers|
  {
    n == 0 ||
    (answers != [] && (n > SSIZE_MAX ==> answers[0].WriteError?) && match answers[0]
       case WriteRetry => WriteEnds(n, answers[1..])
       case Wrote(count) => 0 < count <= n && WriteEnds(n - count, answers[1..])
       case WriteError => true)
  }

  // How many of n bytes are delivered.
  function Delivered(n: nat, answers: seq<WriteAnswer>): (r: nat)
    requires WriteEnds(n, answers)
    ensures r <= n && (n > SSIZE_MAX ==> r == 0)
    decreases |answers|
  {
    if n == 0 then 0
    else match answers[0]
      case WriteRetry => Delivered(n, answers[1..])
      case Wrote(count) => count + Delivered(n - count, answers[1..])
      case WriteError => 0
  }

  ghost predicate NoError(answers: seq<WriteAnswer>) {
    forall i :: 0 <= i < |answers| ==> !answers[i].WriteError?
  }

  ghost function Taken(answers: seq<WriteAnswer>): nat {
    if answers == [] then 0 else (if answers[0].Wrote? then answers[0].count else 0) + Taken(answers[1..])
  }

  // Writing goes on over partial writes and retries: it ends with the first answer that completes the
  // bytes, all of which are then delivered, or with the first error before that, and then what was
  // taken so far is delivered.
  lemma {:induction false} DeliveredExactly(n: nat, answers: seq<WriteAnswer>) returns (k: nat)
    requires WriteEnds(n, answers)
    ensures k <= |answers| && NoError(answers[..k]) && Delivered(n, answers) == Taken(answers[..k])
    ensures Taken(answers[..k]) == n || (Taken(answers[..k]) < n && k < |answers| && answers[k].WriteError?)
    decreases |answers|
  {
    if n == 0 || answers[0].WriteError? {
      k := 0;
    } else {
      k := DeliveredExactly(if answers[0].Wrote? then n - answers[0].count else n, answers[1..]);
      assert answers[..k + 1][1..] == answers[1..][..k];
      k := k + 1;
    }
  }

  // ---- One direction ----

  // Whether it may still be used, and its history: whether a read of it failed, what came in, what
  // went out, and how much of that its writes reported.
  datatype Flow = Flow(active: bool, failed: bool, input: seq<byte>, output: seq<byte>, reported: nat)

  function Fresh(): Flow { Flow(true, false, [], [], 0) }

  predicate IsPass(answer: ReadAnswer, outs: seq<WriteAnswer>) {
    IsAnswer(answer) && WriteEnds(Unsigned(answer), outs)
  }

  // One event on an active direction: the new flow, the count read and the count reported written.
  function Pass(f: Flow, answer: ReadAnswer, outs: seq<WriteAnswer>): (Flow, Word, Word)
    requires IsPass(answer, outs)
  {
    var n, data := Unsigned(answer), Received(answer);
    var sent := Delivered(n, outs);
    var total := if sent == n then n else 0;
    (Flow(answer.Data? && sent == n, f.failed || answer.Failure?, f.input + data, f.output + data[..sent],
          f.reported + total), n, total)
  }

  // A direction delivers a prefix of what it took in: all of it while it is active, and otherwise
  // all but a part of one buffer. What its writes report is delivered.
  ghost predicate Faithful(f: Flow) {
    && f.output <= f.input
    && (f.active ==> f.output == f.input && f.reported == |f.output| && !f.failed)
    && |f.input| <= |f.output| + 32768
    && f.reported <= |f.output| <= f.reported + 32768
  }

  // A direction takes in what its read gives and puts out what its writes take of that. It stays
  // active exactly when the read gives data and all of it is delivered, and only then reports it. So a
  // read that fails ends it, also when the failure is one that the code means to retry.
  lemma PassFaithful(f: Flow, answer: ReadAnswer, outs: seq<WriteAnswer>)
    requires f.active && Faithful(f) && IsPass(answer, outs)
    ensures var (g, numRead, numWritten) := Pass(f, answer, outs);
      && Faithful(g)
      && (g.active <==> answer.Data? && Delivered(|answer.bytes|, outs) == |answer.bytes|)
      && (g.failed <==> answer.Failure?)
      && g.input == f.input + (if answer.Data? then answer.bytes else [])
      && g.output == f.output + (if answer.Data? then answer.bytes[..Delivered(|answer.bytes|, outs)] else [])
      && numWritten == (if g.active then |answer.bytes| else 0)
      && |f.input| + numRead == |g.input| + (if g.failed then WORD - 1 else 0)
      && g.reported == f.reported + numWritten
  {}

  // ---- The byte counters of a session ----

  datatype Counts = Counts(rx: Word, tx: Word)

  // ---- The socket ----

  class ClientSocket {
    const isClientToProxy: bool
    var isActive: bool
    var failed: bool
    var input: seq<byte>
    var output: seq<byte>
    var reported: nat

    function View(): Flow
      reads this
    {
      Flow(isActive, failed, input, output, reported)
    }

    constructor (clientToProxy: bool, flow: Flow)
      ensures View() == flow && isClientToProxy == clientToProxy
    {
      isClientToProxy, isActive, failed := clientToProxy, flow.active, flow.failed;
      input, output, reported := flow.input, flow.output, flow.reported;
    }

    method OnError()
      modifies this`isActive
      ensures !isActive
    {
      if isActive {
        isActive := false;
      }
    }

    // The error flag that the end of the stream sets is cleared again before the return, so only the
    // next read of an inactive socket reports it. The test for a failure that can be retried stands
    // where the count is 0 and is never true, so the loop around the read runs once.
    method Read(buf: array<byte>, answer: ReadAnswer) returns (numRead: Word, isError: bool)
      requires buf.Length == BUFFER && IsAnswer(answer)
      modifies this`isActive, this`input, this`failed, buf
      ensures isError <==> !old(isActive)
      ensures !old(isActive) ==> numRead == 0 && View() == old(View())
      ensures old(isActive) ==>
        && numRead == Unsigned(answer) && (answer.Data? ==> buf[..numRead] == answer.bytes)
        && input == old(input) + Received(answer)
        && (failed <==> old(failed) || answer.Failure?)
        && (isActive <==> !answer.EndOfStream?)
    {
      if !isActive {
        return 0, true;
      }
      isError := false;
      numRead := Unsigned(answer);
      if answer.Data? {
        forall k | 0 <= k < numRead { buf[k] := answer.bytes[k]; }
      }
      input, failed := input + Received(answer), failed || answer.Failure?;
      if numRead <= 0 {
        isError := true;
        OnError();
      }
      isError := false;
    }

    // Partial writes go on from where they stopped; a failure reports nothing written, whatever was
    // delivered before it.
    method Write(buf: array<byte>, bytesToWrite: Word, answers: seq<WriteAnswer>) returns (total: Word, isError: bool)
      requires bytesToWrite <= buf.Length || bytesToWrite > SSIZE_MAX
      requires WriteEnds(bytesToWrite, answers)
      modifies this`isActive, this`output, this`reported
      ensures !old(isActive) ==> total == 0 && isError && View() == old(View())
      ensures old(isActive) ==>
        var n := Delivered(bytesToWrite, answers);
        && n <= buf.Length && output == old(output) + buf[..n]
        && (isActive <==> n == bytesToWrite)
        && total == (if n == bytesToWrite then n else 0) && reported == old(reported) + total
        && (isError <==> n != bytesToWrite)
    {
      if !isActive {
        return 0, true;
      }
      total := 0;
      var left, i := bytesToWrite, 0;
      while left > 0
        invariant isActive && total + left == bytesToWrite && i <= |answers| && reported == old(reported)
        invariant bytesToWrite > SSIZE_MAX ==> total == 0 && i == 0
        invariant WriteEnds(left, answers[i..])
        invariant total + Delivered(left, answers[i..]) == Delivered(bytesToWrite, answers)
        invariant total <= buf.Length && output == old(output) + buf[..total]
        decreases |answers| - i
      {
        var answer := answers[i];
        assert answers[i..][0] == answer && answers[i..][1..] == answers[i + 1..];
        match answer {
          case WriteRetry =>
          case Wrote(count) =>
            output := output + buf[total..total + count];
            assert buf[..total + count] == buf[..total] + buf[total..total + count];
            left, total := left - count, total + count;
          case WriteError =>
            OnError();
            return 0, true;
        }
        i := i + 1;
      }
      reported := reported + total;
      isError := false;
    }
  }
}
