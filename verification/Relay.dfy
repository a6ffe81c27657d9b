// Relaying bytes between the two sockets of a session, against every pattern of partial, retried
// and failed reads and writes: what is delivered, and what the byte counters say.

module Relay {
  import opened Words
  import opened ClientSockets

  // The byte counters of the session.
  class Counters {
    var rx: Word
    var tx: Word

    constructor (rx: Word, tx: Word)
      ensures this.rx == rx && this.tx == tx
    {
      this.rx, this.tx := rx, tx;
    }
  }

  // HandleClientSocketRead: an inactive socket takes the session down, any other relays once. The
  // server's side counts what its read returned, the client's side what its write reported.
  method HandleClientSocketRead(client: ClientSocket, counters: Counters, buf: array<byte>,
                                answer: ReadAnswer, outs: seq<WriteAnswer>)
    returns (teardown: bool)
    requires buf.Length == BUFFER && IsPass(answer, outs)
    modifies client, counters, buf
    ensures teardown <==> !old(client.isActive)
    ensures teardown ==>
      client.View() == old(client.View()) && counters.rx == old(counters.rx) && counters.tx == old(counters.tx)
    ensures !teardown ==>
      var (flow, numRead, numWritten) := Pass(old(client.View()), answer, outs);
      && client.View() == flow
      && counters.rx == (if client.isClientToProxy then Add(old(counters.rx), numWritten) else old(counters.rx))
      && counters.tx == (if client.isClientToProxy then old(counters.tx) else Add(old(counters.tx), numRead))
  {
    var numRead, error := client.Read(buf, answer);
    if error {
      return true;
    }
    var numWritten: Word;
    numWritten, error := client.Write(buf, numRead, outs);
    SentOf(buf[..], answer, outs);
    if client.isClientToProxy {
      counters.rx := Add(counters.rx, numWritten);
    } else {
      counters.tx := Add(counters.tx, numRead);
    }
    return false;
  }

  // What is written from the buffer is what was read into it.
  lemma SentOf(buf: seq<byte>, answer: ReadAnswer, outs: seq<WriteAnswer>)
    requires IsPass(answer, outs) && |buf| == BUFFER
    requires answer.Data? ==> buf[..|answer.bytes|] == answer.bytes
    ensures var n := Delivered(Unsigned(answer), outs);
      n <= |buf| && n <= |Received(answer)| && buf[..n] == Received(answer)[..n]
  {
    var n := Delivered(Unsigned(answer), outs);
    if answer.Data? {
      assert buf[..|answer.bytes|][..n] == buf[..n];
    }
  }

  // ---- A session over any run of events on its two sockets ----

  datatype Event = Event(fromClient: bool, answer: ReadAnswer, outs: seq<WriteAnswer>)

  // up carries the client's bytes to the server, down the server's bytes to the client.
  datatype Session = Session(open: bool, up: Flow, down: Flow, rx: Word, tx: Word)

  predicate IsEvent(e: Event) {
    IsPass(e.answer, e.outs)
  }

  // The counters start with what the memory holds.
  function Start(memory: Counts): Session { Session(true, Fresh(), Fresh(), memory.rx, memory.tx) }

  function Handle(s: Session, e: Event): Session
    requires IsEvent(e)
  {
    if !s.open then s
    else
      var f := if e.fromClient then s.up else s.down;
      if !f.active then s.(open := false)
      else
        var (g, numRead, numWritten) := Pass(f, e.answer, e.outs);
        if e.fromClient then s.(up := g, rx := Add(s.rx, numWritten)) else s.(down := g, tx := Add(s.tx, numRead))
  }

  function After(memory: Counts, events: seq<Event>): Session
    requires forall i :: 0 <= i < |events| ==> IsEvent(events[i])
  {
    if events == [] then Start(memory) else Handle(After(memory, events[..|events| - 1]), events[|events| - 1])
  }

  // What the counters say about the two directions, beyond what they started with: Rx is what the
  // writes to the server reported, which never exceeds what reached it and misses at most a part of
  // one buffer; Tx is what the server sent, and one less when a read of the server's socket failed.
  ghost predicate Accounted(memory: Counts, up: Flow, down: Flow, rx: Word, tx: Word) {
    && Faithful(up) && Faithful(down)
    && rx == Add(memory.rx, up.reported)
    && tx == Add(memory.tx, Sent(down))
  }

  function Sent(down: Flow): nat {
    |down.input| + if down.failed then WORD - 1 else 0
  }

  lemma Unstarted(memory: Counts)
    ensures Accounted(memory, Fresh(), Fresh(), memory.rx, memory.tx)
  {}

  // One event on one of the two directions keeps the account.
  lemma AccountKept(memory: Counts, up: Flow, down: Flow, rx: Word, tx: Word, answer: ReadAnswer,
                    outs: seq<WriteAnswer>)
    requires Accounted(memory, up, down, rx, tx) && IsPass(answer, outs)
    ensures up.active ==>
      var (g, _, numWritten) := Pass(up, answer, outs); Accounted(memory, g, down, Add(rx, numWritten), tx)
    ensures down.active ==>
      var (g, numRead, _) := Pass(down, answer, outs); Accounted(memory, up, g, rx, Add(tx, numRead))
  {
    hide Pass, Faithful, Add, IsPass;
    if up.active {
      PassFaithful(up, answer, outs);
      AddMore(memory.rx, up.reported, Pass(up, answer, outs).2);
    }
    if down.active {
      PassFaithful(down, answer, outs);
      ActiveWhole(down);
      AddMore(memory.tx, |down.input|, Pass(down, answer, outs).1);
    }
  }

  lemma ActiveWhole(f: Flow)
    requires Faithful(f) && f.active
    ensures !f.failed && f.output == f.input && f.reported == |f.output|
  {}

  // For every run of events and every pattern of answers both directions are faithful and the
  // counters account for them.
  lemma {:induction false} RelayFaithful(memory: Counts, events: seq<Event>)
    requires forall i :: 0 <= i < |events| ==> IsEvent(events[i])
    ensures var s := After(memory, events);
      Accounted(memory, s.up, s.down, s.rx, s.tx) && (s.open || !s.up.active || !s.down.active)
  {
    hide Pass, IsPass, Accounted;
    if events == [] {
      Unstarted(memory);
    } else {
      var e, s := events[|events| - 1], After(memory, events[..|events| - 1]);
      RelayFaithful(memory, events[..|events| - 1]);
      AccountKept(memory, s.up, s.down, s.rx, s.tx, e.answer, e.outs);
    }
  }

  // Event i reads -1 from the still active socket of the server, in a session that is still open.
  ghost predicate FailedRead(memory: Counts, events: seq<Event>, i: nat)
    requires i < |events| && forall k :: 0 <= k < |events| ==> IsEvent(events[k])
  {
    var s := After(memory, events[..i]);
    s.open && s.down.active && !events[i].fromClient && events[i].answer.Failure?
  }

  lemma FailedNow(s: Session, e: Event)
    requires IsEvent(e)
    ensures Handle(s, e).down.failed <==>
      s.down.failed || (s.open && s.down.active && !e.fromClient && e.answer.Failure?)
  {
    hide IsPass;
  }

  lemma {:induction false} FailedExactly(memory: Counts, events: seq<Event>)
    requires forall i :: 0 <= i < |events| ==> IsEvent(events[i])
    ensures After(memory, events).down.failed <==> exists i :: 0 <= i < |events| && FailedRead(memory, events, i)
  {
    hide Handle, IsEvent;
    if events == [] {
      hide FailedRead;
    } else {
      var front, last := events[..|events| - 1], |events| - 1;
      FailedExactly(memory, front);
      FailedNow(After(memory, front), events[last]);
      forall i | 0 <= i < last ensures FailedRead(memory, events, i) <==> FailedRead(memory, front, i) {
        assert front[..i] == events[..i];
      }
      assert events[..last] == front;
      assert FailedRead(memory, events, last) <==>
        var s, e := After(memory, front), events[last];
        s.open && s.down.active && !e.fromClient && e.answer.Failure?;
      hide FailedRead, After;
    }
  }

  // For every run: Tx is what the server sent, modulo its width, exactly when it started at 0 and no
  // event read -1 from the active socket of the server in the open session, or it started at 1 and
  // one did. From 0 it is otherwise one less.
  lemma TxExactly(memory: Counts, events: seq<Event>)
    requires forall i :: 0 <= i < |events| ==> IsEvent(events[i])
    ensures var s := After(memory, events);
      var failed := exists i :: 0 <= i < |events| && FailedRead(memory, events, i);
      && (s.tx == |s.down.input| % WORD <==> memory.tx == if failed then 1 else 0)
      && (memory.tx == 0 ==> Add(s.tx, if failed then 1 else 0) == |s.down.input| % WORD)
  {
    RelayFaithful(memory, events);
    FailedExactly(memory, events);
    hide After, FailedRead, IsEvent, Sent, Add, Faithful;
    TxFrom(memory.tx, After(memory, events).down);
  }

  lemma TxFrom(start: Word, down: Flow)
    ensures Add(start, Sent(down)) == |down.input| % WORD <==> start == if down.failed then 1 else 0
    ensures Add(Add(0, Sent(down)), if down.failed then 1 else 0) == |down.input| % WORD
  {
    var n, more := |down.input|, if down.failed then WORD - 1 else 0;
    AddAdd(start, more, n);
    Unchanged(Add(start, more), n);
    OneLess(n);
    AddAdd(0, n + more, if down.failed then 1 else 0);
  }

  // A sum is one of its terms exactly when the other is a multiple of the modulus.
  lemma Unchanged(a: Word, n: nat)
    ensures Add(a, n) == n % WORD <==> a == 0
  {
    AddAdd(0, n, a);
  }

  // A server that sends nothing is counted for what the memory held and, when its first read fails
  // and the memory was clear, for 2^64 - 1 bytes.
  lemma TxWraps()
    ensures After(Counts(0, 7), []).down.input == [] && After(Counts(0, 7), []).tx == 7
    ensures var memory, e := Counts(0, 0), Event(false, Failure, [WriteError]);
      && IsEvent(e) && FailedRead(memory, [e], 0)
      && After(memory, [e]).down.input == [] && After(memory, [e]).tx == WORD - 1
  {
    var memory, e := Counts(0, 0), Event(false, Failure, [WriteError]);
    assert [e][..0] == [];
    assert After(memory, []) == Start(memory);
    assert After(memory, [e]) == Handle(Start(memory), e);
  }

  // ---- Inactive directions ----

  ghost predicate Frozen(f: Flow, g: Flow) {
    !f.active ==> g == f
  }

  // A direction that went inactive never relays again, a closed session never changes, and a session
  // is closed by exactly the first event on an inactive direction.
  lemma {:induction false} InactiveStays(memory: Counts, events: seq<Event>, n: nat)
    requires forall i :: 0 <= i < |events| ==> IsEvent(events[i])
    requires n <= |events|
    ensures var s, t := After(memory, events[..n]), After(memory, events);
      && Frozen(s.up, t.up) && Frozen(s.down, t.down)
      && (!s.open ==> t == s)
      && (s.open ==> (t.open <==> forall i :: n <= i < |events| ==> StaysOpen(memory, events, i)))
    decreases |events|
  {
    hide Pass, IsEvent;
    if n == |events| {
      assert events[..n] == events;
    } else {
      var front := events[..|events| - 1];
      InactiveStays(memory, front, n);
      assert front[..n] == events[..n];
      forall i | n <= i < |front| ensures StaysOpen(memory, front, i) <==> StaysOpen(memory, events, i) {
        assert front[..i] == events[..i];
      }
      assert events[..|front|] == front;
      LastEvent(memory, events);
      hide StaysOpen;
    }
  }

  lemma LastEvent(memory: Counts, events: seq<Event>)
    requires events != [] && forall i :: 0 <= i < |events| ==> IsEvent(events[i])
    ensures After(memory, events).open <==>
      After(memory, events[..|events| - 1]).open && StaysOpen(memory, events, |events| - 1)
  {
    hide Pass, IsEvent;
  }

  // Event i does not find its direction inactive.
  ghost predicate StaysOpen(memory: Counts, events: seq<Event>, i: nat)
    requires i < |events| && forall k :: 0 <= k < |events| ==> IsEvent(events[k])
  {
    var s := After(memory, events[..i]);
    if events[i].fromClient then s.up.active else s.down.active
  }
}
