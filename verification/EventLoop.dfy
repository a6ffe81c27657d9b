// One turn of the event loop: wait, then prune and write the ledger out on a timeout, or hand one
// ready descriptor to the handler of its socket.

module EventLoop {
  import opened CStrings
  import opened TimeMap
  import opened Words
  import opened ClientSockets
  import opened Lifecycle
  import opened LifecycleInvariant
  import opened LifecycleTheorems
  import opened Pruning
  import opened Audit
  import opened SocketManager
  import Ledger
  import UserAuth

  // A ready descriptor, and what the system answers its handler: the accepted connection and the
  // memory its session gets, the answers to a read and to the writes that follow it, the time, and
  // how long a session that the handler ends was connected.
  datatype Ready = Ready(fd: int, accepted: int, ip: string, memory: Counts, answer: ReadAnswer,
                         outs: seq<WriteAnswer>, clock: Option<LocalTime>, elapsed: Word)

  // On a timeout: how long the sessions that are pruned were connected, and whether it is time to log.
  datatype Waited = Interrupted | Broken | TimedOut(times: seq<Word>, log: bool) | Event(ready: Ready)

  // Everything the answers must satisfy: a new descriptor is not open yet, the pipe is only ready
  // when a message is in it, whose credentials fit their fields, and reads, writes and clock readings
  // are well formed.
  ghost predicate Answered(cfg: Config, s: State, e: Ready) {
    var i := FindSocket(s.sockets, e.fd);
    && (i < |s.sockets| && s.sockets[i].Server? && e.accepted >= 0 ==> e.accepted !in s.open)
    && (i < |s.sockets| && s.sockets[i].Command? ==> s.pipe != [] && Fitting(cfg, s, s.pipe[0]))
    && (i < |s.sockets| && s.sockets[i].Client? ==> IsPass(e.answer, e.outs))
    && (e.clock.Some? ==> e.clock.value.Valid())
  }

  // The steps that one ready descriptor stands for; a descriptor of no socket is passed over.
  ghost function Dispatched(cfg: Config, s: State, e: Ready): State
    requires Answered(cfg, s, e) && s.main.Waiting?
  {
    var i := FindSocket(s.sockets, e.fd);
    if i == |s.sockets| then s
    else match s.sockets[i]
      case Server(_) => if e.accepted >= 0 then Settle(cfg, Step(cfg, s, Accept(e.accepted, e.ip, e.memory))) else s
      case Command(_) => Settle(cfg, Commanded(cfg, s, e.clock))
      case Client(_, _, _, _, _) => Settle(cfg, Step(cfg, s, Relay(e.fd, e.answer, e.outs)))
  }

  // And what they do to the ledger.
  ghost function DispatchedLedger(cfg: Config, s: State, l: Ledger.Ledger, e: Ready): Ledger.Ledger
    requires Answered(cfg, s, e) && s.main.Waiting?
  {
    var i := FindSocket(s.sockets, e.fd);
    if i == |s.sockets| then l
    else match s.sockets[i]
      case Server(_) => l
      case Command(_) => HandOff(cfg, l, Commanded(cfg, s, e.clock), e.elapsed)
      case Client(_, _, _, _, _) => HandOff(cfg, l, Step(cfg, s, Relay(e.fd, e.answer, e.outs)), e.elapsed)
  }

  // What a timeout does to the ledger: the hand-offs of pruning, then the write-out.
  ghost function TimedOutLedger(cfg: Config, s: State, l: Ledger.Ledger, times: seq<Word>, log: bool): Ledger.Ledger {
    var m := PruneLedger(cfg, l, s, times);
    if log then Ledger.Do(m, Ledger.Reset) else m
  }

  // ---- What a turn does, case by case ----

  // A ready server socket makes one session, of the accepted descriptor and address, and queues its
  // detection; a failed accept changes nothing.
  lemma DispatchedAccept(cfg: Config, s: State, e: Ready)
    requires Inv(s) && s.main.Waiting? && Answered(cfg, s, e)
    requires var i := FindSocket(s.sockets, e.fd); i < |s.sockets| && s.sockets[i].Server?
    ensures Dispatched(cfg, s, e) == if e.accepted < 0 then s else
      s.(sessions := s.sessions + [Session(s.nextId, e.accepted, e.ip, "", "", "", e.memory.rx, e.memory.tx)],
         nextId := s.nextId + 1, open := s.open + {e.accepted}, queue := s.queue + [Detect(s.nextId)],
         pushed := s.pushed + [Detect(s.nextId)], sem := s.sem + 1)
  {
    if e.accepted >= 0 {
      AcceptFinds(s, e.accepted, e.ip, e.memory);
    }
    hide Inv, Find, FindByFd;
  }

  // A ready pipe has its front message handled at this reading of the clock.
  lemma DispatchedMessage(cfg: Config, s: State, e: Ready)
    requires s.main.Waiting? && Answered(cfg, s, e)
    requires var i := FindSocket(s.sockets, e.fd); i < |s.sockets| && s.sockets[i].Command?
    ensures Dispatched(cfg, s, e) ==
      Settle(cfg, DoHandle(cfg, s.(pipe := s.pipe[1..], main := Handling(s.pipe[0])), e.clock))
  {
    hide DoHandle, Settle, Fitting;
  }

  // A ready client socket passes on what the system gives it, and counts; an inactive one goes with
  // its peer and its session.
  lemma DispatchedRelay(cfg: Config, s: State, e: Ready)
    requires Inv(s) && s.main.Waiting? && Answered(cfg, s, e)
    requires var i := FindSocket(s.sockets, e.fd); i < |s.sockets| && s.sockets[i].Client?
    ensures var i, t := FindSocket(s.sockets, e.fd), Dispatched(cfg, s, e);
      var k := s.sockets[i];
      && i / 2 * 2 + 2 <= |s.sockets|
      && (k.flow.active ==> t.sockets == s.sockets[i := k.(flow := Pass(k.flow, e.answer, e.outs).0)])
      && (!k.flow.active ==>
            && t.sockets == s.sockets[..i / 2 * 2] + s.sockets[i / 2 * 2 + 2..]
            && t.sessions == Without(s.sessions, k.sid) && t.open == s.open - {k.fd, k.peer})
      && t.main == Waiting
  {
    var i := FindSocket(s.sockets, e.fd);
    FirstTwoFixed(s, i);
    SocketSessionIsLive(s, e.fd);
    TearDownShape(s, i);
    hide Inv, TearDown, Unregister, RemoveAt, Pass, IsPass, Find, Without, Fitting;
  }

  // ---- A turn is a run ----

  lemma DispatchedReached(cfg: Config, s: State, l: Ledger.Ledger, e: Ready)
    requires s.main.Waiting? && Answered(cfg, s, e)
    ensures ReachedWith(cfg, s, l, Dispatched(cfg, s, e), DispatchedLedger(cfg, s, l, e))
  {
    hide ReachedWith, Settle, Fitting, HandOff, HandedOff, DoAccept, DoHandle, DoRelay;
    ReachedWithSelf(cfg, s, l);
    var i := FindSocket(s.sockets, e.fd);
    if i < |s.sockets| {
      match s.sockets[i] {
        case Server(_) =>
          if e.accepted >= 0 {
            SettledWith(cfg, s, l, Accept(e.accepted, e.ip, e.memory), e.elapsed);
            AcceptPosts(s, e.accepted, e.ip, e.memory);
            HandOffWaiting(cfg, l, DoAccept(s, e.accepted, e.ip, e.memory), e.elapsed);
          }
        case Command(_) =>
          var t, u := Step(cfg, s, ReadMessage), Commanded(cfg, s, e.clock);
          ReachedWithStep(cfg, s, l, s, l, ReadMessage);
          SettledWith(cfg, t, l, Handle(e.clock), e.elapsed);
          ReachedWithThrough(cfg, s, l, t, l, Settle(cfg, u), HandOff(cfg, l, u, e.elapsed));
        case Client(_, _, _, _, _) => SettledWith(cfg, s, l, Relay(e.fd, e.answer, e.outs), e.elapsed);
      }
    }
  }

  lemma AcceptPosts(s: State, fd: int, ip: string, memory: Counts)
    ensures DoAccept(s, fd, ip, memory).main.Posting?
  {}

  // A timeout writes one period out and clears the memory exactly when it is time to log.
  lemma TimedOutLogs(cfg: Config, s: State, l: Ledger.Ledger, times: seq<Word>, log: bool)
    ensures var m := TimedOutLedger(cfg, s, l, times, log);
      |m.logged| == |l.logged| + (if log then 1 else 0) && (log ==> m.stats == [])
  {
    PruningLogsNothing(cfg, l, s, times);
    hide PruneLedger;
  }

  lemma {:induction false} PruningLogsNothing(cfg: Config, l: Ledger.Ledger, s: State, times: seq<Word>)
    ensures PruneLedger(cfg, l, s, times).logged == l.logged
    decreases |times|
  {
    hide Step, Enabled, PruneRound;
    if times != [] {
      var m := if Enabled(s, Prune) then HandOff(cfg, l, Step(cfg, s, Prune), times[0]) else l;
      PruningLogsNothing(cfg, m, PruneRound(cfg, s), times[1..]);
    }
  }

  lemma TimedOutReached(cfg: Config, s: State, l: Ledger.Ledger, times: seq<Word>, log: bool)
    ensures ReachedWith(cfg, s, l, PruneRounds(cfg, s, |times|), TimedOutLedger(cfg, s, l, times, log))
  {
    hide ReachedWith, PruneRounds, PruneLedger, Ledger.Do;
    PruneReached(cfg, s, l, times);
    if log {
      ReachedWithTick(cfg, s, l, PruneRounds(cfg, s, |times|), PruneLedger(cfg, l, s, times), LogAndReset);
    }
  }

  // The search for the socket of a descriptor, and its handler.
  method Dispatch(m: SocketManager, e: Ready, ghost ws: seq<Worker>) returns (ok: bool)
    requires Inv(m.View(ws)) && Answered(m.Cfg(), m.View(ws), e)
    modifies m, m.sessions, m.pool, m.messenger, m.kernel, m.stats
    ensures m.View(ws) == Dispatched(m.Cfg(), old(m.View(ws)), e)
    ensures m.stats.View() == DispatchedLedger(m.Cfg(), old(m.View(ws)), old(m.stats.View()), e)
    ensures var i := FindSocket(old(m.sockets), e.fd);
      ok <==> !(i < |old(m.sockets)| && old(m.sockets)[i].Server? && e.accepted < 0)
  {
    hide Inv, Step, Settle, UserAuth.Fits, HandOff, Commanded;
    ok := true;
    var i := 0;
    while i < |m.sockets| && m.sockets[i].fd != e.fd
      invariant i <= FindSocket(m.sockets, e.fd)
    {
      i := i + 1;
    }
    if i == |m.sockets| {
      return;
    }
    match m.sockets[i] {
      case Server(_) => ok := m.HandleServerSocketRead(e.accepted, e.ip, e.memory, ws);
      case Command(_) => m.HandleCommandSocketRead(e.clock, e.elapsed, ws);
      case Client(_, _, _, _, _) => m.HandleClientSocketRead(e.fd, e.answer, e.outs, e.elapsed, ws);
    }
  }

  // The loop ends when waiting or accepting fails; every turn is a run of the step system, and so
  // keeps its invariant, whatever the pool threads did before it.
  method ProcessSockets(m: SocketManager, waited: Waited, ghost ws: seq<Worker>) returns (ok: bool)
    requires Inv(m.View(ws)) && (waited.Event? ==> Answered(m.Cfg(), m.View(ws), waited.ready))
    requires waited.TimedOut? ==> |waited.times| == Excess(m.sockets)
    modifies m, m.sessions, m.pool, m.messenger, m.kernel, m.stats
    ensures Inv(m.View(ws))
    ensures ReachedWith(m.Cfg(), old(m.View(ws)), old(m.stats.View()), m.View(ws), m.stats.View())
    ensures m.View(ws) == match waited
      case Event(e) => Dispatched(m.Cfg(), old(m.View(ws)), e)
      case TimedOut(times, _) => PruneRounds(m.Cfg(), old(m.View(ws)), |times|)
      case _ => old(m.View(ws))
    ensures m.stats.View() == match waited
      case Event(e) => DispatchedLedger(m.Cfg(), old(m.View(ws)), old(m.stats.View()), e)
      case TimedOut(times, log) => TimedOutLedger(m.Cfg(), old(m.View(ws)), old(m.stats.View()), times, log)
      case _ => old(m.stats.View())
    ensures waited.TimedOut? ==> ok && |m.sockets| <= 200
    ensures waited.Interrupted? ==> ok
    ensures waited.Broken? ==> !ok
    ensures waited.Event? ==>
      var i := FindSocket(old(m.sockets), waited.ready.fd);
      ok <==> !(i < |old(m.sockets)| && old(m.sockets)[i].Server? && waited.ready.accepted < 0)
  {
    hide Inv, Dispatched, DispatchedLedger, Answered, PruneRounds, PruneLedger, ReachedFrom, ReachedWith, FindSocket;
    hide Ledger.Do;
    ghost var cfg, s, l := m.Cfg(), m.View(ws), m.stats.View();
    ReachedWithSelf(cfg, s, l);
    match waited {
      case Interrupted => ok := true;
      case Broken => ok := false;
      case TimedOut(times, log) =>
        TimedOutReached(cfg, s, l, times, log);
        m.PruneExcessConnections(times, ws);
        if log {
          m.stats.LogAndReset();
        }
        ok := true;
      case Event(e) =>
        DispatchedReached(cfg, s, l, e);
        ReachedWithRun(cfg, s, l, Dispatched(cfg, s, e), DispatchedLedger(cfg, s, l, e));
        ReachedKeeps(cfg, s, Dispatched(cfg, s, e));
        ok := Dispatch(m, e, ws);
    }
  }
}
