// The objects behind the step system: the session list, the work queue, the result pipe, the open
// descriptors and the dispatch thread's socket list. Each handler, run without interruption, is
// proved to be the corresponding steps of Lifecycle.

module SocketManager {
  import opened CStrings
  import opened TimeMap
  import opened Words
  import opened ClientSockets
  import opened Lifecycle
  import opened LifecycleInvariant
  import opened Pruning
  import opened Counting
  import opened Audit
  import opened Mediation
  import Ledger
  import UserAuth
  import Policy
  import Relay

  // The front message of the pipe is read and handled.
  ghost function Commanded(cfg: Config, s: State, clock: Option<LocalTime>): State
    requires s.main.Waiting? && s.pipe != []
  {
    Step(cfg, Step(cfg, s, ReadMessage), Handle(clock))
  }

  class SessionManager {
    var sessions: seq<Session>
    var nextId: int

    constructor ()
      ensures sessions == [] && nextId == 0
    {
      sessions, nextId := [], 0;
    }

    // Appends, then looks the session up by its descriptor; a pointer is an index into the list.
    method CreateSession(clientFd: int, memory: Counts) returns (i: nat)
      modifies this
      ensures sessions == old(sessions) + [NewSession(old(nextId), clientFd, "", memory)]
      ensures nextId == old(nextId) + 1
      ensures i == FindByFd(sessions, clientFd) < |sessions|
    {
      sessions := sessions + [NewSession(nextId, clientFd, "", memory)];
      nextId := nextId + 1;
      assert sessions[|sessions| - 1].clientFd == clientFd;
      i := GetSessionForClient(clientFd);
    }

    method GetSessionForClient(clientFd: int) returns (i: nat)
      ensures i == FindByFd(sessions, clientFd)
    {
      i := 0;
      while i < |sessions|
        invariant i <= FindByFd(sessions, clientFd)
      {
        if sessions[i].clientFd == clientFd {
          return;
        }
        i := i + 1;
      }
    }

    // |sessions| stands for the null pointer.
    method GetSession(id: int) returns (i: nat)
      ensures i == Find(sessions, id)
    {
      i := 0;
      while i < |sessions|
        invariant i <= Find(sessions, id)
      {
        if sessions[i].id == id {
          return;
        }
        i := i + 1;
      }
    }

    // Hands the session to the ledger, with the time it was connected, and erases it.
    method EndSession(id: int, stats: Ledger.GlobalStats, auth: UserAuth.AuthManager, elapsed: Word)
      modifies this`sessions, stats
      ensures sessions == Without(old(sessions), id)
      ensures stats.View() == HandedOff(old(stats.View()), auth.enabled, auth.users, old(sessions), id, elapsed)
    {
      hide Ledger.Do;
      for i := 0 to |sessions|
        invariant sessions == old(sessions) && stats.View() == old(stats.View())
        invariant i <= Find(sessions, id)
      {
        if sessions[i].id == id {
          var x := sessions[i];
          stats.EndSession(auth, x.user, x.host, Ledger.Totals(x.rx, x.tx, elapsed, 1));
          sessions := sessions[..i] + sessions[i + 1..];
          return;
        }
      }
    }
  }

  class ThreadPool {
    var work: seq<Work>
    var sem: nat
    ghost var pushed: seq<Work>
    ghost var popped: seq<Work>

    constructor ()
      ensures work == [] && sem == 0 && pushed == [] && popped == []
    {
      work, sem, pushed, popped := [], 0, [], [];
    }

    method Dispatch(package: Work)
      modifies this
      ensures work == old(work) + [package] && sem == old(sem) + 1
      ensures pushed == old(pushed) + [package] && popped == old(popped)
    {
      work, pushed := work + [package], pushed + [package];
      sem := sem + 1;
    }

    // One turn of a worker: past the semaphore, then the front of the list.
    method Take() returns (package: Work)
      requires sem > 0 && work != []
      modifies this
      ensures package == old(work)[0] && work == old(work)[1..] && sem == old(sem) - 1
      ensures popped == old(popped) + [package] && pushed == old(pushed)
    {
      sem := sem - 1;
      package := work[0];
      work, popped := work[1..], popped + [package];
    }
  }

  class AsyncMessenger {
    var pipe: seq<Message>

    constructor ()
      ensures pipe == []
    {
      pipe := [];
    }

    method WriteMessage(m: Message)
      modifies this
      ensures pipe == old(pipe) + [m]
    {
      pipe := pipe + [m];
    }

    method ReadMessage() returns (m: Message)
      requires pipe != []
      modifies this
      ensures m == old(pipe)[0] && pipe == old(pipe)[1..]
    {
      m := pipe[0];
      pipe := pipe[1..];
    }
  }

  // The descriptors the operating system holds open for the process.
  class Kernel {
    ghost var open: set<int>

    constructor (ghost fds: set<int>)
      ensures open == fds
    {
      open := fds;
    }

    ghost method Opened(fd: int)
      modifies this
      ensures open == old(open) + {fd}
    {
      open := open + {fd};
    }

    ghost method Close(fd: int)
      modifies this
      ensures open == old(open) - {fd}
    {
      open := open - {fd};
    }
  }

  class SocketManager {
    var sockets: seq<Socket>
    const sessions: SessionManager
    const pool: ThreadPool
    const messenger: AsyncMessenger
    const kernel: Kernel
    const stats: Ledger.GlobalStats
    const auth: UserAuth.AuthManager
    const policies: Policy.UserPolicyList
    const blacklists: Policy.BlacklistList

    constructor (server: int, command: int, auth: UserAuth.AuthManager, policies: Policy.UserPolicyList,
                 blacklists: Policy.BlacklistList)
      requires server != command
      ensures forall ws {:trigger View(ws)} :: (forall w :: 0 <= w < |ws| ==> ws[w] == Idle) ==> Init(View(ws))
      ensures fresh(sessions) && fresh(pool) && fresh(messenger) && fresh(kernel)
      ensures fresh(stats) && stats.View() == Ledger.EMPTY
      ensures this.auth == auth && this.policies == policies && this.blacklists == blacklists
    {
      sockets := [Server(server), Command(command)];
      sessions := new SessionManager();
      pool := new ThreadPool();
      messenger := new AsyncMessenger();
      kernel := new Kernel({server, command});
      stats := new Ledger.GlobalStats();
      this.auth, this.policies, this.blacklists := auth, policies, blacklists;
    }

    ghost function Cfg(): Config
      reads auth, policies, blacklists
    {
      Config(auth.enabled, auth.users, policies.policies, blacklists.lists)
    }

    // The state of the step system, given what the workers are doing.
    ghost function View(ws: seq<Worker>): State
      reads this, sessions, pool, messenger, kernel
    {
      State(sessions.sessions, sessions.nextId, pool.work, pool.sem, ws, messenger.pipe, Waiting, sockets,
            kernel.open, pool.pushed, pool.popped)
    }

    // An accept that fails ends the event loop.
    method HandleServerSocketRead(fd: int, ip: string, memory: Counts, ghost ws: seq<Worker>) returns (ok: bool)
      requires fd >= 0 ==> fd !in kernel.open
      modifies sessions, pool, kernel
      ensures ok <==> fd >= 0
      ensures View(ws) ==
        if ok then Settle(Cfg(), Step(Cfg(), old(View(ws)), Accept(fd, ip, memory))) else old(View(ws))
    {
      if fd < 0 {
        return false;
      }
      kernel.Opened(fd);
      var i := sessions.CreateSession(fd, memory);
      sessions.sessions := sessions.sessions[i := sessions.sessions[i].(clientIp := ip)];
      pool.Dispatch(Detect(sessions.sessions[i].id));
      return true;
    }

    // ProxyConnector::ConnectProxy
    method ConnectProxy(sid: int, i: nat)
      requires i == Find(sessions.sessions, sid) < |sessions.sessions|
      modifies pool, messenger
      ensures var x := sessions.sessions[i];
        var allowed := Policy.Allowed(policies.policies, blacklists.lists, x.user, x.host);
        var more := if allowed then [Connect(sid)] else [];
        && messenger.pipe == old(messenger.pipe) + (if allowed then [] else [ConnectResult(sid, -1, false)])
        && pool.work == old(pool.work) + more && pool.sem == old(pool.sem) + |more|
        && pool.pushed == old(pool.pushed) + more && pool.popped == old(pool.popped)
    {
      var allowed := Policy.IsAllowed(policies, blacklists, sessions.sessions[i].user, sessions.sessions[i].host);
      if !allowed {
        messenger.WriteMessage(ConnectResult(sid, -1, false));
        return;
      }
      pool.Dispatch(Connect(sid));
    }

    // s is the state with the message in hand.
    method CloseAndEnd(x: Session, elapsed: Word, ghost s: State, ghost ws: seq<Worker>)
      requires s == View(ws).(main := s.main)
      modifies sessions`sessions, kernel, stats
      ensures var t := CloseClient(s, x);
        View(ws) == Settle(Cfg(), t) && stats.View() == HandOff(Cfg(), old(stats.View()), t, elapsed)
    {
      hide Settle, CloseClient, Without, HandOff, HandedOff;
      SettleClose(Cfg(), s, x);
      HandOffClose(Cfg(), stats.View(), s, x, elapsed);
      kernel.Close(x.clientFd);
      sessions.EndSession(x.id, stats, auth, elapsed);
    }

    method HandleDetectResult(i: nat, ok: bool, clock: Option<LocalTime>, elapsed: Word, ghost ws: seq<Worker>)
      requires i < |sessions.sessions| && i == Find(sessions.sessions, sessions.sessions[i].id)
      requires ok && auth.enabled ==> UserAuth.Fits(sessions.sessions[i].request)
      requires clock.Some? ==> clock.value.Valid()
      modifies sessions`sessions, pool, messenger, kernel, stats
      ensures var s := old(View(ws)).(main := Handling(DetectResult(old(sessions.sessions[i].id), ok)));
        var t := DoDetectResult(Cfg(), s, i, ok, clock);
        View(ws) == Settle(Cfg(), t) && stats.View() == HandOff(Cfg(), old(stats.View()), t, elapsed)
    {
      hide UserAuth.Decide, UserAuth.Fits, Policy.Allowed, Settle, CloseClient, Push, Find, HandOff, DoDetectResult;
      DetectOutcome(Cfg(), View(ws).(main := Handling(DetectResult(sessions.sessions[i].id, ok))), i, ok, clock);
      var x := sessions.sessions[i];
      ghost var s := View(ws).(main := Handling(DetectResult(x.id, ok)));
      if !ok {
        CloseAndEnd(x, elapsed, s, ws);
        return;
      }
      var d := auth.Decision(x.user, x.request, x.clientIp, clock);
      sessions.sessions := sessions.sessions[i := x.(user := d.user)];
      ghost var u := SetUser(s, i, d.user);
      if !d.Admit? {
        CloseAndEnd(x, elapsed, u, ws);
        return;
      }
      SettlePush(Cfg(), u, Connect(x.id));
      ghost var v := u.(pipe := u.pipe + [ConnectResult(x.id, -1, false)], main := Waiting);
      SettleWaiting(Cfg(), v);
      PushPosts(u, Connect(x.id));
      HandOffWaiting(Cfg(), stats.View(), Push(u, Connect(x.id)), elapsed);
      HandOffWaiting(Cfg(), stats.View(), v, elapsed);
      SameKeysCount(s.sessions, sessions.sessions, x.id);
      ConnectProxy(x.id, i);
    }

    method HandleConnectResult(i: nat, fd: int, ok: bool, elapsed: Word, ghost ws: seq<Worker>)
      requires i < |sessions.sessions|
      modifies this, sessions`sessions, kernel, stats
      ensures var s := old(View(ws)).(main := Handling(ConnectResult(old(sessions.sessions[i].id), fd, ok)));
        var t := DoConnectResult(s, i, fd, ok);
        View(ws) == Settle(Cfg(), t) && stats.View() == HandOff(Cfg(), old(stats.View()), t, elapsed)
    {
      hide CloseClient, HandedOff;
      var x := sessions.sessions[i];
      if !ok {
        CloseAndEnd(x, elapsed, View(ws).(main := Handling(ConnectResult(x.id, fd, ok))), ws);
        return;
      }
      sockets := sockets + [Client(x.clientFd, fd, x.id, true, Fresh())];
      sockets := sockets + [Client(fd, x.clientFd, x.id, false, Fresh())];
    }

    // The session pointer is used unchecked: the invariant is what makes it valid.
    method HandleCommandSocketRead(clock: Option<LocalTime>, elapsed: Word, ghost ws: seq<Worker>)
      requires messenger.pipe != [] && Inv(View(ws)) && Fitting(Cfg(), View(ws), messenger.pipe[0])
      requires clock.Some? ==> clock.value.Valid()
      modifies this, sessions`sessions, pool, messenger, kernel, stats
      ensures var t := Commanded(Cfg(), old(View(ws)), clock);
        View(ws) == Settle(Cfg(), t) && stats.View() == HandOff(Cfg(), old(stats.View()), t, elapsed)
    {
      hide Inv, DoDetectResult, DoConnectResult, UserAuth.Fits, Settle, Find, HandOff;
      MessageIsLive(View(ws));
      var msg := messenger.ReadMessage();
      var i := sessions.GetSession(msg.sid);
      match msg
      case DetectResult(_, ok) => HandleDetectResult(i, ok, clock, elapsed, ws);
      case ConnectResult(_, fd, ok) => HandleConnectResult(i, fd, ok, elapsed, ws);
    }

    // The first socket with this descriptor leaves the list; its destructor closes the descriptor.
    method RemoveSocket(fd: int)
      modifies this, kernel
      ensures sockets == Unregister(old(sockets), fd) && kernel.open == old(kernel.open) - {fd}
    {
      kernel.Close(fd);
      for i := 0 to |sockets|
        invariant sockets == old(sockets)
        invariant i <= FindSocket(sockets, fd)
      {
        if sockets[i].fd == fd {
          sockets := sockets[..i] + sockets[i + 1..];
          return;
        }
      }
    }

    // The socket as an object that reads and writes, and the counters of its session.
    method RelayOnce(k: Socket, x: Session, answer: ReadAnswer, outs: seq<WriteAnswer>)
      returns (teardown: bool, relayed: Socket, counted: Session)
      requires k.Client? && IsPass(answer, outs)
      ensures teardown <==> !k.flow.active
      ensures !teardown ==>
        var (flow, numRead, numWritten) := Pass(k.flow, answer, outs);
        relayed == k.(flow := flow) && counted == CountedFor(x, k.toServer, numRead, numWritten)
    {
      hide Pass, IsPass, Add;
      var socket := new ClientSocket(k.toServer, k.flow);
      var counters := new Relay.Counters(x.rx, x.tx);
      var buf := new byte[BUFFER];
      teardown := Relay.HandleClientSocketRead(socket, counters, buf, answer, outs);
      relayed, counted := k.(flow := socket.View()), x.(rx := counters.rx, tx := counters.tx);
    }

    // One readable client socket.
    method HandleClientSocketRead(fd: int, answer: ReadAnswer, outs: seq<WriteAnswer>, elapsed: Word,
                                  ghost ws: seq<Worker>)
      requires Inv(View(ws)) && Enabled(View(ws), Relay(fd, answer, outs))
      modifies this, sessions`sessions, kernel, stats
      ensures var t := Step(Cfg(), old(View(ws)), Relay(fd, answer, outs));
        View(ws) == Settle(Cfg(), t) && stats.View() == HandOff(Cfg(), old(stats.View()), t, elapsed)
    {
      hide Inv, Find, TearDown, Settle, Unregister, Without, Pass, IsPass, CountedFor, HandOff, HandedOff, Step;
      SocketSessionIsLive(View(ws), fd);
      ghost var s := View(ws);
      RelayOutcome(Cfg(), s, fd, answer, outs);
      var i := FindSocket(sockets, fd);
      var client := sockets[i];
      var j := sessions.GetSession(client.sid);
      var x := sessions.sessions[j];
      var teardown, relayed, counted := RelayOnce(client, x, answer, outs);
      if !teardown {
        sockets := sockets[i := relayed];
        sessions.sessions := sessions.sessions[j := counted];
        SettleWaiting(Cfg(), View(ws));
        HandOffWaiting(Cfg(), stats.View(), View(ws), elapsed);
      } else {
        SettleTearDown(Cfg(), s, i);
        HandOffTearDown(Cfg(), stats.View(), s, i, elapsed);
        UnregisterAt(sockets, fd);
        CloseSockets(client.fd, client.peer, client.sid, elapsed);
      }
    }

    method CloseSockets(fd: int, peer: int, sid: int, elapsed: Word)
      modifies this, sessions`sessions, kernel, stats
      ensures sockets == Unregister(Unregister(old(sockets), fd), peer)
      ensures sessions.sessions == Without(old(sessions.sessions), sid)
      ensures kernel.open == old(kernel.open) - {fd, peer}
      ensures stats.View() ==
        HandedOff(old(stats.View()), auth.enabled, auth.users, old(sessions.sessions), sid, elapsed)
    {
      RemoveSocket(fd);
      RemoveSocket(peer);
      sessions.EndSession(sid, stats, auth, elapsed);
      assert kernel.open == old(kernel.open) - {fd, peer};
    }

    // Takes away the oldest pair and its session for as long as there are too many sockets.
    method PruneExcessConnections(times: seq<Word>, ghost ws: seq<Worker>)
      requires Inv(View(ws)) && |times| == Excess(sockets)
      modifies this, sessions`sessions, kernel, stats
      ensures Inv(View(ws)) && View(ws) == PruneRounds(Cfg(), old(View(ws)), Excess(old(sockets)))
      ensures |sockets| <= 200
      ensures stats.View() == PruneLedger(Cfg(), old(stats.View()), old(View(ws)), times)
    {
      assert InPairs(sockets);
      hide Inv, PruneRound, PruneRounds, InPairs, Without, Step, HandOff;
      ghost var goal := PruneRounds(Cfg(), View(ws), Excess(sockets));
      var i := 0;
      while |sockets| > MAX_SOCKETS
        invariant Inv(View(ws)) && |sockets| % 2 == 0 && i + Excess(sockets) == |times|
        invariant goal == PruneRounds(Cfg(), View(ws), Excess(sockets))
        invariant PruneLedger(Cfg(), stats.View(), View(ws), times[i..])
               == PruneLedger(Cfg(), old(stats.View()), old(View(ws)), times)
        decreases |sockets|
      {
        PruneRoundDrops(Cfg(), View(ws));
        PruneRoundsStep(Cfg(), View(ws));
        PruneOne(times[i], ws);
        i := i + 1;
      }
    }

    method PruneOne(elapsed: Word, ghost ws: seq<Worker>)
      requires Inv(View(ws)) && |sockets| > MAX_SOCKETS
      modifies this, sessions`sessions, kernel, stats
      ensures View(ws) == PruneRound(Cfg(), old(View(ws)))
      ensures Enabled(old(View(ws)), Prune)
      ensures stats.View() == HandOff(Cfg(), old(stats.View()), Step(Cfg(), old(View(ws)), Prune), elapsed)
    {
      hide Inv, InPairs, Settle, Unregister, Without, PruneRound, FirstClient, HandedOff, Ledger.Do;
      ghost var s := View(ws);
      PairsOf(s);
      PruneIsTearDown(Cfg(), s);
      FirstClientIsThird(s.sockets);
      SettleTearDown(Cfg(), s, 2);
      var i := 0;
      while !sockets[i].Client?
        invariant i <= 2
        decreases 2 - i
      {
        i := i + 1;
      }
      var client := sockets[i];
      sockets := RemoveAt(sockets, i);
      kernel.Close(client.fd);
      RemoveSocket(client.peer);
      sessions.EndSession(client.sid, stats, auth, elapsed);
      assert kernel.open == s.open - {client.fd, client.peer};
    }
  }

  lemma RelayOutcome(cfg: Config, s: State, fd: int, answer: ReadAnswer, outs: seq<WriteAnswer>)
    requires Enabled(s, Relay(fd, answer, outs)) && Live(s, s.sockets[FindSocket(s.sockets, fd)].sid)
    ensures var i := FindSocket(s.sockets, fd);
      Step(cfg, s, Relay(fd, answer, outs)) ==
        if s.sockets[i].flow.active then Relayed(s, i, Find(s.sessions, s.sockets[i].sid), answer, outs)
        else TearDown(s, i)
  {
    hide TearDown, Pass, IsPass;
  }

  lemma PushPosts(s: State, work: Work)
    ensures Push(s, work).main.Posting?
  {}

  lemma UnregisterAt(ks: seq<Socket>, fd: int)
    ensures Unregister(ks, fd) == RemoveAt(ks, FindSocket(ks, fd))
  {}

  lemma MessageIsLive(s: State)
    requires Inv(s) && s.pipe != []
    ensures Live(s, s.pipe[0].sid)
  {
    CountHas(MessageId, s.pipe[0].sid, s.pipe, 0);
    CarriedIsLive(s, s.pipe[0].sid);
  }

  lemma SocketSessionIsLive(s: State, fd: int)
    requires Inv(s) && FindSocket(s.sockets, fd) < |s.sockets| && s.sockets[FindSocket(s.sockets, fd)].Client?
    ensures Live(s, s.sockets[FindSocket(s.sockets, fd)].sid)
  {
    var i := FindSocket(s.sockets, fd);
    PeerOf(s.sockets, i);
    SocketLive(s, if i % 2 == 0 then i else i - 1);
  }
}
