// The work of a pool thread: taking a package, detecting the host of a session and connecting to
// it. Run without interruption, each is the corresponding steps of Lifecycle.

module ProxyConnector {
  import opened CStrings
  import opened Lifecycle
  import opened LifecycleInvariant
  import opened HostCache
  import opened Audit
  import opened SocketManager
  import Ledger

  // What becomes of one address: its text does not convert, connect() fails, or it succeeds.
  datatype Attempt = Unusable | Refused | Accepted

  const FILTERED := "0.0.0.0"

  ghost predicate SomeAccepts(addresses: seq<HostInfo>, attempts: seq<Attempt>)
    requires |attempts| == |addresses|
  {
    exists i :: 0 <= i < |addresses| && addresses[i].url != "0.0.0.0" && attempts[i].Accepted?
  }

  function ResolvedAs(addresses: seq<HostInfo>, sock: int): Resolved {
    if addresses == [] then NoAddress else if sock == -1 then NoSocket else Opened(sock)
  }

  // The connector's steps, with nothing in between.
  ghost function ConnectorSteps(cfg: Config, s: State, w: nat, r: Resolved, connected: bool): State
    requires Enabled(s, RunResolve(w, r))
  {
    var t := Step(cfg, s, RunResolve(w, r));
    if !r.Opened? then Step(cfg, t, Send(w))
    else
      var u := Step(cfg, Step(cfg, t, RunConnect(w, connected)), Send(w));
      if connected then u else Step(cfg, u, ReadHost(w))
  }

  // Their net effect: the thread is idle again, one message is in the pipe, and a socket that was
  // opened stays open.
  lemma ConnectorOutcome(cfg: Config, s: State, w: nat, r: Resolved, connected: bool, sid: int)
    requires Enabled(s, RunResolve(w, r)) && s.workers[w] == Running(Connect(sid))
    ensures ConnectorSteps(cfg, s, w, r, connected) == s.(
      workers := s.workers[w := Idle],
      pipe := s.pipe +
        [if r.Opened? && connected then ConnectResult(sid, r.fd, true) else ConnectResult(sid, -1, false)],
      open := if r.Opened? then s.open + {r.fd} else s.open)
  {
    var t := Step(cfg, s, RunResolve(w, r));
    TwiceUpdated(s.workers, w, t.workers[w], Idle);
    if r.Opened? {
      var u := Step(cfg, t, RunConnect(w, connected));
      TwiceUpdated(s.workers, w, t.workers[w], u.workers[w]);
      TwiceUpdated(s.workers, w, u.workers[w], Idle);
      TwiceUpdated(s.workers, w, u.workers[w], LateRead(sid));
      TwiceUpdated(s.workers, w, LateRead(sid), Idle);
    }
  }

  lemma TwoSteps(cfg: Config, s: State, l: Ledger.Ledger, e: Event, f: Event)
    requires Enabled(s, e) && Enabled(Step(cfg, s, e), f) && !e.Finish? && !f.Finish?
    ensures ReachedWith(cfg, s, l, Step(cfg, Step(cfg, s, e), f), l)
  {
    hide ReachedWith, Step, Enabled;
    ReachedWithSelf(cfg, s, l);
    ReachedWithStep(cfg, s, l, s, l, e);
    ReachedWithStep(cfg, s, l, Step(cfg, s, e), l, f);
  }

  lemma ConnectorReached(cfg: Config, s: State, l: Ledger.Ledger, w: nat, r: Resolved, connected: bool)
    requires Enabled(s, RunResolve(w, r))
    ensures ReachedWith(cfg, s, l, ConnectorSteps(cfg, s, w, r, connected), l)
  {
    hide ReachedWith;
    var t := Step(cfg, s, RunResolve(w, r));
    ReachedWithSelf(cfg, s, l);
    ReachedWithStep(cfg, s, l, s, l, RunResolve(w, r));
    if !r.Opened? {
      ReachedWithStep(cfg, s, l, t, l, Send(w));
    } else {
      var u := Step(cfg, t, RunConnect(w, connected));
      ReachedWithStep(cfg, s, l, t, l, RunConnect(w, connected));
      ReachedWithStep(cfg, s, l, u, l, Send(w));
      if !connected {
        ReachedWithStep(cfg, s, l, Step(cfg, u, Send(w)), l, ReadHost(w));
      }
    }
  }

  lemma TwiceUpdated(ws: seq<Worker>, w: nat, a: Worker, b: Worker)
    requires w < |ws|
    ensures ws[w := a][w := b] == ws[w := b]
  {}

  // The loop over the addresses: filtered and unusable ones are passed over, the first that accepts
  // ends it.
  method TryConnect(addresses: seq<HostInfo>, attempts: seq<Attempt>) returns (connected: bool, i: nat)
    requires |attempts| == |addresses|
    ensures connected <==> SomeAccepts(addresses, attempts)
    ensures connected ==> i < |addresses| && addresses[i].url != FILTERED && attempts[i].Accepted?
    ensures forall k :: 0 <= k < i < |addresses| ==> addresses[k].url == FILTERED || !attempts[k].Accepted?
  {
    i := 0;
    while i < |addresses|
      invariant i <= |addresses|
      invariant forall k :: 0 <= k < i ==> addresses[k].url == FILTERED || !attempts[k].Accepted?
    {
      if addresses[i].url != FILTERED && attempts[i].Accepted? {
        return true, i;
      }
      i := i + 1;
    }
    return false, i;
  }

  // One turn of workerTask up to the handler: sem_wait, then the front of the list.
  method TakeWork(m: SocketManager, ghost ws: seq<Worker>, ghost w: nat) returns (package: Work)
    requires w < |ws| && ws[w] == Idle && m.pool.sem > 0 && Inv(m.View(ws))
    modifies m.pool
    ensures m.View(ws[w := Running(package)])
      == Step(m.Cfg(), Step(m.Cfg(), old(m.View(ws)), Wake(w)), Pop(w))
    ensures package == old(m.pool.work)[0]
    ensures ReachedWith(m.Cfg(), old(m.View(ws)), old(m.stats.View()),
                        m.View(ws[w := Running(package)]), m.stats.View())
  {
    QueueFilled(m.View(ws));
    TwoSteps(m.Cfg(), m.View(ws), m.stats.View(), Wake(w), Pop(w));
    hide Inv, ReachedWith;
    package := m.pool.Take();
    assert ws[w := Woken][w := Running(package)] == ws[w := Running(package)];
  }

  lemma QueueFilled(s: State)
    requires Inv(s) && s.sem > 0
    ensures s.queue != []
  {}

  lemma LiveWorker(s: State, w: nat, sid: int)
    requires Inv(s) && w < |s.workers| && WorkerId(s.workers[w]) == Some(sid)
    ensures Find(s.sessions, sid) < |s.sessions|
  {
    WorkerLive(s, w, sid);
  }

  method AsyncDetector(m: SocketManager, sid: int, d: Detected, ghost ws: seq<Worker>, ghost w: nat)
    requires w < |ws| && ws[w] == Running(Detect(sid)) && Inv(m.View(ws))
    modifies m.sessions`sessions, m.messenger
    ensures m.View(ws[w := Idle]) == Step(m.Cfg(), Step(m.Cfg(), old(m.View(ws)), RunDetect(w, d)), Send(w))
    ensures ReachedWith(m.Cfg(), old(m.View(ws)), old(m.stats.View()), m.View(ws[w := Idle]), m.stats.View())
  {
    hide Inv, ReachedWith, Find;
    LiveWorker(m.View(ws), w, sid);
    TwoSteps(m.Cfg(), m.View(ws), m.stats.View(), RunDetect(w, d), Send(w));
    var i := m.sessions.GetSession(sid);
    var x := m.sessions.sessions[i];
    if d.Good? {
      m.sessions.sessions := m.sessions.sessions[i := x.(host := d.host, request := d.request)];
    }
    var msg := DetectResult(sid, d.Good?);
    m.messenger.WriteMessage(msg);
    assert ws[w := Sending(msg, false)][w := Idle] == ws[w := Idle];
  }

  // sock is -1 when socket() fails. One message goes out, a socket that was opened stays open, and
  // the host returned is the one whose cached addresses the caller clears after none of them accepted;
  // it is read after the session was given away.
  method ConnectAndReport(m: SocketManager, sid: int, addresses: seq<HostInfo>, sock: int, attempts: seq<Attempt>)
    returns (stale: Option<string>)
    requires Find(m.sessions.sessions, sid) < |m.sessions.sessions| && |attempts| == |addresses|
    modifies m.messenger, m.kernel
    ensures var connected := addresses != [] && sock != -1 && SomeAccepts(addresses, attempts);
      m.messenger.pipe == old(m.messenger.pipe) + [ConnectResult(sid, if connected then sock else -1, connected)]
    ensures m.kernel.open == old(m.kernel.open) + if addresses != [] && sock != -1 then {sock} else {}
    ensures stale == if addresses != [] && sock != -1 && !SomeAccepts(addresses, attempts)
                     then Some(m.sessions.sessions[Find(m.sessions.sessions, sid)].host) else None
  {
    hide SomeAccepts, Find;
    var failure := ConnectResult(sid, -1, false);
    var i := m.sessions.GetSession(sid);
    if |addresses| == 0 || sock == -1 {
      m.messenger.WriteMessage(failure);
      return None;
    }
    m.kernel.Opened(sock);
    var connected, _ := TryConnect(addresses, attempts);
    if !connected {
      m.messenger.WriteMessage(failure);
      return Some(m.sessions.sessions[i].host);
    }
    m.messenger.WriteMessage(ConnectResult(sid, sock, true));
    return None;
  }

  method AsyncConnector(m: SocketManager, sid: int, addresses: seq<HostInfo>, sock: int, attempts: seq<Attempt>,
                        ghost ws: seq<Worker>, ghost w: nat) returns (stale: Option<string>)
    requires w < |ws| && ws[w] == Running(Connect(sid)) && Inv(m.View(ws))
    requires |attempts| == |addresses| && (sock != -1 ==> sock !in m.kernel.open)
    modifies m.messenger, m.kernel
    ensures m.View(ws[w := Idle]) == ConnectorSteps(m.Cfg(), old(m.View(ws)), w, ResolvedAs(addresses, sock),
                                                    SomeAccepts(addresses, attempts))
    ensures ReachedWith(m.Cfg(), old(m.View(ws)), old(m.stats.View()), m.View(ws[w := Idle]), m.stats.View())
    ensures Find(m.sessions.sessions, sid) < |m.sessions.sessions|
    ensures stale == if addresses != [] && sock != -1 && !SomeAccepts(addresses, attempts)
                     then Some(m.sessions.sessions[Find(m.sessions.sessions, sid)].host) else None
  {
    hide Inv, SomeAccepts, ConnectorSteps, ReachedWith, Find, Step;
    LiveWorker(m.View(ws), w, sid);
    ConnectorOutcome(m.Cfg(), m.View(ws), w, ResolvedAs(addresses, sock), SomeAccepts(addresses, attempts), sid);
    ConnectorReached(m.Cfg(), m.View(ws), m.stats.View(), w, ResolvedAs(addresses, sock),
                     SomeAccepts(addresses, attempts));
    stale := ConnectAndReport(m, sid, addresses, sock, attempts);
  }
}
