// Consequences of the invariant over whole runs of the step system.

module LifecycleTheorems {
  import opened CStrings
  import opened TimeMap
  import opened Counting
  import opened ClientSockets
  import opened Lifecycle
  import opened LifecycleInvariant
  import UserAuth
  import Policy

  lemma InitHolds(s: State)
    requires Init(s)
    ensures Inv(s)
  {
    forall v ensures Carriers(s, v) == 0 && Owners(s, v) <= if v in s.open then 1 else 0 {
      IdleCounts(s.workers, v);
      assert s.sockets == [s.sockets[0]] + [s.sockets[1]];
      CountSnoc(PairId, v, [s.sockets[0]], s.sockets[1]);
      CountSnoc(SocketFd, v, [s.sockets[0]], s.sockets[1]);
      assert s.sockets[..1][1..] == [];
      assert Count(PairId, v, [s.sockets[0]]) == 0;
      assert Count(SocketFd, v, [s.sockets[0]]) == One(Some(s.sockets[0].fd), v);
    }
    NobodyWoken(s.workers);
  }

  lemma {:induction false} IdleCounts(ws: seq<Worker>, v: int)
    requires forall w :: 0 <= w < |ws| ==> ws[w] == Idle
    ensures Count(WorkerId, v, ws) == 0 && Count(WorkerFd, v, ws) == 0
  {
    if ws != [] {
      IdleCounts(ws[1..], v);
    }
  }

  lemma {:induction false} NobodyWoken(ws: seq<Worker>)
    requires forall w :: 0 <= w < |ws| ==> ws[w] == Idle
    ensures Sum(IsWoken, ws) == 0
  {
    if ws != [] {
      NobodyWoken(ws[1..]);
    }
  }

  lemma {:induction false} RunKeepsInv(cfg: Config, s: State, es: seq<Event>)
    requires Inv(s) && IsRun(cfg, s, es)
    ensures Inv(After(cfg, s, es))
    decreases |es|
  {
    hide Inv, Step, Enabled;
    if es != [] {
      RunKeepsInv(cfg, s, es[..|es| - 1]);
      StepKeeps(cfg, After(cfg, s, es[..|es| - 1]), es[|es| - 1]);
    }
  }

  // Every state of every run satisfies the invariant.
  lemma RunKeeps(cfg: Config, s: State, es: seq<Event>)
    requires Init(s) && IsRun(cfg, s, es)
    ensures Inv(After(cfg, s, es))
  {
    InitHolds(s);
    RunKeepsInv(cfg, s, es);
  }

  lemma Extend(cfg: Config, s: State, es: seq<Event>, e: Event)
    requires IsRun(cfg, s, es) && Enabled(After(cfg, s, es), e)
    ensures IsRun(cfg, s, es + [e]) && After(cfg, s, es + [e]) == Step(cfg, After(cfg, s, es), e)
  {
    hide Step;
    assert (es + [e])[..|es + [e]| - 1] == es;
  }

  // ---- Every dereference finds its session, but one ----

  // Some run leads from one state to the other.
  ghost predicate ReachedFrom(cfg: Config, s: State, t: State) {
    exists es :: IsRun(cfg, s, es) && After(cfg, s, es) == t
  }

  lemma ReachedKeeps(cfg: Config, s: State, t: State)
    requires Inv(s) && ReachedFrom(cfg, s, t)
    ensures Inv(t)
  {
    hide Inv, IsRun, After;
    var es :| IsRun(cfg, s, es) && After(cfg, s, es) == t;
    RunKeepsInv(cfg, s, es);
  }

  lemma PendingIsLive(s: State, sid: int)
    requires Inv(s) && FailurePending(s, sid)
    ensures Live(s, sid)
  {
    if ConnectResult(sid, FAILED, false) in s.pipe {
      var i :| 0 <= i < |s.pipe| && s.pipe[i] == ConnectResult(sid, FAILED, false);
      CountHas(MessageId, sid, s.pipe, i);
    }
    CarriedIsLive(s, sid);
  }

  // No step dereferences a missing session or pops an empty queue, with one exception: the connector
  // reads the host of its session after giving it away, and that faults exactly when the failure
  // message it sent has been fully handled.
  lemma FaultsExactly(cfg: Config, s: State, es: seq<Event>, e: Event)
    requires Init(s) && IsRun(cfg, s, es) && Enabled(After(cfg, s, es), e)
    ensures var t := After(cfg, s, es);
      Faults(t, e) <==> e.ReadHost? && !FailurePending(t, t.workers[e.w].sid)
  {
    RunKeeps(cfg, s, es);
    FaultsExactlyHere(After(cfg, s, es), e);
  }

  lemma FaultsExactlyHere(s: State, e: Event)
    requires Inv(s) && Enabled(s, e)
    ensures Faults(s, e) <==> e.ReadHost? && !FailurePending(s, s.workers[e.w].sid)
  {
    hide Count;
    match e
    case Pop(w) => PopFinds(s, w);
    case RunDetect(w, _) => WorkerLive(s, w, s.workers[w].work.sid);
    case RunResolve(w, _) => WorkerLive(s, w, s.workers[w].work.sid);
    case RunConnect(w, _) => WorkerLive(s, w, s.workers[w].sid);
    case ReadHost(w) =>
      var sid := s.workers[w].sid;
      assert LateOk(s, s.workers[w]);
      LiveIds(s.sessions, sid);
      if FailurePending(s, sid) {
        PendingIsLive(s, sid);
      }
    case Handle(_) => CarriedIsLive(s, s.main.msg.sid);
    case Relay(fd, _, _) =>
      var i := FindSocket(s.sockets, fd);
      PeerOf(s.sockets, i);
      SocketLive(s, if i % 2 == 0 then i else i - 1);
    case _ =>
  }

  lemma {:induction false} PrefixRun(cfg: Config, s: State, es: seq<Event>, k: nat)
    requires IsRun(cfg, s, es) && k <= |es|
    ensures IsRun(cfg, s, es[..k])
    decreases |es|
  {
    hide Step, Enabled;
    if k == |es| {
      assert es[..k] == es;
    } else {
      PrefixRun(cfg, s, es[..|es| - 1], k);
      assert es[..|es| - 1][..k] == es[..k];
    }
  }

  // The state after the first k events of a run.
  ghost function StateAt(cfg: Config, s: State, es: seq<Event>, k: nat): State
    requires IsRun(cfg, s, es) && k <= |es|
  {
    PrefixRun(cfg, s, es, k);
    After(cfg, s, es[..k])
  }

  // ---- One carrier each ----

  // The places where the id of a session can be.
  datatype Place = InQueue(i: nat) | AtWorker(i: nat) | InPipe(i: nat) | AtMain | InSockets(i: nat)

  ghost function Holds(s: State, p: Place): Option<int> {
    match p
    case InQueue(i) => if i < |s.queue| then WorkId(s.queue[i]) else None
    case AtWorker(i) => if i < |s.workers| then WorkerId(s.workers[i]) else None
    case InPipe(i) => if i < |s.pipe| then MessageId(s.pipe[i]) else None
    case AtMain => MainId(s.main)
    case InSockets(i) => if i < |s.sockets| then PairId(s.sockets[i]) else None
  }

  lemma HeldIsCounted(s: State, p: Place, id: int)
    requires Holds(s, p) == Some(id)
    ensures match p
      case InQueue(_) => Count(WorkId, id, s.queue) >= 1
      case AtWorker(_) => Count(WorkerId, id, s.workers) >= 1
      case InPipe(_) => Count(MessageId, id, s.pipe) >= 1
      case AtMain => One(MainId(s.main), id) >= 1
      case InSockets(_) => Count(PairId, id, s.sockets) >= 1
  {
    hide Count;
    match p
    case InQueue(i) => CountHas(WorkId, id, s.queue, i);
    case AtWorker(i) => CountHas(WorkerId, id, s.workers, i);
    case InPipe(i) => CountHas(MessageId, id, s.pipe, i);
    case AtMain =>
    case InSockets(i) => CountHas(PairId, id, s.sockets, i);
  }

  lemma CountBoth<T>(key: T -> Option<int>, v: int, s: seq<T>, i: nat, j: nat)
    requires i < |s| && j < |s| && i != j && key(s[i]) == key(s[j]) == Some(v)
    ensures Count(key, v, s) >= 2
  {
    CountTwo(key, v, s, if i < j then i else j, if i < j then j else i);
  }

  lemma HeldTwice(s: State, p: Place, q: Place, id: int)
    requires Holds(s, p) == Holds(s, q) == Some(id) && p != q
    ensures Carriers(s, id) >= 2
  {
    hide Count;
    HeldIsCounted(s, p, id);
    HeldIsCounted(s, q, id);
    match (p, q)
    case (InQueue(i), InQueue(j)) => CountBoth(WorkId, id, s.queue, i, j);
    case (AtWorker(i), AtWorker(j)) => CountBoth(WorkerId, id, s.workers, i, j);
    case (InPipe(i), InPipe(j)) => CountBoth(MessageId, id, s.pipe, i, j);
    case (InSockets(i), InSockets(j)) => CountBoth(PairId, id, s.sockets, i, j);
    case _ =>
  }

  lemma PlaceUnique(s: State, p: Place, q: Place, id: int)
    requires Inv(s) && Holds(s, p) == Holds(s, q) == Some(id)
    ensures p == q && Live(s, id)
  {
    CarriedIsLive(s, id);
    HeldIsCounted(s, p, id);
    if p != q {
      HeldTwice(s, p, q, id);
    }
  }

  lemma PlaceExists(s: State, id: int) returns (p: Place)
    requires Inv(s) && Live(s, id)
    ensures Holds(s, p) == Some(id)
  {
    CarriedIsLive(s, id);
    hide Count;
    if Count(WorkId, id, s.queue) > 0 {
      var i := CountSource(WorkId, id, s.queue);
      p := InQueue(i);
    } else if Count(WorkerId, id, s.workers) > 0 {
      var i := CountSource(WorkerId, id, s.workers);
      p := AtWorker(i);
    } else if Count(MessageId, id, s.pipe) > 0 {
      var i := CountSource(MessageId, id, s.pipe);
      p := InPipe(i);
    } else if Count(PairId, id, s.sockets) > 0 {
      var i := CountSource(PairId, id, s.sockets);
      p := InSockets(i);
    } else {
      p := AtMain;
    }
  }

  // In every reachable state a live session is in exactly one place, and an ended one in none.
  lemma ExactlyOneCarrier(cfg: Config, s: State, es: seq<Event>, id: int)
    requires Init(s) && IsRun(cfg, s, es)
    ensures var t := After(cfg, s, es);
      && (Live(t, id) <==> exists p :: Holds(t, p) == Some(id))
      && (forall p, q :: Holds(t, p) == Some(id) && Holds(t, q) == Some(id) ==> p == q)
  {
    RunKeeps(cfg, s, es);
    var t := After(cfg, s, es);
    hide Inv, Holds;
    if Live(t, id) {
      var p := PlaceExists(t, id);
    }
    forall p, q | Holds(t, p) == Some(id) && Holds(t, q) == Some(id) ensures p == q && Live(t, id) {
      PlaceUnique(t, p, q, id);
    }
  }

  // ---- Conservation ----

  // The keys of a sequence, in order.
  ghost function Keys<T>(key: T -> Option<int>, s: seq<T>): seq<int> {
    if s == [] then [] else (match key(s[0]) case Some(v) => [v] case None => []) + Keys(key, s[1..])
  }

  ghost function Itself(v: int): Option<int> { Some(v) }

  lemma {:induction false} KeysCount<T>(key: T -> Option<int>, s: seq<T>, v: int)
    ensures Count(Itself, v, Keys(key, s)) == Count(key, v, s)
  {
    if s != [] {
      KeysCount(key, s[1..], v);
      var head := match key(s[0]) case Some(k) => [k] case None => [];
      CountConcat(Itself, v, head, Keys(key, s[1..]));
      assert head != [] ==> head[1..] == [];
    }
  }

  lemma {:induction false} KeysAll<T>(key: T -> Option<int>, s: seq<T>)
    requires forall i :: 0 <= i < |s| ==> key(s[i]).Some?
    ensures |Keys(key, s)| == |s|
  {
    if s != [] {
      KeysAll(key, s[1..]);
    }
  }

  // Sequences with the same counts have the same length.
  lemma {:induction false} SameCountsSameLength(a: seq<int>, b: seq<int>)
    requires forall v :: Count(Itself, v, a) == Count(Itself, v, b)
    ensures |a| == |b|
    decreases |a|
  {
    if a == [] {
      if b != [] { CountHas(Itself, b[0], b, 0); }
    } else {
      var v := a[0];
      assert Count(Itself, v, a) == Count(Itself, v, b);
      var j := CountSource(Itself, v, b);
      var rest := b[..j] + b[j + 1..];
      forall u ensures Count(Itself, u, a[1..]) == Count(Itself, u, rest) {
        CountRemove(Itself, u, b, j);
        assert Count(Itself, u, a) == Count(Itself, u, b);
      }
      SameCountsSameLength(a[1..], rest);
    }
  }

  ghost function Busy(s: State): nat {
    |Keys(WorkerId, s.workers)|
  }

  ghost function AllKeys(s: State): seq<int> {
    Keys(WorkId, s.queue) + Keys(WorkerId, s.workers) + Keys(MessageId, s.pipe)
      + Keys(MainId, [s.main]) + Keys(PairId, s.sockets)
  }

  lemma AllKeysCount(s: State, v: int)
    ensures Count(Itself, v, AllKeys(s)) == Carriers(s, v)
  {
    hide Count;
    KeysCount(WorkId, s.queue, v);
    KeysCount(WorkerId, s.workers, v);
    KeysCount(MessageId, s.pipe, v);
    KeysCount(MainId, [s.main], v);
    KeysCount(PairId, s.sockets, v);
    var a := Keys(WorkId, s.queue);
    var b := Keys(WorkerId, s.workers);
    var c := Keys(MessageId, s.pipe);
    var d := Keys(MainId, [s.main]);
    CountConcat(Itself, v, a, b);
    CountConcat(Itself, v, a + b, c);
    CountConcat(Itself, v, a + b + c, d);
    CountConcat(Itself, v, a + b + c + d, Keys(PairId, s.sockets));
    CountSnoc(MainId, v, [], s.main);
    assert [] + [s.main] == [s.main];
    assert Count(MainId, v, []) == 0 by { CountEmpty(MainId, v); }
  }

  lemma CountEmpty<T>(key: T -> Option<int>, v: int)
    ensures Count(key, v, []) == 0
  {}

  lemma {:induction false} PairKeys(ps: seq<Socket>)
    requires |ps| % 2 == 0 && forall k :: 0 <= k < |ps| / 2 ==> Mirrored(ps[2 * k], ps[2 * k + 1])
    ensures |Keys(PairId, ps)| == |ps| / 2
    decreases |ps|
  {
    if ps != [] {
      assert Mirrored(ps[2 * 0], ps[2 * 0 + 1]);
      var rest := ps[2..];
      assert ps[1..][1..] == rest;
      forall k | 0 <= k < |rest| / 2 ensures Mirrored(rest[2 * k], rest[2 * k + 1]) {
        assert Mirrored(ps[2 * (k + 1)], ps[2 * (k + 1) + 1]);
      }
      PairKeys(rest);
    }
  }

  lemma SocketKeys(ks: seq<Socket>)
    requires InPairs(ks)
    ensures |Keys(PairId, ks)| == |ks| / 2 - 1
  {
    var rest := ks[2..];
    assert ks[1..][1..] == rest;
    forall k | 0 <= k < |rest| / 2 ensures Mirrored(rest[2 * k], rest[2 * k + 1]) {
      assert Mirrored(ks[2 * (k + 1)], ks[2 * (k + 1) + 1]);
    }
    PairKeys(rest);
  }

  lemma MainKeys(m: Main)
    ensures |Keys(MainId, [m])| == if m.Handling? || m.Ending? then 1 else 0
  {
    assert [m][1..] == [];
  }

  // Sessions are conserved: every one of them is queued, run, in the pipe, in the hands of the
  // dispatch thread or established. So the pipe never holds more messages than there are sessions.
  lemma SessionsConserved(cfg: Config, s: State, es: seq<Event>)
    requires Init(s) && IsRun(cfg, s, es)
    ensures var t := After(cfg, s, es);
      && |t.sessions| == |t.queue| + Busy(t) + |t.pipe| + (if t.main.Handling? || t.main.Ending? then 1 else 0)
                         + (|t.sockets| / 2 - 1)
      && |t.pipe| <= |t.sessions|
  {
    RunKeeps(cfg, s, es);
    var t := After(cfg, s, es);
    forall v ensures Count(Itself, v, AllKeys(t)) == Count(Itself, v, Keys(SessionId, t.sessions)) {
      AllKeysCount(t, v);
      KeysCount(SessionId, t.sessions, v);
      assert Carriers(t, v) == Count(SessionId, v, t.sessions);
    }
    SameCountsSameLength(AllKeys(t), Keys(SessionId, t.sessions));
    KeysAll(SessionId, t.sessions);
    KeysAll(WorkId, t.queue);
    KeysAll(MessageId, t.pipe);
    SocketKeys(t.sockets);
    MainKeys(t.main);
  }

  // ---- Descriptors and pairs ----

  // The socket on the other side of a client socket: the two descriptors swapped, for the same live
  // session, in the other direction.
  ghost predicate IsPeer(t: State, i: nat, j: nat) {
    && i < |t.sockets| && j < |t.sockets| && i != j && t.sockets[i].Client? && t.sockets[j].Client?
    && t.sockets[j].fd == t.sockets[i].peer && t.sockets[j].peer == t.sockets[i].fd
    && t.sockets[j].sid == t.sockets[i].sid && t.sockets[j].toServer != t.sockets[i].toServer
    && Live(t, t.sockets[i].sid)
  }

  ghost predicate DistinctFds(ks: seq<Socket>) {
    forall a, b :: 0 <= a < b < |ks| ==> ks[a].fd != ks[b].fd
  }

  lemma PeerHere(t: State, i: nat) returns (j: nat)
    requires Inv(t) && i < |t.sockets| && t.sockets[i].Client?
    ensures IsPeer(t, i, j)
  {
    j := Other(i);
    PeerOf(t.sockets, i);
    SocketLive(t, if i % 2 == 0 then i else j);
  }

  // In every reachable state registered descriptors are distinct and every client socket has
  // exactly one peer.
  lemma ExactlyOnePeer(cfg: Config, s: State, es: seq<Event>, i: nat) returns (j: nat)
    requires Init(s) && IsRun(cfg, s, es)
    requires i < |After(cfg, s, es).sockets| && After(cfg, s, es).sockets[i].Client?
    ensures DistinctFds(After(cfg, s, es).sockets)
    ensures IsPeer(After(cfg, s, es), i, j)
    ensures forall k :: IsPeer(After(cfg, s, es), i, k) ==> k == j
  {
    RunKeeps(cfg, s, es);
    hide Inv, Step;
    var t := After(cfg, s, es);
    j := PeerHere(t, i);
    forall a, b | 0 <= a < b < |t.sockets| ensures t.sockets[a].fd != t.sockets[b].fd {
      SocketFdsDistinct(t, a, b);
    }
  }

  // A descriptor that is open although no session, worker, message or socket uses it.
  ghost predicate Stray(s: State, fd: int) {
    fd in s.open && Owners(s, fd) == 0
  }

  lemma ConnectingOwns(s: State, w: nat)
    requires w < |s.workers| && s.workers[w].Connecting?
    ensures Owners(s, s.workers[w].fd) >= 1
  {
    CountHas(WorkerFd, s.workers[w].fd, s.workers, w);
  }

  lemma PostMoves(s: State, v: int)
    requires s.main.Posting?
    ensures Owners(s.(sem := s.sem + 1, main := Waiting), v) == Owners(s, v)
  {
    hide Count;
  }

  lemma CountedOf(s: State)
    requires Inv(s)
    ensures Counted(s)
  {
    hide Counted;
  }

  lemma StraysByWorker(cfg: Config, s: State, e: Event, fd: int)
    requires Inv(s) && Enabled(s, e)
    requires e.Wake? || e.Pop? || e.RunDetect? || e.RunResolve? || e.RunConnect? || e.Send? || e.ReadHost?
    ensures Stray(Step(cfg, s, e), fd) <==>
      Stray(s, fd) || (e.RunConnect? && !e.connected && s.workers[e.w].fd == fd)
  {
    hide Count, Owners, Carriers, Inv, Find;
    CountsOf(s, fd);
    if e.Pop? {
      assert Counted(s) by { CountedOf(s); }
      PopFinds(s, e.w);
    }
    hide Counted;
    match e
    case Wake(w) => WakeMoves(s, w, fd);
    case Pop(w) => PopMoves(s, w, fd);
    case RunDetect(w, d) => DetectMoves(s, w, d, fd);
    case RunResolve(w, r) => ResolveMoves(s, w, r, fd);
    case RunConnect(w, connected) =>
      ConnectMoves(s, w, connected, fd);
      ConnectingOwns(s, w);
    case Send(w) => SendMoves(s, w, fd);
    case ReadHost(w) => ReadHostMoves(s, w, fd);
  }

  lemma StraysByMain(cfg: Config, s: State, e: Event, fd: int)
    requires Inv(s) && Enabled(s, e)
    requires e.Accept? || e.Post? || e.ReadMessage? || e.Finish?
    ensures Stray(Step(cfg, s, e), fd) <==> Stray(s, fd)
  {
    hide Count, Owners, Carriers, Inv, Find, FindByFd, Without;
    CountsOf(s, fd);
    match e
    case Accept(f, ip, memory) => AcceptMoves(s, f, ip, memory, fd);
    case Post => PostMoves(s, fd);
    case ReadMessage => ReadMoves(s, fd);
    case Finish => FinishMoves(s, fd);
  }

  // Descriptors leak at one point only: a socket whose connect failed stays open for ever.
  lemma StraysExactly(cfg: Config, s: State, es: seq<Event>, e: Event, fd: int)
    requires Init(s) && IsRun(cfg, s, es) && Enabled(After(cfg, s, es), e)
    ensures var t := After(cfg, s, es);
      Stray(Step(cfg, t, e), fd) <==> Stray(t, fd) || (e.RunConnect? && !e.connected && t.workers[e.w].fd == fd)
  {
    RunKeeps(cfg, s, es);
    StraysHere(cfg, After(cfg, s, es), e, fd);
  }

  lemma StraysHere(cfg: Config, s: State, e: Event, fd: int)
    requires Inv(s) && Enabled(s, e)
    ensures Stray(Step(cfg, s, e), fd) <==>
      Stray(s, fd) || (e.RunConnect? && !e.connected && s.workers[e.w].fd == fd)
  {
    if e.Prune? {
      PeerOf(s.sockets, FirstClient(s.sockets));
    }
    hide Inv, Stray;
    match e
    case Handle(clock) => StraysInHandle(cfg, s, clock, fd);
    case Relay(f, answer, outs) => StraysInRelay(s, f, answer, outs, fd);
    case Prune => StraysInTearDown(s, FirstClient(s.sockets), fd);
    case Accept(_, _, _) => StraysByMain(cfg, s, e, fd);
    case Post => StraysByMain(cfg, s, e, fd);
    case ReadMessage => StraysByMain(cfg, s, e, fd);
    case Finish => StraysByMain(cfg, s, e, fd);
    case _ => StraysByWorker(cfg, s, e, fd);
  }

  lemma StraysInTearDown(s: State, i: nat, fd: int)
    requires Inv(s) && s.main.Waiting? && 2 <= i < |s.sockets| && s.sockets[i].Client?
    ensures Stray(TearDown(s, i), fd) <==> Stray(s, fd)
  {
    hide Count;
    assert Owners(s, fd) <= if fd in s.open then 1 else 0;
    TearDownMoves(s, i, fd);
  }

  lemma StraysInClose(s: State, i: nat, fd: int)
    requires Inv(s) && s.main.Handling? && i < |s.sessions| && s.sessions[i].id == s.main.msg.sid
    requires MainFd(s.main).None?
    ensures Stray(CloseClient(s, s.sessions[i]), fd) <==> Stray(s, fd)
  {
    hide Count;
    assert Owners(s, fd) <= if fd in s.open then 1 else 0;
    CloseMoves(s, i, fd);
  }

  lemma StraysInHandle(cfg: Config, s: State, clock: Option<LocalTime>, fd: int)
    requires Inv(s) && Enabled(s, Handle(clock))
    ensures Stray(DoHandle(cfg, s, clock), fd) <==> Stray(s, fd)
  {
    hide Inv, Owners, UserAuth.Decide, Policy.Allowed;
    var i := Find(s.sessions, s.main.msg.sid);
    if i < |s.sessions| {
      match s.main.msg
      case DetectResult(sid, ok) =>
        if !ok {
          StraysInClose(s, i, fd);
        } else {
          var d := Decision(cfg, s.sessions[i], clock);
          var t := SetUser(s, i, d.user);
          SetUserKeeps(s, i, d.user);
          SameKeysMoves(s, t, fd);
          ConnectPushedMoves(t, sid, fd);
          DeniedMoves(t, sid, fd);
          if !d.Admit? {
            StraysInClose(t, i, fd);
          }
        }
      case ConnectResult(_, f, ok) =>
        if ok {
          EstablishMoves(s, i, f, fd);
        } else {
          StraysInClose(s, i, fd);
        }
    }
  }

  lemma StraysInRelay(s: State, f: int, answer: ReadAnswer, outs: seq<WriteAnswer>, fd: int)
    requires Inv(s) && Enabled(s, Relay(f, answer, outs))
    ensures Stray(DoRelay(s, f, answer, outs), fd) <==> Stray(s, fd)
  {
    var i := FindSocket(s.sockets, f);
    PeerOf(s.sockets, i);
    hide Inv, Owners, InPairs;
    var t := DoRelay(s, f, answer, outs);
    if !s.sockets[i].flow.active {
      StraysInTearDown(s, i, fd);
    } else if Find(s.sessions, s.sockets[i].sid) < |s.sessions| {
      var u := s.(sessions := t.sessions);
      SameKeysMoves(s, u, fd);
      FlowMoves(u, i, t.sockets[i].flow, fd);
    }
  }

  // ---- Session ids ----

  // Sessions appear at the end with the next id, disappear one at a time, and otherwise keep ids and
  // descriptors.
  lemma SessionsStep(cfg: Config, s: State, e: Event)
    requires Inv(s) && Enabled(s, e)
    ensures var t := Step(cfg, s, e);
      if e.Accept? then
        t.sessions == s.sessions + [NewSession(s.nextId, e.fd, e.ip, e.memory)] && t.nextId == s.nextId + 1
      else
        t.nextId == s.nextId &&
        if e.Finish? then t.sessions == Without(s.sessions, s.main.sid) else SameKeys(s.sessions, t.sessions)
  {
    hide Inv, SameKeys, Without;
    match e
    case Accept(fd, ip, memory) => AcceptFinds(s, fd, ip, memory);
    case Handle(clock) => SessionsInHandle(cfg, s, clock);
    case Finish =>
    case _ => SessionsElsewhere(cfg, s, e);
  }

  lemma SessionsInHandle(cfg: Config, s: State, clock: Option<LocalTime>)
    requires s.main.Handling?
    ensures DoHandle(cfg, s, clock).nextId == s.nextId && SameKeys(s.sessions, DoHandle(cfg, s, clock).sessions)
  {
    hide Decision, Policy.Allowed;
  }

  lemma SessionsElsewhere(cfg: Config, s: State, e: Event)
    requires Enabled(s, e) && !e.Accept? && !e.Handle? && !e.Finish?
    ensures Step(cfg, s, e).nextId == s.nextId && SameKeys(s.sessions, Step(cfg, s, e).sessions)
  {
    hide DoAccept, DoHandle, Without, Unregister, RemoveAt;
  }

  lemma {:induction false} LiveIffListed(ss: seq<Session>, id: int)
    ensures Find(ss, id) < |ss| <==> exists i :: 0 <= i < |ss| && ss[i].id == id
  {
    if Find(ss, id) < |ss| {
      assert ss[Find(ss, id)].id == id;
    }
  }

  lemma LiveIsBelow(s: State, id: int)
    requires Inv(s) && Live(s, id)
    ensures id < s.nextId
  {}

  lemma WithoutNext(ss: seq<Session>, id: int)
    requires ss != []
    ensures Without(ss, id) == if ss[0].id == id then ss[1..] else [ss[0]] + Without(ss[1..], id)
  {}

  lemma {:induction false} FinishedIsGone(ss: seq<Session>, next: int, id: int)
    requires Ordered(ss, next)
    ensures Find(Without(ss, id), id) == |Without(ss, id)|
  {
    if ss != [] {
      hide Without;
      WithoutNext(ss, id);
      if ss[0].id == id {
        LiveIffListed(ss[1..], id);
      } else {
        FinishedIsGone(ss[1..], next, id);
        FindNext(ss[0], Without(ss[1..], id), id);
      }
    }
  }

  lemma FindNext(x: Session, ss: seq<Session>, id: int)
    requires x.id != id
    ensures Find([x] + ss, id) == 1 + Find(ss, id)
  {
    assert ([x] + ss)[1..] == ss;
  }

  lemma AcceptedHere(t: State, fd: int, ip: string, memory: Counts)
    requires Inv(t) && Enabled(t, Accept(fd, ip, memory))
    ensures var u := DoAccept(t, fd, ip, memory);
      && !Live(t, t.nextId) && Live(u, t.nextId)
      && u.sessions[Find(u.sessions, t.nextId)] == NewSession(t.nextId, fd, ip, memory)
      && u.queue == t.queue + [Detect(t.nextId)]
  {
    AcceptFinds(t, fd, ip, memory);
    hide DoAccept, OneCarrier, FdsOpen, InPairs, Matched, Counted, InOrder, LateReads;
    var u := DoAccept(t, fd, ip, memory);
    assert u.sessions[|t.sessions|].id == t.nextId;
    LiveIffListed(t.sessions, t.nextId);
    LiveIffListed(u.sessions, t.nextId);
    assert forall i :: 0 <= i < |t.sessions| ==> u.sessions[i] == t.sessions[i];
    assert Find(u.sessions, t.nextId) == |t.sessions|;
  }

  lemma EndedHere(cfg: Config, t: State, e: Event, id: int)
    requires Inv(t) && Enabled(t, e) && id < t.nextId && !Live(t, id)
    ensures id < Step(cfg, t, e).nextId && !Live(Step(cfg, t, e), id)
  {
    SessionsStep(cfg, t, e);
    hide Step, Inv;
    var u := Step(cfg, t, e);
    LiveIffListed(t.sessions, id);
    LiveIffListed(u.sessions, id);
    if e.Finish? {
      assert forall i :: 0 <= i < |u.sessions| ==> u.sessions[i] in t.sessions;
    }
  }

  // An accepted session gets an id above all earlier ones, and CreateSession, which looks it up by
  // descriptor, returns that very session.
  lemma AcceptCreatesNext(cfg: Config, s: State, es: seq<Event>, fd: int, ip: string, memory: Counts)
    requires Init(s) && IsRun(cfg, s, es) && Enabled(After(cfg, s, es), Accept(fd, ip, memory))
    ensures var t, u := After(cfg, s, es), Step(cfg, After(cfg, s, es), Accept(fd, ip, memory));
      && t.nextId < u.nextId && !Live(t, t.nextId) && Live(u, t.nextId)
      && u.sessions[Find(u.sessions, t.nextId)] == Session(t.nextId, fd, ip, "", "", "", memory.rx, memory.tx)
      && u.sessions[..|t.sessions|] == t.sessions && |u.sessions| == |t.sessions| + 1
      && u.queue == t.queue + [Detect(t.nextId)] && u.open == t.open + {fd}
  {
    RunKeeps(cfg, s, es);
    AcceptedHere(After(cfg, s, es), fd, ip, memory);
    AcceptFinds(After(cfg, s, es), fd, ip, memory);
    hide Inv, Find, FindByFd, Live;
  }

  // An id that has ended is never live again.
  lemma {:induction false} IdsNeverReused(cfg: Config, s: State, es: seq<Event>, k: nat, id: int)
    requires Init(s) && IsRun(cfg, s, es) && k <= |es|
    requires id < StateAt(cfg, s, es, k).nextId && !Live(StateAt(cfg, s, es, k), id)
    ensures id < After(cfg, s, es).nextId && !Live(After(cfg, s, es), id)
    decreases |es|
  {
    hide Step, Init, Live, Enabled;
    if k == |es| {
      assert es[..k] == es;
    } else {
      var front := es[..|es| - 1];
      assert front[..k] == es[..k];
      IdsNeverReused(cfg, s, front, k, id);
      RunKeeps(cfg, s, front);
      EndedHere(cfg, After(cfg, s, front), es[|es| - 1], id);
    }
  }
}
