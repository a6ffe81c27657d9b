// What every step keeps: each live session is carried by exactly one of the queue, a worker, the
// pipe, the dispatch thread or a socket pair; descriptors in use are distinct and open; client
// sockets come in mirrored pairs; the semaphore accounts for the queue.

module LifecycleInvariant {
  import opened CStrings
  import opened TimeMap
  import opened Counting
  import opened ClientSockets
  import opened Lifecycle
  import UserAuth
  import Policy

  // ---- Who carries a session ----

  ghost function SessionId(x: Session): Option<int> { Some(x.id) }
  ghost function WorkId(x: Work): Option<int> { Some(x.sid) }
  ghost function MessageId(m: Message): Option<int> { Some(m.sid) }
  ghost function PairId(k: Socket): Option<int> { if k.Client? && k.toServer then Some(k.sid) else None }

  ghost function WorkerId(w: Worker): Option<int> {
    match w
    case Running(work) => Some(work.sid)
    case Connecting(sid, _) => Some(sid)
    case Sending(m, _) => Some(m.sid)
    case _ => None
  }

  ghost function MainId(m: Main): Option<int> {
    match m
    case Handling(msg) => Some(msg.sid)
    case Ending(sid) => Some(sid)
    case _ => None
  }

  ghost function Carriers(s: State, id: int): nat {
    Count(WorkId, id, s.queue) + Count(WorkerId, id, s.workers) + Count(MessageId, id, s.pipe)
      + One(MainId(s.main), id) + Count(PairId, id, s.sockets)
  }

  // ---- Which descriptors are in use ----

  ghost function ClientFd(x: Session): Option<int> { Some(x.clientFd) }
  ghost function MessageFd(m: Message): Option<int> { if m.ConnectResult? && m.ok then Some(m.fd) else None }
  ghost function MainFd(m: Main): Option<int> { if m.Handling? then MessageFd(m.msg) else None }

  ghost function WorkerFd(w: Worker): Option<int> {
    match w
    case Connecting(_, fd) => Some(fd)
    case Sending(m, _) => MessageFd(m)
    case _ => None
  }

  // The client side of a pair belongs to its session.
  ghost function SocketFd(k: Socket): Option<int> { if k.Client? && k.toServer then None else Some(k.fd) }

  // Sessions whose client descriptor is still open.
  ghost function OpenSessions(s: State): seq<Session> {
    if s.main.Ending? then Without(s.sessions, s.main.sid) else s.sessions
  }

  ghost function Owners(s: State, fd: int): nat {
    Count(ClientFd, fd, OpenSessions(s)) + Count(WorkerFd, fd, s.workers) + Count(MessageFd, fd, s.pipe)
      + One(MainFd(s.main), fd) + Count(SocketFd, fd, s.sockets)
  }

  // ---- The invariant ----

  ghost predicate Ordered(ss: seq<Session>, next: int) {
    && (forall i :: 0 <= i < |ss| ==> ss[i].id < next)
    && (forall i, j :: 0 <= i < j < |ss| ==> ss[i].id < ss[j].id)
  }

  ghost predicate OneCarrier(s: State) {
    forall id :: Carriers(s, id) == Count(SessionId, id, s.sessions)
  }

  ghost predicate FdsOpen(s: State) {
    forall fd :: Owners(s, fd) <= if fd in s.open then 1 else 0
  }

  ghost predicate Mirrored(c: Socket, p: Socket) {
    && c.Client? && p.Client? && c.toServer && !p.toServer
    && p.fd == c.peer && p.peer == c.fd && p.sid == c.sid
  }

  // The two fixed sockets, then whole pairs.
  ghost predicate InPairs(ks: seq<Socket>) {
    && |ks| >= 2 && |ks| % 2 == 0 && ks[0].Server? && ks[1].Command?
    && forall k :: 1 <= k < |ks| / 2 ==> Mirrored(ks[2 * k], ks[2 * k + 1])
  }

  // A pair's client side is the client of its session.
  ghost predicate Matched(ss: seq<Session>, ks: seq<Socket>) {
    forall k, j :: 0 <= k < |ks| && 0 <= j < |ss| && ks[k].Client? && ks[k].toServer && ks[k].sid == ss[j].id
      ==> ks[k].fd == ss[j].clientFd
  }

  ghost function IsWoken(w: Worker): nat { if w.Woken? then 1 else 0 }

  ghost predicate Counted(s: State) {
    |s.queue| == s.sem + Sum(IsWoken, s.workers) + if s.main.Posting? then 1 else 0
  }

  ghost predicate InOrder(s: State) {
    s.pushed == s.popped + s.queue
  }

  const FAILED: int := -1

  // The failure message of a session, somewhere between the pipe and EndSession.
  ghost predicate FailurePending(s: State, sid: int) {
    || ConnectResult(sid, FAILED, false) in s.pipe
    || s.main == Handling(ConnectResult(sid, FAILED, false))
    || s.main == Ending(sid)
  }

  ghost predicate LateOk(s: State, w: Worker) {
    match w
    case LateRead(sid) => sid < s.nextId && (Count(SessionId, sid, s.sessions) > 0 ==> FailurePending(s, sid))
    case Sending(m, true) => m == ConnectResult(m.sid, FAILED, false)
    case _ => true
  }

  // A worker that still has to read its session's host gave it away with a failure message.
  ghost predicate LateReads(s: State) {
    forall w :: 0 <= w < |s.workers| ==> LateOk(s, s.workers[w])
  }

  ghost predicate Inv(s: State) {
    && Ordered(s.sessions, s.nextId)
    && OneCarrier(s)
    && FdsOpen(s)
    && InPairs(s.sockets)
    && Matched(s.sessions, s.sockets)
    && Counted(s)
    && InOrder(s)
    && LateReads(s)
  }

  // ---- Live ids ----

  lemma {:induction false} LiveIds(ss: seq<Session>, id: int)
    ensures Count(SessionId, id, ss) > 0 <==> Find(ss, id) < |ss|
  {
    if ss != [] {
      LiveIds(ss[1..], id);
    }
  }

  lemma {:induction false} IdsOnce(ss: seq<Session>, next: int, id: int)
    requires Ordered(ss, next)
    ensures Count(SessionId, id, ss) <= 1
  {
    if ss != [] {
      IdsOnce(ss[1..], next, id);
      LiveIds(ss[1..], id);
    }
  }

  // A carried session is live, and nothing else carries it.
  lemma CarriedIsLive(s: State, id: int)
    requires Ordered(s.sessions, s.nextId) && OneCarrier(s)
    ensures Carriers(s, id) == if Live(s, id) then 1 else 0
  {
    LiveIds(s.sessions, id);
    IdsOnce(s.sessions, s.nextId, id);
  }

  lemma SessionRemoved(ss: seq<Session>, id: int, v: int)
    requires Find(ss, id) < |ss|
    ensures Count(SessionId, v, ss) == Count(SessionId, v, Without(ss, id)) + One(Some(id), v)
    ensures Count(ClientFd, v, ss) == Count(ClientFd, v, Without(ss, id)) + One(Some(ss[Find(ss, id)].clientFd), v)
  {
    CountRemove(SessionId, v, ss, Find(ss, id));
    CountRemove(ClientFd, v, ss, Find(ss, id));
  }

  lemma WorkerUpdated(ws: seq<Worker>, w: nat, x: Worker, v: int)
    requires w < |ws|
    ensures Count(WorkerId, v, ws[w := x]) + One(WorkerId(ws[w]), v) == Count(WorkerId, v, ws) + One(WorkerId(x), v)
    ensures Count(WorkerFd, v, ws[w := x]) + One(WorkerFd(ws[w]), v) == Count(WorkerFd, v, ws) + One(WorkerFd(x), v)
  {
    CountUpdate(WorkerId, v, ws, w, x);
    CountUpdate(WorkerFd, v, ws, w, x);
  }

  // ---- Frames ----

  // One worker moves on; late reads of the others keep their failure message.
  lemma LateKept(s: State, t: State, w: nat)
    requires LateReads(s)
    requires |t.workers| == |s.workers| && s.nextId <= t.nextId
    requires forall k :: 0 <= k < |s.workers| && k != w ==> t.workers[k] == s.workers[k]
    requires w < |t.workers| ==> LateOk(t, t.workers[w])
    requires forall v :: v < s.nextId && Count(SessionId, v, t.sessions) > 0 ==>
      Count(SessionId, v, s.sessions) > 0 && (FailurePending(s, v) ==> FailurePending(t, v))
    ensures LateReads(t)
  {
    hide Count, FailurePending;
    forall k | 0 <= k < |t.workers| ensures LateOk(t, t.workers[k]) {
      assert k != w ==> LateOk(s, s.workers[k]);
    }
  }

  // Sessions that keep their ids and descriptors, whatever else changes in them.
  ghost predicate SameKeys(a: seq<Session>, b: seq<Session>) {
    |a| == |b| && forall i :: 0 <= i < |a| ==> a[i].id == b[i].id && a[i].clientFd == b[i].clientFd
  }

  lemma {:induction false} SameKeysCount(a: seq<Session>, b: seq<Session>, v: int)
    requires SameKeys(a, b)
    ensures Count(SessionId, v, a) == Count(SessionId, v, b)
    ensures Count(ClientFd, v, a) == Count(ClientFd, v, b)
    ensures Find(a, v) == Find(b, v)
  {
    if a != [] {
      SameKeysCount(a[1..], b[1..], v);
    }
  }

  lemma SameKeysOpen(s: State, t: State, v: int)
    requires SameKeys(s.sessions, t.sessions) && s.main == t.main
    ensures Count(ClientFd, v, OpenSessions(s)) == Count(ClientFd, v, OpenSessions(t))
  {
    hide Count;
    if s.main.Ending? {
      SameKeysCount(s.sessions, t.sessions, s.main.sid);
      SameKeysCount(Without(s.sessions, s.main.sid), Without(t.sessions, s.main.sid), v);
    } else {
      SameKeysCount(s.sessions, t.sessions, v);
    }
  }

  // ---- Worker steps ----

  lemma WakeMoves(s: State, w: nat, v: int)
    requires Enabled(s, Wake(w))
    ensures var t := s.(sem := s.sem - 1, workers := s.workers[w := Woken]);
      Carriers(t, v) == Carriers(s, v) && Owners(t, v) == Owners(s, v)
  {
    hide Count;
    WorkerUpdated(s.workers, w, Woken, v);
  }

  lemma WakeKeeps(s: State, w: nat)
    requires Inv(s) && Enabled(s, Wake(w))
    ensures Inv(s.(sem := s.sem - 1, workers := s.workers[w := Woken]))
  {
    hide InPairs, Matched, Ordered, Carriers, Owners, Count, LateReads, Sum;
    var t := s.(sem := s.sem - 1, workers := s.workers[w := Woken]);
    SumUpdate(IsWoken, s.workers, w, Woken);
    LateKept(s, t, w);
    forall v ensures Carriers(t, v) == Carriers(s, v) && Owners(t, v) == Owners(s, v) {
      WakeMoves(s, w, v);
    }
  }

  // A woken worker finds the queue non-empty.
  lemma PopFinds(s: State, w: nat)
    requires Counted(s) && w < |s.workers| && s.workers[w].Woken?
    ensures s.queue != []
  {
    SumUpdate(IsWoken, s.workers, w, Idle);
  }

  lemma PopMoves(s: State, w: nat, v: int)
    requires Enabled(s, Pop(w)) && s.queue != []
    ensures Carriers(DoPop(s, w), v) == Carriers(s, v) && Owners(DoPop(s, w), v) == Owners(s, v)
  {
    assert Count(WorkId, v, s.queue) == One(WorkId(s.queue[0]), v) + Count(WorkId, v, s.queue[1..]);
    hide Count;
    WorkerUpdated(s.workers, w, Running(s.queue[0]), v);
  }

  lemma PopsFront(s: State, w: nat)
    requires Enabled(s, Pop(w)) && InOrder(s)
    ensures InOrder(DoPop(s, w))
  {
    if s.queue != [] {
      assert s.queue == [s.queue[0]] + s.queue[1..];
    }
  }

  lemma PopKeeps(s: State, w: nat)
    requires Inv(s) && Enabled(s, Pop(w))
    ensures Inv(DoPop(s, w))
  {
    PopFinds(s, w);
    PopsFront(s, w);
    hide InOrder, InPairs, Matched, Ordered, Carriers, Owners, Count, LateReads, Sum;
    var t, x := DoPop(s, w), Running(s.queue[0]);
    SumUpdate(IsWoken, s.workers, w, x);
    LateKept(s, t, w);
    forall v ensures Carriers(t, v) == Carriers(s, v) && Owners(t, v) == Owners(s, v) {
      PopMoves(s, w, v);
    }
  }

  lemma DetectMoves(s: State, w: nat, d: Detected, v: int)
    requires Enabled(s, RunDetect(w, d))
    ensures var t := DoDetect(s, w, d);
      && SameKeys(s.sessions, t.sessions)
      && Carriers(t, v) == Carriers(s, v) && Owners(t, v) == Owners(s, v)
      && Count(SessionId, v, t.sessions) == Count(SessionId, v, s.sessions)
  {
    hide Count;
    var t := DoDetect(s, w, d);
    SameKeysCount(s.sessions, t.sessions, v);
    SameKeysOpen(s, t, v);
    WorkerUpdated(s.workers, w, t.workers[w], v);
  }

  lemma DetectKeeps(s: State, w: nat, d: Detected)
    requires Inv(s) && Enabled(s, RunDetect(w, d))
    ensures Inv(DoDetect(s, w, d))
  {
    hide InPairs, Carriers, Owners, Count, LateReads, Sum;
    var t := DoDetect(s, w, d);
    SumUpdate(IsWoken, s.workers, w, t.workers[w]);
    forall v ensures Carriers(t, v) == Carriers(s, v) && Owners(t, v) == Owners(s, v)
               && Count(SessionId, v, t.sessions) == Count(SessionId, v, s.sessions)
    {
      DetectMoves(s, w, d, v);
    }
    DetectMoves(s, w, d, 0);
    LateKept(s, t, w);
  }

  lemma ResolveMoves(s: State, w: nat, r: Resolved, v: int)
    requires Enabled(s, RunResolve(w, r))
    ensures var t := DoResolve(s, w, r);
      && Carriers(t, v) == Carriers(s, v)
      && Owners(t, v) == Owners(s, v) + if r == Opened(v) then 1 else 0
  {
    hide Count;
    WorkerUpdated(s.workers, w, DoResolve(s, w, r).workers[w], v);
  }

  lemma ResolveKeeps(s: State, w: nat, r: Resolved)
    requires Inv(s) && Enabled(s, RunResolve(w, r))
    ensures Inv(DoResolve(s, w, r))
  {
    hide InPairs, Matched, Ordered, Carriers, Owners, Count, LateReads, Sum;
    var t := DoResolve(s, w, r);
    SumUpdate(IsWoken, s.workers, w, t.workers[w]);
    LateKept(s, t, w);
    forall v ensures Carriers(t, v) == Carriers(s, v)
               && Owners(t, v) <= if v in t.open then 1 else 0 {
      ResolveMoves(s, w, r, v);
      assert Owners(s, v) <= if v in s.open then 1 else 0;
    }
  }

  lemma ConnectMoves(s: State, w: nat, connected: bool, v: int)
    requires Enabled(s, RunConnect(w, connected))
    ensures var t := DoConnect(s, w, connected);
      && Carriers(t, v) == Carriers(s, v)
      && Owners(t, v) + (if !connected && s.workers[w].fd == v then 1 else 0) == Owners(s, v)
  {
    hide Count;
    WorkerUpdated(s.workers, w, DoConnect(s, w, connected).workers[w], v);
  }

  lemma ConnectKeeps(s: State, w: nat, connected: bool)
    requires Inv(s) && Enabled(s, RunConnect(w, connected))
    ensures Inv(DoConnect(s, w, connected))
  {
    hide InPairs, Matched, Ordered, Carriers, Owners, Count, LateReads, Sum;
    var t := DoConnect(s, w, connected);
    SumUpdate(IsWoken, s.workers, w, t.workers[w]);
    LateKept(s, t, w);
    forall v ensures Carriers(t, v) == Carriers(s, v) && Owners(t, v) <= Owners(s, v) {
      ConnectMoves(s, w, connected, v);
    }
  }

  lemma SendMoves(s: State, w: nat, v: int)
    requires Enabled(s, Send(w))
    ensures Carriers(DoSend(s, w), v) == Carriers(s, v) && Owners(DoSend(s, w), v) == Owners(s, v)
  {
    hide Count;
    var m := s.workers[w].msg;
    CountSnoc(MessageId, v, s.pipe, m);
    CountSnoc(MessageFd, v, s.pipe, m);
    WorkerUpdated(s.workers, w, DoSend(s, w).workers[w], v);
  }

  // What a busy worker carries is a live session, with an id already given out.
  lemma WorkerLive(s: State, w: nat, sid: int)
    requires Ordered(s.sessions, s.nextId) && OneCarrier(s)
    requires w < |s.workers| && WorkerId(s.workers[w]) == Some(sid)
    ensures Live(s, sid) && sid < s.nextId
  {
    CountHas(WorkerId, sid, s.workers, w);
    CarriedIsLive(s, sid);
  }

  lemma SendLate(s: State, w: nat)
    requires Inv(s) && Enabled(s, Send(w))
    ensures LateReads(DoSend(s, w))
  {
    WorkerLive(s, w, s.workers[w].msg.sid);
    assert LateOk(s, s.workers[w]);
    hide Inv, Count;
    var t, m := DoSend(s, w), s.workers[w].msg;
    assert m in t.pipe;
    LateKept(s, t, w);
  }

  lemma SendShape(s: State, w: nat)
    requires Enabled(s, Send(w))
    ensures w < |s.workers| && s.workers[w].Sending?
    ensures var t := DoSend(s, w);
      && t.workers == s.workers[w := t.workers[w]] && IsWoken(t.workers[w]) == IsWoken(s.workers[w]) == 0
      && t == s.(workers := t.workers, pipe := t.pipe)
  {}

  lemma SendKeeps(s: State, w: nat)
    requires Inv(s) && Enabled(s, Send(w))
    ensures Inv(DoSend(s, w))
  {
    SendLate(s, w);
    hide InOrder, InPairs, Matched, Ordered, Carriers, Owners, Count, LateReads, Sum, SessionId, Enabled;
    SendShape(s, w);
    hide DoSend;
    SumUpdate(IsWoken, s.workers, w, DoSend(s, w).workers[w]);
    forall v ensures Carriers(DoSend(s, w), v) == Carriers(s, v) && Owners(DoSend(s, w), v) == Owners(s, v) {
      SendMoves(s, w, v);
    }
  }

  lemma ReadHostKeeps(s: State, w: nat)
    requires Inv(s) && Enabled(s, ReadHost(w))
    ensures Inv(s.(workers := s.workers[w := Idle]))
  {
    hide InPairs, Matched, Ordered, Carriers, Owners, Count, LateReads, Sum;
    var t := s.(workers := s.workers[w := Idle]);
    SumUpdate(IsWoken, s.workers, w, Idle);
    LateKept(s, t, w);
    forall v ensures Carriers(t, v) == Carriers(s, v) && Owners(t, v) == Owners(s, v) {
      ReadHostMoves(s, w, v);
    }
  }

  lemma ReadHostMoves(s: State, w: nat, v: int)
    requires Enabled(s, ReadHost(w))
    ensures var t := s.(workers := s.workers[w := Idle]);
      Carriers(t, v) == Carriers(s, v) && Owners(t, v) == Owners(s, v)
  {
    hide Count;
    WorkerUpdated(s.workers, w, Idle, v);
  }

  // ---- Dispatch-thread steps ----

  lemma AcceptFinds(s: State, fd: int, ip: string, memory: Counts)
    requires Inv(s) && Enabled(s, Accept(fd, ip, memory))
    ensures forall i :: 0 <= i < |s.sessions| ==> s.sessions[i].clientFd != fd
    ensures DoAccept(s, fd, ip, memory).sessions == s.sessions + [NewSession(s.nextId, fd, ip, memory)]
    ensures DoAccept(s, fd, ip, memory).queue == s.queue + [Detect(s.nextId)]
    ensures DoAccept(s, fd, ip, memory).pushed == s.pushed + [Detect(s.nextId)]
  {
    forall i | 0 <= i < |s.sessions| ensures s.sessions[i].clientFd != fd {
      CountHas(ClientFd, s.sessions[i].clientFd, s.sessions, i);
      assert Owners(s, s.sessions[i].clientFd) >= 1;
    }
    hide Inv;
    var ss := s.sessions + [NewSession(s.nextId, fd, "", memory)];
    assert FindByFd(ss, fd) == |s.sessions| by {
      assert ss[|s.sessions|].clientFd == fd;
      assert forall i :: 0 <= i < |s.sessions| ==> ss[i].clientFd != fd;
    }
  }

  lemma AcceptMoves(s: State, fd: int, ip: string, memory: Counts, v: int)
    requires Inv(s) && Enabled(s, Accept(fd, ip, memory))
    ensures var t := DoAccept(s, fd, ip, memory);
      && Count(SessionId, v, t.sessions) == Count(SessionId, v, s.sessions) + One(Some(s.nextId), v)
      && Carriers(t, v) == Carriers(s, v) + One(Some(s.nextId), v)
      && Owners(t, v) == Owners(s, v) + One(Some(fd), v)
  {
    AcceptFinds(s, fd, ip, memory);
    hide Count, Inv;
    var x := NewSession(s.nextId, fd, ip, memory);
    CountSnoc(SessionId, v, s.sessions, x);
    CountSnoc(ClientFd, v, s.sessions, x);
    CountSnoc(WorkId, v, s.queue, Detect(s.nextId));
  }

  lemma AcceptLate(s: State, fd: int, ip: string, memory: Counts)
    requires Inv(s) && Enabled(s, Accept(fd, ip, memory))
    ensures LateReads(DoAccept(s, fd, ip, memory))
  {
    var t := DoAccept(s, fd, ip, memory);
    forall v ensures Count(SessionId, v, t.sessions) == Count(SessionId, v, s.sessions) + One(Some(s.nextId), v) {
      AcceptMoves(s, fd, ip, memory, v);
    }
    hide Inv, Count;
    LateKept(s, t, |s.workers|);
  }

  lemma AcceptKeeps(s: State, fd: int, ip: string, memory: Counts)
    requires Inv(s) && Enabled(s, Accept(fd, ip, memory))
    ensures Inv(DoAccept(s, fd, ip, memory))
  {
    hide InPairs, Matched, Carriers, Owners, Count, LateReads, Sum, FindByFd, SessionId;
    AcceptLate(s, fd, ip, memory);
    AcceptFinds(s, fd, ip, memory);
    AcceptMatched(s, fd, ip, memory);
    var t := DoAccept(s, fd, ip, memory);
    forall v ensures Count(SessionId, v, t.sessions) == Count(SessionId, v, s.sessions) + One(Some(s.nextId), v)
               && Carriers(t, v) == Carriers(s, v) + One(Some(s.nextId), v)
               && Owners(t, v) <= if v in t.open then 1 else 0 {
      AcceptMoves(s, fd, ip, memory, v);
      assert Owners(s, v) <= if v in s.open then 1 else 0;
    }
  }

  // A client-side socket belongs to a live session, so its id is not new.
  lemma SocketLive(s: State, k: nat)
    requires Ordered(s.sessions, s.nextId) && OneCarrier(s)
    requires k < |s.sockets| && PairId(s.sockets[k]).Some?
    ensures Live(s, s.sockets[k].sid) && s.sockets[k].sid < s.nextId
  {
    CountHas(PairId, s.sockets[k].sid, s.sockets, k);
    CarriedIsLive(s, s.sockets[k].sid);
  }

  lemma AcceptMatched(s: State, fd: int, ip: string, memory: Counts)
    requires Inv(s) && Enabled(s, Accept(fd, ip, memory))
    ensures Matched(DoAccept(s, fd, ip, memory).sessions, s.sockets)
  {
    AcceptFinds(s, fd, ip, memory);
    forall k | 0 <= k < |s.sockets| && PairId(s.sockets[k]).Some? ensures s.sockets[k].sid < s.nextId {
      SocketLive(s, k);
    }
  }

  lemma PostKeeps(s: State)
    requires Inv(s) && Enabled(s, Post)
    ensures Inv(s.(sem := s.sem + 1, main := Waiting))
  {
    hide InPairs, Matched, Ordered, Count, LateReads, Sum;
    var t := s.(sem := s.sem + 1, main := Waiting);
    assert forall v :: Carriers(t, v) == Carriers(s, v) && Owners(t, v) == Owners(s, v);
    LateKept(s, t, |s.workers|);
  }

  lemma ReadMoves(s: State, v: int)
    requires Enabled(s, ReadMessage)
    ensures var t := s.(pipe := s.pipe[1..], main := Handling(s.pipe[0]));
      Carriers(t, v) == Carriers(s, v) && Owners(t, v) == Owners(s, v)
  {
    assert Count(MessageId, v, s.pipe) == One(MessageId(s.pipe[0]), v) + Count(MessageId, v, s.pipe[1..]);
    assert Count(MessageFd, v, s.pipe) == One(MessageFd(s.pipe[0]), v) + Count(MessageFd, v, s.pipe[1..]);
  }

  lemma ReadKeeps(s: State)
    requires Inv(s) && Enabled(s, ReadMessage)
    ensures Inv(s.(pipe := s.pipe[1..], main := Handling(s.pipe[0])))
  {
    var t := s.(pipe := s.pipe[1..], main := Handling(s.pipe[0]));
    hide InPairs, Matched, Ordered, Carriers, Owners, Count, LateReads, Sum;
    assert s.pipe == [s.pipe[0]] + s.pipe[1..];
    forall v ensures Carriers(t, v) == Carriers(s, v) && Owners(t, v) == Owners(s, v) {
      ReadMoves(s, v);
    }
    LateKept(s, t, |s.workers|);
  }

  lemma FinishMoves(s: State, v: int)
    requires Inv(s) && Enabled(s, Finish)
    ensures var t := s.(sessions := Without(s.sessions, s.main.sid), main := Waiting);
      && Carriers(s, v) == Carriers(t, v) + One(Some(s.main.sid), v)
      && Owners(t, v) == Owners(s, v)
      && Count(SessionId, v, s.sessions) == Count(SessionId, v, t.sessions) + One(Some(s.main.sid), v)
  {
    CarriedIsLive(s, s.main.sid);
    hide Count, Inv;
    SessionRemoved(s.sessions, s.main.sid, v);
  }

  lemma WithoutKeeps(ss: seq<Session>, next: int, ks: seq<Socket>, id: int)
    requires Ordered(ss, next) && Matched(ss, ks)
    ensures Ordered(Without(ss, id), next) && Matched(Without(ss, id), ks)
  {
    var e, rest := Find(ss, id), Without(ss, id);
    assert forall j :: 0 <= j < |rest| ==> rest[j] == ss[if e < |ss| && e <= j then j + 1 else j];
  }

  lemma FinishLate(s: State)
    requires Inv(s) && Enabled(s, Finish)
    ensures LateReads(s.(sessions := Without(s.sessions, s.main.sid), main := Waiting))
  {
    var t := s.(sessions := Without(s.sessions, s.main.sid), main := Waiting);
    IdsOnce(s.sessions, s.nextId, s.main.sid);
    forall v ensures Count(SessionId, v, s.sessions) == Count(SessionId, v, t.sessions) + One(Some(s.main.sid), v) {
      FinishMoves(s, v);
    }
    hide Inv, Count, Without;
    LateKept(s, t, |s.workers|);
  }

  lemma FinishKeeps(s: State)
    requires Inv(s) && Enabled(s, Finish)
    ensures Inv(s.(sessions := Without(s.sessions, s.main.sid), main := Waiting))
  {
    hide InPairs, Matched, Ordered, LateReads, Sum, Without, Carriers, Owners, Count, SessionId;
    var t := s.(sessions := Without(s.sessions, s.main.sid), main := Waiting);
    FinishLate(s);
    WithoutKeeps(s.sessions, s.nextId, s.sockets, s.main.sid);
    forall v ensures Carriers(s, v) == Carriers(t, v) + One(Some(s.main.sid), v)
               && Owners(t, v) == Owners(s, v)
               && Count(SessionId, v, s.sessions) == Count(SessionId, v, t.sessions) + One(Some(s.main.sid), v) {
      FinishMoves(s, v);
    }
  }

  // Closing a client: its session is no longer open, and nobody else used the descriptor.
  lemma CloseMoves(s: State, i: nat, v: int)
    requires Inv(s) && s.main.Handling? && i < |s.sessions| && s.sessions[i].id == s.main.msg.sid
    requires MainFd(s.main).None?
    ensures var t := CloseClient(s, s.sessions[i]);
      && Carriers(t, v) == Carriers(s, v)
      && Owners(s, v) == Owners(t, v) + One(Some(s.sessions[i].clientFd), v)
  {
    assert Find(s.sessions, s.sessions[i].id) == i;
    hide Count, Inv;
    SessionRemoved(s.sessions, s.sessions[i].id, v);
  }

  lemma CloseLate(s: State, i: nat)
    requires LateReads(s) && s.main.Handling? && i < |s.sessions| && s.sessions[i].id == s.main.msg.sid
    ensures LateReads(CloseClient(s, s.sessions[i]))
  {
    hide Count;
    LateKept(s, CloseClient(s, s.sessions[i]), |s.workers|);
  }

  lemma CloseKeeps(s: State, i: nat)
    requires Inv(s) && s.main.Handling? && i < |s.sessions| && s.sessions[i].id == s.main.msg.sid
    requires MainFd(s.main).None?
    ensures Inv(CloseClient(s, s.sessions[i]))
  {
    var t := CloseClient(s, s.sessions[i]);
    CloseLate(s, i);
    hide InPairs, Matched, Ordered, Carriers, Owners, Count, LateReads, Sum, SessionId;
    forall v ensures Carriers(t, v) == Carriers(s, v)
               && Owners(t, v) <= if v in t.open then 1 else 0 {
      CloseMoves(s, i, v);
      assert Owners(s, v) <= if v in s.open then 1 else 0;
    }
  }

  lemma SameKeysMoves(s: State, t: State, v: int)
    requires SameKeys(s.sessions, t.sessions)
    requires t == s.(sessions := t.sessions)
    ensures Carriers(t, v) == Carriers(s, v) && Owners(t, v) == Owners(s, v)
    ensures Count(SessionId, v, t.sessions) == Count(SessionId, v, s.sessions)
  {
    hide Count;
    SameKeysCount(s.sessions, t.sessions, v);
    SameKeysOpen(s, t, v);
  }

  // Whatever else changes in the sessions, the invariant only sees ids and descriptors.
  lemma SameKeysKeep(s: State, t: State)
    requires Inv(s) && SameKeys(s.sessions, t.sessions)
    requires t == s.(sessions := t.sessions)
    ensures Inv(t)
  {
    assert Ordered(t.sessions, t.nextId) && Matched(t.sessions, t.sockets);
    hide InPairs, Matched, Ordered, Carriers, Owners, Count, LateReads, Sum;
    forall v ensures Carriers(t, v) == Carriers(s, v) && Owners(t, v) == Owners(s, v)
               && Count(SessionId, v, t.sessions) == Count(SessionId, v, s.sessions) {
      SameKeysMoves(s, t, v);
    }
    LateKept(s, t, |s.workers|);
  }

  lemma SetUserKeeps(s: State, i: nat, user: string)
    requires Inv(s) && i < |s.sessions|
    ensures Inv(SetUser(s, i, user))
  {
    SameKeysKeep(s, SetUser(s, i, user));
  }

  lemma ConnectPushedMoves(s: State, sid: int, v: int)
    requires s.main == Handling(DetectResult(sid, true))
    ensures var t := Push(s, Connect(sid));
      Carriers(t, v) == Carriers(s, v) && Owners(t, v) == Owners(s, v)
  {
    hide Count;
    CountSnoc(WorkId, v, s.queue, Connect(sid));
  }

  lemma ConnectPushedKeeps(s: State, sid: int)
    requires Inv(s) && s.main == Handling(DetectResult(sid, true))
    ensures Inv(Push(s, Connect(sid)))
  {
    var t := Push(s, Connect(sid));
    hide InPairs, Matched, Ordered, Carriers, Owners, Count, LateReads, Sum;
    forall v ensures Carriers(t, v) == Carriers(s, v) && Owners(t, v) == Owners(s, v) {
      ConnectPushedMoves(s, sid, v);
    }
    LateKept(s, t, |s.workers|);
  }

  lemma DeniedMoves(s: State, sid: int, v: int)
    requires s.main == Handling(DetectResult(sid, true))
    ensures var t := s.(pipe := s.pipe + [ConnectResult(sid, FAILED, false)], main := Waiting);
      Carriers(t, v) == Carriers(s, v) && Owners(t, v) == Owners(s, v)
  {
    hide Count;
    CountSnoc(MessageId, v, s.pipe, ConnectResult(sid, FAILED, false));
    CountSnoc(MessageFd, v, s.pipe, ConnectResult(sid, FAILED, false));
  }

  lemma DeniedKeeps(s: State, sid: int)
    requires Inv(s) && s.main == Handling(DetectResult(sid, true))
    ensures Inv(s.(pipe := s.pipe + [ConnectResult(sid, FAILED, false)], main := Waiting))
  {
    var t := s.(pipe := s.pipe + [ConnectResult(sid, FAILED, false)], main := Waiting);
    hide InPairs, Matched, Ordered, Carriers, Owners, Count, LateReads, Sum;
    forall v ensures Carriers(t, v) == Carriers(s, v) && Owners(t, v) == Owners(s, v) {
      DeniedMoves(s, sid, v);
    }
    LateKept(s, t, |s.workers|);
  }

  lemma EstablishMoves(s: State, i: nat, fd: int, v: int)
    requires i < |s.sessions| && s.main == Handling(ConnectResult(s.sessions[i].id, fd, true))
    ensures var t := s.(sockets := s.sockets + PairOf(s.sessions[i], fd), main := Waiting);
      Carriers(t, v) == Carriers(s, v) && Owners(t, v) == Owners(s, v)
  {
    hide Count;
    var pair := PairOf(s.sessions[i], fd);
    assert s.sockets + pair == s.sockets + [pair[0]] + [pair[1]];
    CountSnoc(PairId, v, s.sockets, pair[0]);
    CountSnoc(PairId, v, s.sockets + [pair[0]], pair[1]);
    CountSnoc(SocketFd, v, s.sockets, pair[0]);
    CountSnoc(SocketFd, v, s.sockets + [pair[0]], pair[1]);
  }

  lemma EstablishKeeps(s: State, i: nat, fd: int)
    requires Inv(s) && i < |s.sessions| && s.main == Handling(ConnectResult(s.sessions[i].id, fd, true))
    ensures Inv(s.(sockets := s.sockets + PairOf(s.sessions[i], fd), main := Waiting))
  {
    var t := s.(sockets := s.sockets + PairOf(s.sessions[i], fd), main := Waiting);
    EstablishPairs(s, i, fd);
    hide InPairs, Matched, Ordered, Carriers, Owners, Count, LateReads, Sum;
    forall v ensures Carriers(t, v) == Carriers(s, v) && Owners(t, v) == Owners(s, v) {
      EstablishMoves(s, i, fd, v);
    }
    LateKept(s, t, |s.workers|);
  }

  lemma EstablishPairs(s: State, i: nat, fd: int)
    requires Inv(s) && i < |s.sessions|
    ensures InPairs(s.sockets + PairOf(s.sessions[i], fd))
    ensures Matched(s.sessions, s.sockets + PairOf(s.sessions[i], fd))
  {
    hide OneCarrier, FdsOpen, Counted, InOrder, LateReads;
    var ks, pair := s.sockets, PairOf(s.sessions[i], fd);
    forall k | 1 <= k < |ks + pair| / 2 ensures Mirrored((ks + pair)[2 * k], (ks + pair)[2 * k + 1]) {
      if k < |ks| / 2 {
        assert Mirrored(ks[2 * k], ks[2 * k + 1]);
      }
    }
  }

  lemma DetectResultKeeps(cfg: Config, s: State, i: nat, ok: bool, clock: Option<LocalTime>)
    requires Inv(s) && i < |s.sessions| && s.main == Handling(DetectResult(s.sessions[i].id, ok))
    ensures Inv(DoDetectResult(cfg, s, i, ok, clock))
  {
    hide Inv, UserAuth.Decide, Policy.Allowed;
    if !ok {
      CloseKeeps(s, i);
    } else {
      var x, d := s.sessions[i], Decision(cfg, s.sessions[i], clock);
      var t := SetUser(s, i, d.user);
      SetUserKeeps(s, i, d.user);
      if d.Admit? {
        ConnectPushedKeeps(t, x.id);
        DeniedKeeps(t, x.id);
      } else {
        CloseKeeps(t, i);
      }
    }
  }

  lemma HandleKeeps(cfg: Config, s: State, clock: Option<LocalTime>)
    requires Inv(s) && Enabled(s, Handle(clock))
    ensures Inv(DoHandle(cfg, s, clock))
  {
    hide Inv;
    var i := Find(s.sessions, s.main.msg.sid);
    if i < |s.sessions| {
      match s.main.msg
      case DetectResult(_, ok) => DetectResultKeeps(cfg, s, i, ok, clock);
      case ConnectResult(_, fd, ok) =>
        if ok {
          EstablishKeeps(s, i, fd);
        } else {
          CloseKeeps(s, i);
        }
    }
  }

  // ---- Socket pairs ----

  // The client side of a pair carries its session, which is still open, under the same descriptor.
  lemma ClientSideOpen(s: State, k: nat) returns (p: nat)
    requires Inv(s) && k < |s.sockets| && PairId(s.sockets[k]).Some?
    ensures Live(s, s.sockets[k].sid) && s.main != Ending(s.sockets[k].sid)
    ensures s.sessions[Find(s.sessions, s.sockets[k].sid)].clientFd == s.sockets[k].fd
    ensures p < |OpenSessions(s)|
    ensures OpenSessions(s)[p].id == s.sockets[k].sid && OpenSessions(s)[p].clientFd == s.sockets[k].fd
  {
    var sid := s.sockets[k].sid;
    CountHas(PairId, sid, s.sockets, k);
    CarriedIsLive(s, sid);
    hide Count;
    var j := Find(s.sessions, sid);
    p := if s.main.Ending? && Find(s.sessions, s.main.sid) < j then j - 1 else j;
    assert OpenSessions(s)[p] == s.sessions[j];
  }

  lemma PairIdsDistinct(s: State, i: nat, j: nat)
    requires Inv(s) && i < j < |s.sockets|
    requires PairId(s.sockets[i]).Some? && PairId(s.sockets[j]).Some?
    ensures s.sockets[i].sid != s.sockets[j].sid
  {
    if s.sockets[i].sid == s.sockets[j].sid {
      CountTwo(PairId, s.sockets[i].sid, s.sockets, i, j);
      CarriedIsLive(s, s.sockets[i].sid);
    }
  }

  // Two sockets on one descriptor would be two owners of it.
  lemma TwoOwners(s: State, i: nat, j: nat)
    requires Inv(s) && i < j < |s.sockets| && s.sockets[i].fd == s.sockets[j].fd
    ensures Owners(s, s.sockets[i].fd) >= 2
  {
    var fd, a, b := s.sockets[i].fd, PairId(s.sockets[i]), PairId(s.sockets[j]);
    if a.None? && b.None? {
      CountTwo(SocketFd, fd, s.sockets, i, j);
    } else {
      var p := ClientSideOpen(s, if a.Some? then i else j);
      if a.Some? && b.Some? {
        var q := ClientSideOpen(s, j);
        PairIdsDistinct(s, i, j);
        CountTwo(ClientFd, fd, OpenSessions(s), if p < q then p else q, if p < q then q else p);
      } else {
        CountHas(ClientFd, fd, OpenSessions(s), p);
        CountHas(SocketFd, fd, s.sockets, if a.Some? then j else i);
      }
    }
  }

  // Registered descriptors are distinct.
  lemma SocketFdsDistinct(s: State, i: nat, j: nat)
    requires Inv(s) && i < j < |s.sockets|
    ensures s.sockets[i].fd != s.sockets[j].fd
  {
    if s.sockets[i].fd == s.sockets[j].fd {
      TwoOwners(s, i, j);
    }
  }

  // The index of the other half of a pair.
  ghost function Other(i: nat): nat {
    if i % 2 == 0 then i + 1 else i - 1
  }

  lemma PeerOf(ks: seq<Socket>, i: nat)
    requires InPairs(ks) && 2 <= i < |ks|
    ensures 2 <= Other(i) < |ks| && ks[i].Client? && ks[Other(i)].Client?
    ensures ks[i].peer == ks[Other(i)].fd && ks[Other(i)].peer == ks[i].fd
    ensures ks[i].sid == ks[Other(i)].sid && ks[i].toServer == (i % 2 == 0) == !ks[Other(i)].toServer
  {
    assert Mirrored(ks[2 * (i / 2)], ks[2 * (i / 2) + 1]);
  }

  // Tearing down removes exactly the two halves of one pair.
  ghost function DropPair(ks: seq<Socket>, i: nat): seq<Socket>
    requires i < |ks| && i / 2 * 2 + 2 <= |ks|
  {
    ks[..i / 2 * 2] + ks[i / 2 * 2 + 2..]
  }

  lemma BothRemoved(ks: seq<Socket>, i: nat)
    requires i < |ks| && Other(i) < |ks| && i / 2 * 2 + 2 <= |ks|
    ensures var at := if Other(i) < i then Other(i) else Other(i) - 1;
      RemoveAt(RemoveAt(ks, i), at) == DropPair(ks, i)
  {
    hide RemoveAt;
    RemovedTwice(ks, i / 2 * 2);
  }

  lemma RemovedTwice(ks: seq<Socket>, b: nat)
    requires b + 2 <= |ks|
    ensures RemoveAt(RemoveAt(ks, b), b) == RemoveAt(RemoveAt(ks, b + 1), b) == ks[..b] + ks[b + 2..]
  {
    var r, q := ks[..b] + ks[b + 1..], ks[..b + 1] + ks[b + 2..];
    assert r[..b] == ks[..b] == q[..b];
    assert r[b + 1..] == ks[b + 2..] == q[b + 1..];
  }

  lemma UnregisterPeer(ks: seq<Socket>, i: nat)
    requires 2 <= i < |ks| && Other(i) < |ks| && i / 2 * 2 + 2 <= |ks|
    requires forall k :: 0 <= k < |ks| && k != Other(i) ==> ks[k].fd != ks[Other(i)].fd
    ensures Unregister(RemoveAt(ks, i), ks[Other(i)].fd) == DropPair(ks, i)
  {
    var rest, o := RemoveAt(ks, i), Other(i);
    var at := if o < i then o else o - 1;
    assert rest[at] == ks[o];
    forall k | 0 <= k < at ensures rest[k].fd != ks[o].fd {
      assert rest[k] == ks[if k < i then k else k + 1];
    }
    assert FindSocket(rest, ks[o].fd) == at;
    BothRemoved(ks, i);
    hide RemoveAt, DropPair;
  }

  lemma TearDownDrops(s: State, i: nat)
    requires Inv(s) && 2 <= i < |s.sockets| && s.sockets[i].Client?
    ensures Unregister(RemoveAt(s.sockets, i), s.sockets[i].peer) == DropPair(s.sockets, i)
  {
    PeerOf(s.sockets, i);
    hide Inv, InPairs;
    var o := Other(i);
    forall k | 0 <= k < |s.sockets| && k != o ensures s.sockets[k].fd != s.sockets[o].fd {
      SocketFdsDistinct(s, if k < o then k else o, if k < o then o else k);
    }
    UnregisterPeer(s.sockets, i);
  }

  lemma {:induction false} DropPairCount(ks: seq<Socket>, key: Socket -> Option<int>, i: nat, v: int)
    requires i < |ks| && i / 2 * 2 + 2 <= |ks|
    ensures var b := i / 2 * 2;
      Count(key, v, ks) == Count(key, v, DropPair(ks, i)) + One(key(ks[b]), v) + One(key(ks[b + 1]), v)
  {
    var b := i / 2 * 2;
    CountRemove(key, v, ks, b);
    var rest := ks[..b] + ks[b + 1..];
    assert rest[b] == ks[b + 1];
    CountRemove(key, v, rest, b);
    assert rest[..b] + rest[b + 1..] == DropPair(ks, i);
  }

  lemma DropPairPairs(ks: seq<Socket>, ss: seq<Session>, i: nat)
    requires InPairs(ks) && Matched(ss, ks) && 2 <= i < |ks|
    ensures InPairs(DropPair(ks, i)) && Matched(ss, DropPair(ks, i))
  {
    var rest, p := DropPair(ks, i), i / 2;
    assert forall k :: 0 <= k < |rest| ==> rest[k] == ks[if k < 2 * p then k else k + 2];
    forall k | 1 <= k < |rest| / 2 ensures Mirrored(rest[2 * k], rest[2 * k + 1]) {
      var k' := if k < p then k else k + 1;
      assert Mirrored(ks[2 * k'], ks[2 * k' + 1]);
    }
  }

  lemma TearDownShape(s: State, i: nat)
    requires Inv(s) && s.main.Waiting? && 2 <= i < |s.sockets| && s.sockets[i].Client?
    ensures i / 2 * 2 + 2 <= |s.sockets|
    ensures TearDown(s, i) == s.(sockets := DropPair(s.sockets, i),
      open := s.open - {s.sockets[i].fd, s.sockets[i].peer}, main := Ending(s.sockets[i].sid))
  {
    TearDownDrops(s, i);
    hide Inv, InPairs, Unregister, RemoveAt, DropPair;
  }

  lemma PairCounts(ks: seq<Socket>, i: nat, v: int)
    requires InPairs(ks) && 2 <= i < |ks| && ks[i].Client?
    ensures i / 2 * 2 + 2 <= |ks|
    ensures Count(PairId, v, ks) == Count(PairId, v, DropPair(ks, i)) + One(Some(ks[i].sid), v)
    ensures Count(SocketFd, v, ks) == Count(SocketFd, v, DropPair(ks, i)) + One(Some(ks[i / 2 * 2 + 1].fd), v)
  {
    PeerOf(ks, i / 2 * 2);
    PeerOf(ks, i);
    hide Count, InPairs, DropPair;
    DropPairCount(ks, PairId, i, v);
    DropPairCount(ks, SocketFd, i, v);
  }

  lemma PairClient(s: State, i: nat, v: int)
    requires Inv(s) && s.main.Waiting? && 2 <= i < |s.sockets| && s.sockets[i].Client?
    ensures i / 2 * 2 < |s.sockets|
    ensures Count(ClientFd, v, s.sessions)
      == Count(ClientFd, v, Without(s.sessions, s.sockets[i].sid)) + One(Some(s.sockets[i / 2 * 2].fd), v)
  {
    var b := i / 2 * 2;
    PeerOf(s.sockets, b);
    PeerOf(s.sockets, i);
    var p := ClientSideOpen(s, b);
    hide Inv, InPairs, Count, Without;
    SessionRemoved(s.sessions, s.sockets[b].sid, v);
  }

  lemma PairFds(ks: seq<Socket>, i: nat, v: int)
    requires InPairs(ks) && 2 <= i < |ks|
    ensures i / 2 * 2 + 2 <= |ks| && ks[i].Client?
    ensures One(Some(ks[i].fd), v) + One(Some(ks[i].peer), v)
      == One(Some(ks[i / 2 * 2].fd), v) + One(Some(ks[i / 2 * 2 + 1].fd), v)
  {
    PeerOf(ks, i);
    hide InPairs, One;
  }

  lemma TearDownMoves(s: State, i: nat, v: int)
    requires Inv(s) && s.main.Waiting? && 2 <= i < |s.sockets| && s.sockets[i].Client?
    ensures var t := TearDown(s, i);
      && Carriers(t, v) == Carriers(s, v)
      && Owners(s, v) == Owners(t, v) + One(Some(s.sockets[i].fd), v) + One(Some(s.sockets[i].peer), v)
  {
    PairCounts(s.sockets, i, v);
    hide Inv, InPairs, Count, Without, TearDown, DropPair;
    TearDownShape(s, i);
    PairClient(s, i, v);
    assert InPairs(s.sockets) by { PairsOf(s); }
    PairFds(s.sockets, i, v);
  }

  lemma PairsOf(s: State)
    requires Inv(s)
    ensures InPairs(s.sockets)
  {
    hide InPairs;
  }

  lemma TearDownLate(s: State, i: nat)
    requires Inv(s) && s.main.Waiting? && i < |s.sockets| && s.sockets[i].Client?
    ensures LateReads(TearDown(s, i))
  {
    hide Count, Unregister, RemoveAt;
    LateKept(s, TearDown(s, i), |s.workers|);
  }

  lemma TearDownCountsAt(s: State, i: nat, v: int)
    requires Inv(s) && s.main.Waiting? && 2 <= i < |s.sockets| && s.sockets[i].Client?
    ensures var t := TearDown(s, i);
      Carriers(t, v) == Count(SessionId, v, t.sessions) && Owners(t, v) <= if v in t.open then 1 else 0
  {
    hide Inv, Carriers, Owners, Count, TearDown, DropPair, SessionId;
    TearDownShape(s, i);
    TearDownMoves(s, i, v);
    CountsOf(s, v);
  }

  lemma TearDownCounts(s: State, i: nat)
    requires Inv(s) && s.main.Waiting? && 2 <= i < |s.sockets| && s.sockets[i].Client?
    ensures OneCarrier(TearDown(s, i)) && FdsOpen(TearDown(s, i))
  {
    hide Inv, Carriers, Owners, Count, TearDown, SessionId;
    var t := TearDown(s, i);
    forall v ensures Carriers(t, v) == Count(SessionId, v, t.sessions)
               && Owners(t, v) <= if v in t.open then 1 else 0 {
      TearDownCountsAt(s, i, v);
    }
  }

  lemma CountsOf(s: State, v: int)
    requires Inv(s)
    ensures Carriers(s, v) == Count(SessionId, v, s.sessions) && Owners(s, v) <= if v in s.open then 1 else 0
  {
    hide Carriers, Owners, Count;
  }

  lemma TearDownOthers(s: State, i: nat)
    requires Inv(s) && s.main.Waiting? && 2 <= i < |s.sockets| && s.sockets[i].Client?
    ensures var t := TearDown(s, i);
      Ordered(t.sessions, t.nextId) && InPairs(t.sockets) && Matched(t.sessions, t.sockets) && Counted(t) && InOrder(t)
  {
    TearDownShape(s, i);
    hide TearDown, DropPair, OneCarrier, FdsOpen, LateReads, Ordered, Sum, InPairs, Matched;
    DropPairPairs(s.sockets, s.sessions, i);
  }

  lemma FirstTwoFixed(s: State, i: nat)
    requires Inv(s) && i < |s.sockets| && s.sockets[i].Client?
    ensures 2 <= i
  {}

  lemma TearDownKeeps(s: State, i: nat)
    requires Inv(s) && s.main.Waiting? && i < |s.sockets| && s.sockets[i].Client?
    ensures Inv(TearDown(s, i))
  {
    FirstTwoFixed(s, i);
    TearDownCounts(s, i);
    TearDownOthers(s, i);
    TearDownLate(s, i);
    hide TearDown, Ordered, OneCarrier, FdsOpen, InPairs, Matched, Counted, InOrder, LateReads;
  }

  lemma FlowMoves(s: State, i: nat, flow: Flow, v: int)
    requires i < |s.sockets| && s.sockets[i].Client?
    ensures var t := s.(sockets := s.sockets[i := s.sockets[i].(flow := flow)]);
      Carriers(t, v) == Carriers(s, v) && Owners(t, v) == Owners(s, v)
  {
    hide Count;
    CountUpdate(PairId, v, s.sockets, i, s.sockets[i].(flow := flow));
    CountUpdate(SocketFd, v, s.sockets, i, s.sockets[i].(flow := flow));
  }

  lemma FlowKeeps(s: State, i: nat, flow: Flow)
    requires Inv(s) && i < |s.sockets| && s.sockets[i].Client?
    ensures Inv(s.(sockets := s.sockets[i := s.sockets[i].(flow := flow)]))
  {
    var t := s.(sockets := s.sockets[i := s.sockets[i].(flow := flow)]);
    assert InPairs(t.sockets) by {
      forall k | 1 <= k < |t.sockets| / 2 ensures Mirrored(t.sockets[2 * k], t.sockets[2 * k + 1]) {
        assert Mirrored(s.sockets[2 * k], s.sockets[2 * k + 1]);
      }
    }
    assert Matched(t.sessions, t.sockets);
    hide InPairs, Matched, Ordered, LateReads, Sum, Count, Carriers, Owners;
    forall v ensures Carriers(t, v) == Carriers(s, v) && Owners(t, v) == Owners(s, v) {
      FlowMoves(s, i, flow, v);
    }
    LateKept(s, t, |s.workers|);
  }

  lemma RelayKeeps(s: State, fd: int, answer: ReadAnswer, outs: seq<WriteAnswer>)
    requires Inv(s) && Enabled(s, Relay(fd, answer, outs))
    ensures Inv(DoRelay(s, fd, answer, outs))
  {
    hide Inv;
    var i := FindSocket(s.sockets, fd);
    var t := DoRelay(s, fd, answer, outs);
    if !s.sockets[i].flow.active {
      TearDownKeeps(s, i);
    } else if Find(s.sessions, s.sockets[i].sid) < |s.sessions| {
      var u := s.(sessions := t.sessions);
      SameKeysKeep(s, u);
      FlowKeeps(u, i, t.sockets[i].flow);
    }
  }

  // ---- The theorem ----

  lemma WorkerStepKeeps(cfg: Config, s: State, e: Event)
    requires Inv(s) && Enabled(s, e)
    requires e.Wake? || e.Pop? || e.RunDetect? || e.RunResolve? || e.RunConnect? || e.Send? || e.ReadHost?
    ensures Inv(Step(cfg, s, e))
  {
    hide Inv, Enabled, DoPop, DoDetect, DoResolve, DoConnect, DoSend;
    match e
    case Wake(w) => WakeKeeps(s, w);
    case Pop(w) => PopKeeps(s, w);
    case RunDetect(w, d) => DetectKeeps(s, w, d);
    case RunResolve(w, r) => ResolveKeeps(s, w, r);
    case RunConnect(w, connected) => ConnectKeeps(s, w, connected);
    case Send(w) => SendKeeps(s, w);
    case ReadHost(w) => ReadHostKeeps(s, w);
    case _ =>
  }

  lemma MainStepKeeps(cfg: Config, s: State, e: Event)
    requires Inv(s) && Enabled(s, e)
    requires e.Post? || e.ReadMessage? || e.Handle? || e.Finish? || e.Prune?
    ensures Inv(Step(cfg, s, e))
  {
    hide Inv, DoHandle, TearDown, FirstClient, Find, Without;
    match e
    case Post => PostKeeps(s);
    case ReadMessage => ReadKeeps(s);
    case Handle(clock) => HandleKeeps(cfg, s, clock);
    case Finish => FinishKeeps(s);
    case Prune => TearDownKeeps(s, FirstClient(s.sockets));
    case _ =>
  }

  lemma StepKeeps(cfg: Config, s: State, e: Event)
    requires Inv(s) && Enabled(s, e)
    ensures Inv(Step(cfg, s, e))
  {
    hide Inv, Enabled, DoAccept, DoRelay;
    match e
    case Accept(fd, ip, memory) => AcceptKeeps(s, fd, ip, memory);
    case Relay(fd, answer, outs) => RelayKeeps(s, fd, answer, outs);
    case _ =>
      hide Step;
      if e.Post? || e.ReadMessage? || e.Handle? || e.Finish? || e.Prune? {
        MainStepKeeps(cfg, s, e);
      } else {
        WorkerStepKeeps(cfg, s, e);
      }
  }
}
