// The life of a session as a step system: the dispatch thread, any number of pool workers, the
// work queue with its semaphore, the result pipe, the socket list and the open descriptors.
// A step is one action of one thread between two points where another thread can interfere.

module Lifecycle {
  import opened CStrings
  import opened TimeMap
  import opened Words
  import opened ClientSockets
  import UserAuth
  import Policy

  const MAX_SOCKETS: nat := 200

  datatype Config = Config(authEnabled: bool, users: seq<UserAuth.User>,
                           policies: seq<Policy.Policy>, lists: seq<Policy.Blacklist>)

  datatype Session = Session(id: int, clientFd: int, clientIp: string, user: string,
                             host: string, request: string, rx: Word, tx: Word)

  // The counters are not initialised: they start with what the memory holds.
  function NewSession(id: int, fd: int, ip: string, memory: Counts): Session {
    Session(id, fd, ip, "", "", "", memory.rx, memory.tx)
  }

  datatype Work = Detect(sid: int) | Connect(sid: int)

  datatype Message = DetectResult(sid: int, ok: bool) | ConnectResult(sid: int, fd: int, ok: bool)

  // A pool thread: before sem_wait returns, before the pop, in a handler, about to write its
  // message, and, after a failed connect, about to read the host of the session it gave away.
  datatype Worker =
    | Idle
    | Woken
    | Running(work: Work)
    | Connecting(sid: int, fd: int)
    | Sending(msg: Message, late: bool)
    | LateRead(sid: int)

  // The dispatch thread: waiting for events, between push and post (holding the queue's lock),
  // handling a message, and between closing a client and EndSession.
  datatype Main = Waiting | Posting | Handling(msg: Message) | Ending(sid: int)

  datatype Socket =
    | Server(fd: int)
    | Command(fd: int)
    | Client(fd: int, peer: int, sid: int, toServer: bool, flow: Flow)

  // `pushed` and `popped` record the packages that entered and left the queue, in order.
  datatype State = State(sessions: seq<Session>, nextId: int, queue: seq<Work>, sem: nat,
                         workers: seq<Worker>, pipe: seq<Message>, main: Main,
                         sockets: seq<Socket>, open: set<int>,
                         pushed: seq<Work>, popped: seq<Work>)

  // The answers of the operating system that a step may receive.
  datatype Detected = Bad | Good(host: string, request: string)
  datatype Resolved = NoAddress | NoSocket | Opened(fd: int)

  datatype Event =
    | Accept(fd: int, ip: string, memory: Counts)
    | Post
    | Wake(w: nat)
    | Pop(w: nat)
    | RunDetect(w: nat, detected: Detected)
    | RunResolve(w: nat, resolved: Resolved)
    | RunConnect(w: nat, connected: bool)
    | Send(w: nat)
    | ReadHost(w: nat)
    | ReadMessage
    | Handle(clock: Option<LocalTime>)
    | Finish
    | Relay(fd: int, answer: ReadAnswer, outs: seq<WriteAnswer>)
    | Prune

  // ---- Lookups ----

  function Find(ss: seq<Session>, id: int): (i: nat)
    ensures i <= |ss|
    ensures i < |ss| ==> ss[i].id == id
    ensures forall k :: 0 <= k < i ==> ss[k].id != id
  {
    if ss == [] || ss[0].id == id then 0 else 1 + Find(ss[1..], id)
  }

  function FindByFd(ss: seq<Session>, fd: int): (i: nat)
    ensures i <= |ss|
    ensures i < |ss| ==> ss[i].clientFd == fd
    ensures forall k :: 0 <= k < i ==> ss[k].clientFd != fd
  {
    if ss == [] || ss[0].clientFd == fd then 0 else 1 + FindByFd(ss[1..], fd)
  }

  function FindSocket(ks: seq<Socket>, fd: int): (i: nat)
    ensures i <= |ks|
    ensures i < |ks| ==> ks[i].fd == fd
    ensures forall k :: 0 <= k < i ==> ks[k].fd != fd
  {
    if ks == [] || ks[0].fd == fd then 0 else 1 + FindSocket(ks[1..], fd)
  }

  function FirstClient(ks: seq<Socket>): (i: nat)
    ensures i <= |ks|
    ensures i < |ks| ==> ks[i].Client?
    ensures forall k :: 0 <= k < i ==> !ks[k].Client?
  {
    if ks == [] || ks[0].Client? then 0 else 1 + FirstClient(ks[1..])
  }

  function RemoveAt<T>(s: seq<T>, i: nat): seq<T> {
    if i < |s| then s[..i] + s[i + 1..] else s
  }

  function Without(ss: seq<Session>, id: int): seq<Session> {
    RemoveAt(ss, Find(ss, id))
  }

  // The first socket with this descriptor leaves the list.
  function Unregister(ks: seq<Socket>, fd: int): seq<Socket> {
    RemoveAt(ks, FindSocket(ks, fd))
  }

  predicate Live(s: State, id: int) {
    Find(s.sessions, id) < |s.sessions|
  }

  // ---- Steps ----

  predicate Enabled(s: State, e: Event) {
    match e
    case Accept(fd, _, _) => s.main.Waiting? && fd !in s.open
    case Post => s.main.Posting?
    case Wake(w) => w < |s.workers| && s.workers[w].Idle? && s.sem > 0
    case Pop(w) => w < |s.workers| && s.workers[w].Woken? && !s.main.Posting?
    case RunDetect(w, _) => w < |s.workers| && s.workers[w].Running? && s.workers[w].work.Detect?
    case RunResolve(w, r) =>
      w < |s.workers| && s.workers[w].Running? && s.workers[w].work.Connect? && (r.Opened? ==> r.fd !in s.open)
    case RunConnect(w, _) => w < |s.workers| && s.workers[w].Connecting?
    case Send(w) => w < |s.workers| && s.workers[w].Sending?
    case ReadHost(w) => w < |s.workers| && s.workers[w].LateRead?
    case ReadMessage => s.main.Waiting? && s.pipe != []
    case Handle(_) => s.main.Handling?
    case Finish => s.main.Ending?
    case Relay(fd, answer, outs) =>
      && s.main.Waiting? && IsPass(answer, outs)
      && FindSocket(s.sockets, fd) < |s.sockets| && s.sockets[FindSocket(s.sockets, fd)].Client?
    case Prune => s.main.Waiting? && |s.sockets| > MAX_SOCKETS && FirstClient(s.sockets) < |s.sockets|
  }

  // The session a step dereferences without a null check; a Pop takes the front of the queue.
  function Dereferenced(s: State, e: Event): Option<int>
    requires Enabled(s, e)
  {
    match e
    case RunDetect(w, _) => Some(s.workers[w].work.sid)
    case RunResolve(w, _) => Some(s.workers[w].work.sid)
    case RunConnect(w, _) => Some(s.workers[w].sid)
    case ReadHost(w) => Some(s.workers[w].sid)
    case Handle(_) => Some(s.main.msg.sid)
    case Relay(fd, _, _) =>
      var k := s.sockets[FindSocket(s.sockets, fd)];
      if k.flow.active then Some(k.sid) else None
    case _ => None
  }

  predicate Faults(s: State, e: Event)
    requires Enabled(s, e)
  {
    || (e.Pop? && s.queue == [])
    || (Dereferenced(s, e).Some? && !Live(s, Dereferenced(s, e).value))
  }

  // Handling the message stores in the fields on the stack only what fits them.
  predicate Fitting(cfg: Config, s: State, m: Message) {
    m.DetectResult? && m.ok && cfg.authEnabled && Live(s, m.sid) ==>
      UserAuth.Fits(s.sessions[Find(s.sessions, m.sid)].request)
  }

  // Handling the message writes past the end of a field.
  predicate Overflows(cfg: Config, s: State, e: Event)
    requires Enabled(s, e)
  {
    e.Handle? && !Fitting(cfg, s, s.main.msg)
  }

  function Push(s: State, work: Work): State {
    s.(queue := s.queue + [work], pushed := s.pushed + [work], main := Posting)
  }

  // HandleServerSocketRead: CreateSession appends and then looks the session up by descriptor.
  function DoAccept(s: State, fd: int, ip: string, memory: Counts): State {
    var ss := s.sessions + [NewSession(s.nextId, fd, "", memory)];
    assert ss[|s.sessions|].clientFd == fd;
    var i := FindByFd(ss, fd);
    Push(s.(sessions := ss[i := ss[i].(clientIp := ip)], nextId := s.nextId + 1, open := s.open + {fd}),
         Detect(ss[i].id))
  }

  function DoPop(s: State, w: nat): State
    requires w < |s.workers|
  {
    if s.queue == [] then s
    else s.(queue := s.queue[1..], popped := s.popped + [s.queue[0]], workers := s.workers[w := Running(s.queue[0])])
  }

  function DoDetect(s: State, w: nat, d: Detected): State
    requires Enabled(s, RunDetect(w, d))
  {
    var sid := s.workers[w].work.sid;
    var i := Find(s.sessions, sid);
    var ss := if d.Good? && i < |s.sessions|
              then s.sessions[i := s.sessions[i].(host := d.host, request := d.request)] else s.sessions;
    s.(sessions := ss, workers := s.workers[w := Sending(DetectResult(sid, d.Good?), false)])
  }

  function DoResolve(s: State, w: nat, r: Resolved): State
    requires Enabled(s, RunResolve(w, r))
  {
    var sid := s.workers[w].work.sid;
    match r
    case Opened(fd) => s.(workers := s.workers[w := Connecting(sid, fd)], open := s.open + {fd})
    case _ => s.(workers := s.workers[w := Sending(ConnectResult(sid, -1, false), false)])
  }

  // A socket that could not connect is never closed.
  function DoConnect(s: State, w: nat, connected: bool): State
    requires Enabled(s, RunConnect(w, connected))
  {
    var sid := s.workers[w].sid;
    var next := if connected then Sending(ConnectResult(sid, s.workers[w].fd, true), false)
                else Sending(ConnectResult(sid, -1, false), true);
    s.(workers := s.workers[w := next])
  }

  function DoSend(s: State, w: nat): State
    requires Enabled(s, Send(w))
  {
    var m := s.workers[w].msg;
    s.(pipe := s.pipe + [m], workers := s.workers[w := if s.workers[w].late then LateRead(m.sid) else Idle])
  }

  function CloseClient(s: State, x: Session): State {
    s.(open := s.open - {x.clientFd}, main := Ending(x.id))
  }

  function SetUser(s: State, i: nat, user: string): State
    requires i < |s.sessions|
  {
    s.(sessions := s.sessions[i := s.sessions[i].(user := user)])
  }

  function Decision(cfg: Config, x: Session, clock: Option<LocalTime>): UserAuth.Decision {
    UserAuth.Decide(cfg.authEnabled, cfg.users, x.user, x.request, x.clientIp, clock)
  }

  // The host-detect branch of HandleCommandSocketRead, with ConnectProxy.
  function DoDetectResult(cfg: Config, s: State, i: nat, ok: bool, clock: Option<LocalTime>): State
    requires i < |s.sessions|
  {
    var x := s.sessions[i];
    if !ok then CloseClient(s, x)
    else match Decision(cfg, x, clock)
      case Admit(user) =>
        if Policy.Allowed(cfg.policies, cfg.lists, user, x.host) then Push(SetUser(s, i, user), Connect(x.id))
        else SetUser(s, i, user).(pipe := s.pipe + [ConnectResult(x.id, -1, false)], main := Waiting)
      case d => CloseClient(SetUser(s, i, d.user), x)
  }

  function PairOf(x: Session, fd: int): seq<Socket> {
    [Client(x.clientFd, fd, x.id, true, Fresh()), Client(fd, x.clientFd, x.id, false, Fresh())]
  }

  function DoConnectResult(s: State, i: nat, fd: int, ok: bool): State
    requires i < |s.sessions|
  {
    var x := s.sessions[i];
    if !ok then CloseClient(s, x)
    else s.(sockets := s.sockets + PairOf(x, fd), main := Waiting)
  }

  function DoHandle(cfg: Config, s: State, clock: Option<LocalTime>): State
    requires s.main.Handling?
  {
    var i := Find(s.sessions, s.main.msg.sid);
    if i == |s.sessions| then s
    else match s.main.msg
      case DetectResult(_, ok) => DoDetectResult(cfg, s, i, ok, clock)
      case ConnectResult(_, fd, ok) => DoConnectResult(s, i, fd, ok)
  }

  // A socket and its peer leave the list and are closed; EndSession follows.
  function TearDown(s: State, i: nat): State
    requires i < |s.sockets| && s.sockets[i].Client?
  {
    var k := s.sockets[i];
    s.(sockets := Unregister(RemoveAt(s.sockets, i), k.peer), open := s.open - {k.fd, k.peer}, main := Ending(k.sid))
  }

  // HandleClientSocketRead: an inactive socket is torn down; an active one relays and counts.
  function DoRelay(s: State, fd: int, answer: ReadAnswer, outs: seq<WriteAnswer>): State
    requires Enabled(s, Relay(fd, answer, outs))
  {
    var i := FindSocket(s.sockets, fd);
    var k := s.sockets[i];
    if !k.flow.active then TearDown(s, i)
    else
      var j := Find(s.sessions, k.sid);
      if j == |s.sessions| then s else Relayed(s, i, j, answer, outs)
  }

  // Socket i relays once and its session, at j, counts.
  function Relayed(s: State, i: nat, j: nat, answer: ReadAnswer, outs: seq<WriteAnswer>): State
    requires i < |s.sockets| && s.sockets[i].Client? && j < |s.sessions| && IsPass(answer, outs)
  {
    var k, x := s.sockets[i], s.sessions[j];
    var (flow, numRead, numWritten) := Pass(k.flow, answer, outs);
    s.(sessions := s.sessions[j := CountedFor(x, k.toServer, numRead, numWritten)],
       sockets := s.sockets[i := k.(flow := flow)])
  }

  // The server's side counts what was read, the client's side what was written.
  function CountedFor(x: Session, toServer: bool, numRead: Word, numWritten: Word): Session {
    if toServer then x.(rx := Add(x.rx, numWritten)) else x.(tx := Add(x.tx, numRead))
  }

  function Step(cfg: Config, s: State, e: Event): State
    requires Enabled(s, e)
  {
    match e
    case Accept(fd, ip, memory) => DoAccept(s, fd, ip, memory)
    case Post => s.(sem := s.sem + 1, main := Waiting)
    case Wake(w) => s.(sem := s.sem - 1, workers := s.workers[w := Woken])
    case Pop(w) => DoPop(s, w)
    case RunDetect(w, d) => DoDetect(s, w, d)
    case RunResolve(w, r) => DoResolve(s, w, r)
    case RunConnect(w, connected) => DoConnect(s, w, connected)
    case Send(w) => DoSend(s, w)
    case ReadHost(w) => s.(workers := s.workers[w := Idle])
    case ReadMessage => s.(pipe := s.pipe[1..], main := Handling(s.pipe[0]))
    case Handle(clock) => DoHandle(cfg, s, clock)
    case Finish => s.(sessions := Without(s.sessions, s.main.sid), main := Waiting)
    case Relay(fd, answer, outs) => DoRelay(s, fd, answer, outs)
    case Prune => TearDown(s, FirstClient(s.sockets))
  }

  // Before the first event: idle workers, the two fixed sockets, nothing else.
  predicate Init(s: State) {
    && s.sessions == [] && s.queue == [] && s.sem == 0 && s.pipe == [] && s.main == Waiting
    && s.pushed == [] && s.popped == []
    && (forall w :: 0 <= w < |s.workers| ==> s.workers[w] == Idle)
    && |s.sockets| == 2 && s.sockets[0].Server? && s.sockets[1].Command?
    && s.sockets[0].fd != s.sockets[1].fd && {s.sockets[0].fd, s.sockets[1].fd} <= s.open
  }

  // ---- Runs ----

  ghost predicate IsRun(cfg: Config, s: State, es: seq<Event>)
    decreases |es|, 0
  {
    es == [] ||
    (IsRun(cfg, s, es[..|es| - 1]) && Enabled(After(cfg, s, es[..|es| - 1]), es[|es| - 1]))
  }

  ghost function After(cfg: Config, s: State, es: seq<Event>): State
    requires IsRun(cfg, s, es)
    decreases |es|, 1
  {
    if es == [] then s else Step(cfg, After(cfg, s, es[..|es| - 1]), es[|es| - 1])
  }
}
