// Complete mediation: whoever owns a socket pair was admitted and was allowed to reach its host.

module Mediation {
  import opened CStrings
  import opened TimeMap
  import opened ClientSockets
  import opened Words
  import opened Lifecycle
  import opened LifecycleInvariant
  import opened LifecycleTheorems
  import UserAuth
  import Policy

  function SessionOf(s: State, id: int): Session
    requires Live(s, id)
  {
    s.sessions[Find(s.sessions, id)]
  }

  // The place is past the admission decision: on the way to a connection, or connected.
  predicate Granted(s: State, p: Place) {
    match p
    case InQueue(i) => i < |s.queue| && s.queue[i].Connect?
    case AtWorker(i) => i < |s.workers| && GrantedWorker(s.workers[i])
    case InPipe(i) => i < |s.pipe| && s.pipe[i].ConnectResult? && s.pipe[i].ok
    case AtMain => s.main.Handling? && s.main.msg.ConnectResult? && s.main.msg.ok
    case InSockets(i) => i < |s.sockets| && s.sockets[i].Client?
  }

  predicate GrantedWorker(w: Worker) {
    match w
    case Running(work) => work.Connect?
    case Connecting(_, _) => true
    case Sending(m, _) => m.ConnectResult? && m.ok
    case _ => false
  }

  ghost predicate HasGrant(s: State, id: int) {
    exists p :: Holds(s, p) == Some(id) && Granted(s, p)
  }

  // The place is before the decision: still to be detected.
  predicate Undetected(s: State, p: Place) {
    match p
    case InQueue(i) => i < |s.queue| && s.queue[i].Detect?
    case AtWorker(i) => i < |s.workers| && s.workers[i].Running? && s.workers[i].work.Detect?
    case _ => false
  }

  // The decision step for this session: admitted at this clock reading, and allowed by both policies.
  ghost predicate Admits(cfg: Config, s: State, e: Event, id: int) {
    && e.Handle? && s.main == Handling(DetectResult(id, true)) && Live(s, id)
    && var d := Decision(cfg, SessionOf(s, id), e.clock);
       d.Admit? && Policy.Allowed(cfg.policies, cfg.lists, d.user, SessionOf(s, id).host)
  }

  // Everything the decision depends on.
  ghost predicate SameBasis(x: Session, y: Session) {
    && x.id == y.id && x.clientFd == y.clientFd && x.clientIp == y.clientIp
    && x.host == y.host && x.request == y.request
  }

  // A grant comes from an earlier grant or from the decision step.
  lemma GrantSource(cfg: Config, s: State, e: Event, id: int, p: Place)
    requires Enabled(s, e)
    requires Holds(Step(cfg, s, e), p) == Some(id) && Granted(Step(cfg, s, e), p)
    ensures HasGrant(s, id) || Admits(cfg, s, e, id)
  {
    match e
    case Handle(clock) => GrantInHandle(cfg, s, clock, id, p);
    case Relay(_, _, _) => GrantInSockets(cfg, s, e, id, p);
    case Prune => GrantInSockets(cfg, s, e, id, p);
    case _ => GrantMoves(cfg, s, e, id, p);
  }

  lemma GrantMoves(cfg: Config, s: State, e: Event, id: int, p: Place)
    requires Enabled(s, e) && !e.Handle? && !e.Relay? && !e.Prune?
    requires Holds(Step(cfg, s, e), p) == Some(id) && Granted(Step(cfg, s, e), p)
    ensures HasGrant(s, id)
  {
    hide DoHandle, DoRelay, TearDown, FindByFd, Find;
    if e.Pop? {
      GrantPopped(s, e.w, id, p);
    } else {
      var q := match e
        case ReadMessage => if p == AtMain then InPipe(0) else if p.InPipe? then InPipe(p.i + 1) else p
        case Send(w) => if p == InPipe(|s.pipe|) then AtWorker(w) else p
        case _ => p;
      assert Holds(s, q) == Some(id) && Granted(s, q);
    }
  }

  lemma GrantPopped(s: State, w: nat, id: int, p: Place)
    requires w < |s.workers| && s.workers[w].Woken?
    requires Holds(DoPop(s, w), p) == Some(id) && Granted(DoPop(s, w), p)
    ensures HasGrant(s, id)
  {
    var q := if s.queue == [] then p
      else if p == AtWorker(w) then InQueue(0) else if p.InQueue? then InQueue(p.i + 1) else p;
    assert Holds(s, q) == Some(id) && Granted(s, q);
  }

  lemma GrantInHandle(cfg: Config, s: State, clock: Option<LocalTime>, id: int, p: Place)
    requires s.main.Handling?
    requires Holds(DoHandle(cfg, s, clock), p) == Some(id) && Granted(DoHandle(cfg, s, clock), p)
    ensures HasGrant(s, id) || Admits(cfg, s, Handle(clock), id)
  {
    hide UserAuth.Decide, Policy.Allowed;
    var i := Find(s.sessions, s.main.msg.sid);
    if p == InQueue(|s.queue|) {
    } else if p.InSockets? && p.i >= |s.sockets| {
      assert Holds(s, AtMain) == Some(id) && Granted(s, AtMain);
    } else {
      assert Holds(s, p) == Some(id) && Granted(s, p);
    }
  }

  lemma RemoveAtSource<T>(s: seq<T>, i: nat, k: nat) returns (q: nat)
    requires k < |RemoveAt(s, i)|
    ensures q < |s| && s[q] == RemoveAt(s, i)[k]
  {
    q := if i < |s| && i <= k then k + 1 else k;
  }

  lemma TearDownSource(s: State, i: nat, k: nat) returns (q: nat)
    requires i < |s.sockets| && s.sockets[i].Client? && k < |TearDown(s, i).sockets|
    ensures q < |s.sockets| && s.sockets[q] == TearDown(s, i).sockets[k]
  {
    hide RemoveAt;
    var rest := RemoveAt(s.sockets, i);
    q := RemoveAtSource(rest, FindSocket(rest, s.sockets[i].peer), k);
    q := RemoveAtSource(s.sockets, i, q);
  }

  lemma GrantInSockets(cfg: Config, s: State, e: Event, id: int, p: Place)
    requires Enabled(s, e) && (e.Relay? || e.Prune?)
    requires Holds(Step(cfg, s, e), p) == Some(id) && Granted(Step(cfg, s, e), p)
    ensures HasGrant(s, id)
  {
    hide Unregister, RemoveAt;
    var t := Step(cfg, s, e);
    var i := if e.Relay? then FindSocket(s.sockets, e.fd) else FirstClient(s.sockets);
    var q := p;
    if p.InSockets? && t.main.Ending? {
      assert t == TearDown(s, i);
      var k := TearDownSource(s, i, p.i);
      q := InSockets(k);
    }
    assert Holds(s, q) == Some(id) && Granted(s, q);
  }

  // A granted session is neither being detected nor waiting for a decision.
  lemma GrantIsSettled(s: State, id: int, p: Place)
    requires Inv(s) && Holds(s, p) == Some(id) && Granted(s, p)
    ensures Live(s, id) && id < s.nextId
    ensures forall ok :: s.main != Handling(DetectResult(id, ok))
    ensures s.main != Ending(id)
    ensures forall w :: 0 <= w < |s.workers| ==> s.workers[w] != Running(Detect(id))
  {
    PlaceUnique(s, p, p, id);
    hide Inv;
    forall q | Holds(s, q) == Some(id) ensures q == p {
      PlaceUnique(s, p, q, id);
    }
    assert Holds(s, AtMain) == Some(id) ==> p == AtMain;
    forall w | 0 <= w < |s.workers| ensures s.workers[w] != Running(Detect(id)) {
      assert Holds(s, AtWorker(w)) == Some(id) ==> AtWorker(w) == p;
    }
  }

  // What a step may write into a session: the detector its host and request, the decision its user,
  // relaying its counters.
  lemma FieldsStep(cfg: Config, s: State, e: Event, i: nat)
    requires Enabled(s, e) && !e.Accept? && !e.Finish? && i < |s.sessions|
    ensures var x, ts := s.sessions[i], Step(cfg, s, e).sessions;
      && |ts| == |s.sessions|
      && ts[i] == if e.Handle? then x.(user := ts[i].user)
                  else if e.Relay? then x.(rx := ts[i].rx, tx := ts[i].tx)
                  else if e.RunDetect? && s.workers[e.w] == Running(Detect(x.id))
                  then x.(host := ts[i].host, request := ts[i].request)
                  else x
  {
    hide DoAccept, DoHandle, DoRelay, TearDown, FirstClient;
    if e.Handle? {
      HandledFields(cfg, s, e.clock, i);
    } else if e.Relay? {
      RelayedFields(s, e.fd, e.answer, e.outs, i);
    } else if e.Prune? {
      TornFields(s, FirstClient(s.sockets));
    }
  }

  lemma HandledFields(cfg: Config, s: State, clock: Option<LocalTime>, i: nat)
    requires s.main.Handling? && i < |s.sessions|
    ensures var ts := DoHandle(cfg, s, clock).sessions;
      |ts| == |s.sessions| && ts[i] == s.sessions[i].(user := ts[i].user)
  {
    hide Decision, Policy.Allowed, Find, PairOf;
  }

  lemma RelayedFields(s: State, fd: int, answer: ReadAnswer, outs: seq<WriteAnswer>, i: nat)
    requires Enabled(s, Relay(fd, answer, outs)) && i < |s.sessions|
    ensures var ts := DoRelay(s, fd, answer, outs).sessions;
      |ts| == |s.sessions| && ts[i] == s.sessions[i].(rx := ts[i].rx, tx := ts[i].tx)
  {
    hide Find, Unregister, RemoveAt, IsPass, Pass, Add;
  }

  lemma TornFields(s: State, i: nat)
    requires i < |s.sockets| && s.sockets[i].Client?
    ensures TearDown(s, i).sessions == s.sessions
  {}

  lemma BasisStep(cfg: Config, s: State, e: Event, i: nat)
    requires Enabled(s, e) && !e.Accept? && !e.Finish? && i < |s.sessions|
    ensures |Step(cfg, s, e).sessions| == |s.sessions|
    ensures SameBasis(s.sessions[i], Step(cfg, s, e).sessions[i])
         || (e.RunDetect? && s.workers[e.w] == Running(Detect(s.sessions[i].id)))
  {
    FieldsStep(cfg, s, e, i);
    hide Step;
  }

  lemma UserStep(cfg: Config, s: State, e: Event, i: nat)
    requires Ordered(s.sessions, s.nextId)
    requires Enabled(s, e) && !e.Accept? && !e.Finish? && i < |s.sessions|
    ensures |Step(cfg, s, e).sessions| == |s.sessions|
    ensures Step(cfg, s, e).sessions[i].user ==
      if e.Handle? && s.main == Handling(DetectResult(s.sessions[i].id, true))
      then Decision(cfg, s.sessions[i], e.clock).user else s.sessions[i].user
  {
    FieldsStep(cfg, s, e, i);
    if !e.Handle? {
      hide Step;
    } else {
      UserInHandle(cfg, s, e.clock, i);
      hide DoHandle, Ordered;
    }
  }

  lemma UserInHandle(cfg: Config, s: State, clock: Option<LocalTime>, i: nat)
    requires Ordered(s.sessions, s.nextId) && s.main.Handling? && i < |s.sessions|
    ensures |DoHandle(cfg, s, clock).sessions| == |s.sessions|
    ensures DoHandle(cfg, s, clock).sessions[i].user ==
      if s.main == Handling(DetectResult(s.sessions[i].id, true))
      then Decision(cfg, s.sessions[i], clock).user else s.sessions[i].user
  {
    hide UserAuth.Decide, Policy.Allowed;
  }

  lemma {:induction false} FindAppend(ss: seq<Session>, x: Session, id: int)
    requires Find(ss, id) < |ss|
    ensures Find(ss + [x], id) == Find(ss, id)
  {
    if ss[0].id != id {
      assert (ss + [x])[1..] == ss[1..] + [x];
      FindAppend(ss[1..], x, id);
    }
  }

  lemma {:induction false} FindOther(ss: seq<Session>, gone: int, id: int)
    requires Find(ss, id) < |ss| && gone != id
    ensures var rest := Without(ss, gone);
      Find(rest, id) < |rest| && rest[Find(rest, id)] == ss[Find(ss, id)]
  {
    hide Without;
    WithoutNext(ss, gone);
    if ss[0].id != gone {
      if ss[0].id != id {
        FindOther(ss[1..], gone, id);
        FindNext(ss[0], Without(ss[1..], gone), id);
      }
    }
  }

  lemma SessionStays(cfg: Config, s: State, e: Event, id: int)
    requires Inv(s) && Enabled(s, e) && Live(s, id) && (e.Finish? ==> s.main != Ending(id))
    ensures Live(Step(cfg, s, e), id)
    ensures e.Accept? || e.Finish? ==> SessionOf(Step(cfg, s, e), id) == SessionOf(s, id)
    ensures !e.Accept? && !e.Finish? ==> Find(Step(cfg, s, e).sessions, id) == Find(s.sessions, id)
  {
    SessionsStep(cfg, s, e);
    hide Step, Inv, Without;
    if e.Accept? {
      FindAppend(s.sessions, NewSession(s.nextId, e.fd, e.ip, e.memory), id);
    } else if e.Finish? {
      FindOther(s.sessions, s.main.sid, id);
    } else {
      SameKeysCount(s.sessions, Step(cfg, s, e).sessions, id);
    }
  }

  // A session that holds a grant keeps the facts it was decided on and its user; the decision step
  // keeps the facts and writes the user it admits.
  lemma BasisKept(cfg: Config, s: State, e: Event, id: int)
    requires Inv(s) && Enabled(s, e) && (HasGrant(s, id) || Admits(cfg, s, e, id))
    ensures Live(s, id) && Live(Step(cfg, s, e), id)
    ensures SameBasis(SessionOf(s, id), SessionOf(Step(cfg, s, e), id))
    ensures SessionOf(Step(cfg, s, e), id).user ==
      if Admits(cfg, s, e, id) then Decision(cfg, SessionOf(s, id), e.clock).user else SessionOf(s, id).user
  {
    if HasGrant(s, id) {
      var p :| Holds(s, p) == Some(id) && Granted(s, p);
      GrantIsSettled(s, id, p);
    }
    SessionStays(cfg, s, e, id);
    if !e.Accept? && !e.Finish? {
      BasisStep(cfg, s, e, Find(s.sessions, id));
      UserStep(cfg, s, e, Find(s.sessions, id));
    }
    hide Step, Inv, Decision, Policy.Allowed;
  }

  // ---- Runs ----

  // The k-th event of the run decides the session that is now live under this id, on the facts and
  // for the user that it still has.
  ghost predicate DecidedAt(cfg: Config, s: State, es: seq<Event>, k: nat, id: int)
    requires IsRun(cfg, s, es)
  {
    && k < |es|
    && var t, u := StateAt(cfg, s, es, k), After(cfg, s, es);
       && Admits(cfg, t, es[k], id) && Live(u, id)
       && SameBasis(SessionOf(t, id), SessionOf(u, id))
       && SessionOf(u, id).user == Decision(cfg, SessionOf(t, id), es[k].clock).user
  }

  lemma InitHasNoGrant(s: State, id: int)
    requires Init(s)
    ensures !HasGrant(s, id)
  {
    forall p ensures !(Holds(s, p) == Some(id) && Granted(s, p)) {
      assert p.InSockets? && p.i < 2 ==> !s.sockets[p.i].Client?;
    }
  }

  lemma DecidedNow(cfg: Config, s: State, es: seq<Event>, id: int)
    requires Init(s) && IsRun(cfg, s, es) && es != []
    requires Admits(cfg, After(cfg, s, es[..|es| - 1]), es[|es| - 1], id)
    ensures DecidedAt(cfg, s, es, |es| - 1, id)
  {
    RunKeeps(cfg, s, es[..|es| - 1]);
    BasisKept(cfg, After(cfg, s, es[..|es| - 1]), es[|es| - 1], id);
    hide Init, Inv, Step, Decision, Policy.Allowed, HasGrant, Enabled, Live, SessionOf, SameBasis;
  }

  lemma DecidedStill(cfg: Config, s: State, es: seq<Event>, k: nat, id: int)
    requires Init(s) && IsRun(cfg, s, es) && es != []
    requires DecidedAt(cfg, s, es[..|es| - 1], k, id)
    requires HasGrant(After(cfg, s, es[..|es| - 1]), id)
    requires !Admits(cfg, After(cfg, s, es[..|es| - 1]), es[|es| - 1], id)
    ensures DecidedAt(cfg, s, es, k, id)
  {
    var front := es[..|es| - 1];
    RunKeeps(cfg, s, front);
    BasisKept(cfg, After(cfg, s, front), es[|es| - 1], id);
    hide Init, Inv, Step, Decision, Policy.Allowed, HasGrant, Enabled, Live, SessionOf, Admits;
    assert front[..k] == es[..k] && front[k] == es[k];
  }

  lemma {:induction false} GrantWasDecided(cfg: Config, s: State, es: seq<Event>, id: int) returns (k: nat)
    requires Init(s) && IsRun(cfg, s, es) && HasGrant(After(cfg, s, es), id)
    ensures DecidedAt(cfg, s, es, k, id)
    decreases |es|
  {
    hide Init, Step, Admits, DecidedAt, Enabled, Holds, Granted;
    if es == [] {
      InitHasNoGrant(s, id);
    } else {
      var front, e := es[..|es| - 1], es[|es| - 1];
      var t := After(cfg, s, front);
      var p :| Holds(After(cfg, s, es), p) == Some(id) && Granted(After(cfg, s, es), p);
      GrantSource(cfg, t, e, id, p);
      hide HasGrant;
      if Admits(cfg, t, e, id) {
        k := |front|;
        DecidedNow(cfg, s, es, id);
      } else {
        k := GrantWasDecided(cfg, s, front, id);
        DecidedStill(cfg, s, es, k, id);
      }
    }
  }

  // ---- Detection and decision, in full ----

  // Detecting writes the host and request it found into its session, nothing into any other, and says
  // whether it found them.
  lemma DetectionStores(cfg: Config, s: State, w: nat, d: Detected, id: int)
    requires Inv(s) && Enabled(s, RunDetect(w, d)) && Live(s, id)
    ensures var t, sid := Step(cfg, s, RunDetect(w, d)), s.workers[w].work.sid;
      && Live(s, sid) && Live(t, id)
      && SessionOf(t, id) == (if id == sid && d.Good? then SessionOf(s, id).(host := d.host, request := d.request)
                              else SessionOf(s, id))
      && t.workers[w] == Sending(DetectResult(sid, d.Good?), false)
  {
    WorkerLive(s, w, s.workers[w].work.sid);
    hide Inv;
    SameKeysCount(s.sessions, DoDetect(s, w, d).sessions, id);
  }

  lemma DetectOutcome(cfg: Config, s: State, i: nat, ok: bool, clock: Option<LocalTime>)
    requires i < |s.sessions|
    ensures var t, x := DoDetectResult(cfg, s, i, ok, clock), s.sessions[i];
      var d := Decision(cfg, x, clock);
      var u := SetUser(s, i, d.user);
      t == if !ok then CloseClient(s, x)
           else if !d.Admit? then CloseClient(u, x)
           else if Policy.Allowed(cfg.policies, cfg.lists, d.user, x.host) then Push(u, Connect(x.id))
           else u.(pipe := u.pipe + [ConnectResult(x.id, -1, false)], main := Waiting)
  {
    hide UserAuth.Decide, Policy.Allowed;
  }

  // A session is sent to connect exactly when it is admitted and its host is allowed. Otherwise one
  // that is admitted gets the failure message, and any other is closed and ends.
  lemma GrantExactly(cfg: Config, s: State, clock: Option<LocalTime>, id: int, ok: bool)
    requires Inv(s) && s.main == Handling(DetectResult(id, ok))
    ensures Live(s, id)
    ensures var x, t := SessionOf(s, id), Step(cfg, s, Handle(clock));
      var d := UserAuth.Decide(cfg.authEnabled, cfg.users, x.user, x.request, x.clientIp, clock);
      var allowed := Policy.Allowed(cfg.policies, cfg.lists, d.user, x.host);
      && t.pushed == s.pushed + (if ok && d.Admit? && allowed then [Connect(id)] else [])
      && t.pipe == s.pipe + (if ok && d.Admit? && !allowed then [ConnectResult(id, -1, false)] else [])
      && (t.main == Ending(id) <==> !ok || !d.Admit?)
      && t.open == s.open - (if !ok || !d.Admit? then {x.clientFd} else {})
      && Live(t, id) && SessionOf(t, id) == if ok then x.(user := d.user) else x
  {
    CarriedIsLive(s, id);
    DecidedSession(s, id, SessionOf(s, id).user);
    DecidedSession(s, id, Decision(cfg, SessionOf(s, id), clock).user);
    var i := Find(s.sessions, id);
    DetectOutcome(cfg, s, i, ok, clock);
    hide Inv, UserAuth.Decide, Policy.Allowed, Find, DoDetectResult;
    assert s.pushed + [] == s.pushed && s.pipe + [] == s.pipe;
  }

  // A connected session gets its two sockets, both fresh: its client's, which leads to the server, and
  // the server's, which leads back. One that could not be connected is closed and ends.
  lemma EstablishedExactly(cfg: Config, s: State, clock: Option<LocalTime>, id: int, fd: int, ok: bool)
    requires Inv(s) && s.main == Handling(ConnectResult(id, fd, ok))
    ensures Live(s, id)
    ensures var x, unused := SessionOf(s, id), Flow(true, false, [], [], 0);
      Step(cfg, s, Handle(clock)) ==
        if ok then s.(main := Waiting, sockets := s.sockets +
          [Client(x.clientFd, fd, id, true, unused), Client(fd, x.clientFd, id, false, unused)])
        else s.(main := Ending(id), open := s.open - {x.clientFd})
  {
    CarriedIsLive(s, id);
    hide Inv, Find, DoDetectResult;
  }

  lemma DecidedSession(s: State, id: int, user: string)
    requires Live(s, id)
    ensures var t := SetUser(s, Find(s.sessions, id), user);
      Find(t.sessions, id) == Find(s.sessions, id) && SessionOf(t, id) == SessionOf(s, id).(user := user)
  {
    SameKeysCount(s.sessions, SetUser(s, Find(s.sessions, id), user).sessions, id);
  }

  // ---- Requests that fit ----

  // Every request that the detector receives in the run fits the fields of the credential scan.
  ghost predicate RequestsFit(es: seq<Event>) {
    forall i :: 0 <= i < |es| && es[i].RunDetect? && es[i].detected.Good? ==> UserAuth.Fits(es[i].detected.request)
  }

  ghost predicate SessionsFit(ss: seq<Session>) {
    forall i :: 0 <= i < |ss| ==> UserAuth.Fits(ss[i].request)
  }

  lemma NoRequestFits()
    ensures UserAuth.Fits("")
  {}

  lemma DetectedFits(s: State, w: nat, d: Detected)
    requires Enabled(s, RunDetect(w, d)) && SessionsFit(s.sessions)
    requires d.Good? ==> UserAuth.Fits(d.request)
    ensures SessionsFit(DoDetect(s, w, d).sessions)
  {
    hide UserAuth.Fits;
  }

  lemma WithoutFits(ss: seq<Session>, id: int)
    requires SessionsFit(ss)
    ensures SessionsFit(Without(ss, id))
  {
    hide UserAuth.Fits;
  }

  lemma SessionsFitStep(cfg: Config, s: State, e: Event)
    requires Inv(s) && Enabled(s, e) && SessionsFit(s.sessions)
    requires e.RunDetect? && e.detected.Good? ==> UserAuth.Fits(e.detected.request)
    ensures SessionsFit(Step(cfg, s, e).sessions)
  {
    if e.RunDetect? {
      DetectedFits(s, e.w, e.detected);
      hide DoDetect, UserAuth.Fits, Inv;
    } else {
      hide Step, UserAuth.Fits, Inv, Enabled, Without;
      NoRequestFits();
      SessionsStep(cfg, s, e);
      WithoutFits(s.sessions, if e.Finish? then s.main.sid else 0);
      if !e.Accept? && !e.Finish? {
        var t := Step(cfg, s, e);
        forall i | 0 <= i < |t.sessions| ensures UserAuth.Fits(t.sessions[i].request) {
          BasisStep(cfg, s, e, i);
        }
      }
    }
  }

  lemma {:induction false} SessionsFitRun(cfg: Config, s: State, es: seq<Event>)
    requires Init(s) && IsRun(cfg, s, es) && RequestsFit(es)
    ensures SessionsFit(After(cfg, s, es).sessions)
    decreases |es|
  {
    hide Step, Enabled, UserAuth.Fits;
    if es != [] {
      var front, e := es[..|es| - 1], es[|es| - 1];
      assert forall i :: 0 <= i < |front| ==> front[i] == es[i];
      SessionsFitRun(cfg, s, front);
      RunKeeps(cfg, s, front);
      SessionsFitStep(cfg, After(cfg, s, front), e);
    }
  }

  // While the requests fit, no step of the run writes past the end of a field.
  lemma NoOverflow(cfg: Config, s: State, es: seq<Event>, e: Event)
    requires Init(s) && IsRun(cfg, s, es) && Enabled(After(cfg, s, es), e)
    requires cfg.authEnabled ==> RequestsFit(es)
    ensures !Overflows(cfg, After(cfg, s, es), e)
  {
    if cfg.authEnabled {
      SessionsFitRun(cfg, s, es);
    }
    hide UserAuth.Fits, After, IsRun, Init;
  }

  // ---- Complete mediation ----

  // The user of the session is authorised by the request and address it carries.
  ghost predicate AuthorisedSession(cfg: Config, x: Session, clock: Option<LocalTime>) {
    cfg.authEnabled && UserAuth.UniqueNames(cfg.users) ==>
      UserAuth.Authorised(cfg.users, x.request, x.clientIp, clock, x.user)
  }

  // Any session that owns a socket pair was admitted at a step of the run: with authentication on, it
  // is authorised at the clock reading of that step by the request and address it carries; and its
  // host passes its user's policy and the global one.
  lemma CompleteMediation(cfg: Config, s: State, es: seq<Event>, i: nat) returns (k: nat)
    requires Init(s) && IsRun(cfg, s, es)
    requires cfg.authEnabled ==> RequestsFit(es)
    requires i < |After(cfg, s, es).sockets| && After(cfg, s, es).sockets[i].Client?
    ensures var id := After(cfg, s, es).sockets[i].sid;
      && DecidedAt(cfg, s, es, k, id)
      && var x := SessionOf(After(cfg, s, es), id);
         Policy.Allowed(cfg.policies, cfg.lists, x.user, x.host) && AuthorisedSession(cfg, x, es[k].clock)
  {
    RunKeeps(cfg, s, es);
    var t := After(cfg, s, es);
    var id := t.sockets[i].sid;
    SocketGranted(t, i);
    hide Inv, Init, HasGrant, DecidedAt, AuthorisedSession, Policy.Allowed;
    k := GrantWasDecided(cfg, s, es, id);
    DecisionHolds(cfg, s, es, k, id);
  }

  lemma SocketGranted(s: State, i: nat)
    requires Inv(s) && i < |s.sockets| && s.sockets[i].Client?
    ensures HasGrant(s, s.sockets[i].sid)
  {
    var c := if i % 2 == 0 then i else i - 1;
    PeerOf(s.sockets, i);
    assert Holds(s, InSockets(c)) == Some(s.sockets[i].sid) && Granted(s, InSockets(c));
  }

  lemma DecisionHolds(cfg: Config, s: State, es: seq<Event>, k: nat, id: int)
    requires Init(s) && IsRun(cfg, s, es) && DecidedAt(cfg, s, es, k, id)
    requires cfg.authEnabled ==> RequestsFit(es)
    ensures Live(After(cfg, s, es), id) && es[k].Handle?
    ensures var x := SessionOf(After(cfg, s, es), id);
      Policy.Allowed(cfg.policies, cfg.lists, x.user, x.host) && AuthorisedSession(cfg, x, es[k].clock)
  {
    var x, y := SessionOf(StateAt(cfg, s, es, k), id), SessionOf(After(cfg, s, es), id);
    if cfg.authEnabled {
      SessionsFitRun(cfg, s, es);
    }
    hide Step, Init, After, IsRun, StateAt, Decision, Policy.Allowed, UserAuth.Fits, AuthorisedSession;
    AdmittedAuthorised(cfg, x, y, es[k].clock);
  }

  lemma AdmittedAuthorised(cfg: Config, x: Session, y: Session, clock: Option<LocalTime>)
    requires Decision(cfg, x, clock) == UserAuth.Admit(y.user)
    requires SameBasis(x, y) && (cfg.authEnabled ==> UserAuth.Fits(y.request))
    ensures AuthorisedSession(cfg, y, clock)
  {
    hide UserAuth.Decide, UserAuth.Authorised, UserAuth.Fits;
    if cfg.authEnabled && UserAuth.UniqueNames(cfg.users) {
      UserAuth.AdmitsExactlyAuthorised(cfg.users, x.user, x.request, x.clientIp, clock, y.user);
    }
  }
}
