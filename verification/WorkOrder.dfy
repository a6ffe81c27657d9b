// The work queue over whole runs: packages leave in the order they entered, each is different from
// all others, and the detector, which runs once per session, is the only one to set its host.

module WorkOrder {
  import opened CStrings
  import opened TimeMap
  import opened Counting
  import opened Lifecycle
  import opened LifecycleInvariant
  import opened LifecycleTheorems
  import opened Mediation
  import UserAuth
  import Policy

  ghost predicate NoDuplicates(ws: seq<Work>) {
    forall i, j :: 0 <= i < j < |ws| ==> ws[i] != ws[j]
  }

  // The place is before the admission decision.
  predicate Undecided(s: State, p: Place) {
    match p
    case InQueue(i) => i < |s.queue| && s.queue[i].Detect?
    case AtWorker(i) =>
      i < |s.workers| && (match s.workers[i]
                          case Running(work) => work.Detect?
                          case Sending(m, _) => m.DetectResult?
                          case _ => false)
    case InPipe(i) => i < |s.pipe| && s.pipe[i].DetectResult?
    case AtMain => s.main.Handling? && s.main.msg.DetectResult?
    case InSockets(_) => false
  }

  ghost predicate Fresh(s: State) {
    && (forall i :: 0 <= i < |s.pushed| ==> s.pushed[i].sid < s.nextId)
    && NoDuplicates(s.pushed)
    && (forall p :: Holds(s, p).Some? && Undecided(s, p) ==> Connect(Holds(s, p).value) !in s.pushed)
  }

  // Where a place was before a pop.
  function BeforePop(s: State, w: nat, p: Place): Place {
    if s.queue == [] then p
    else if p == AtWorker(w) then InQueue(0) else if p.InQueue? then InQueue(p.i + 1) else p
  }

  // Where an undecided place of a step comes from.
  lemma UndecidedSource(cfg: Config, s: State, e: Event, id: int, p: Place)
    requires Enabled(s, e)
    requires Holds(Step(cfg, s, e), p) == Some(id) && Undecided(Step(cfg, s, e), p)
    ensures (exists q :: Holds(s, q) == Some(id) && Undecided(s, q))
         || (e.Accept? && p == InQueue(|s.queue|))
  {
    if e.Handle? {
      UndecidedInHandle(cfg, s, e.clock, id, p);
    } else if !(e.Accept? && p == InQueue(|s.queue|)) {
      var q := UndecidedMoves(cfg, s, e, id, p);
    }
  }

  lemma UndecidedMoves(cfg: Config, s: State, e: Event, id: int, p: Place) returns (q: Place)
    requires Enabled(s, e) && !e.Handle? && !(e.Accept? && p == InQueue(|s.queue|))
    requires Holds(Step(cfg, s, e), p) == Some(id) && Undecided(Step(cfg, s, e), p)
    ensures Holds(s, q) == Some(id) && Undecided(s, q)
  {
    hide TearDown, DoRelay, DoHandle, DoPop, FindByFd, Find;
    q := p;
    if e.Pop? {
      q := UndecidedPopped(s, e.w, id, p);
    } else if e.ReadMessage? {
      q := if p == AtMain then InPipe(0) else if p.InPipe? then InPipe(p.i + 1) else p;
    } else if e.Send? {
      q := if p == InPipe(|s.pipe|) then AtWorker(e.w) else p;
    } else if e.Relay? || e.Prune? {
      SocketsOnly(cfg, s, e);
    }
  }

  lemma UndecidedPopped(s: State, w: nat, id: int, p: Place) returns (q: Place)
    requires w < |s.workers| && s.workers[w].Woken?
    requires Holds(DoPop(s, w), p) == Some(id) && Undecided(DoPop(s, w), p)
    ensures Holds(s, q) == Some(id) && Undecided(s, q)
  {
    q := BeforePop(s, w, p);
  }

  lemma SocketsOnly(cfg: Config, s: State, e: Event)
    requires Enabled(s, e) && (e.Relay? || e.Prune?)
    ensures var t := Step(cfg, s, e);
      && t.queue == s.queue && t.workers == s.workers && t.pipe == s.pipe && (t.main.Waiting? || t.main.Ending?)
  {}

  lemma UndecidedInHandle(cfg: Config, s: State, clock: Option<LocalTime>, id: int, p: Place)
    requires s.main.Handling?
    requires Holds(DoHandle(cfg, s, clock), p) == Some(id) && Undecided(DoHandle(cfg, s, clock), p)
    ensures Holds(s, p) == Some(id) && Undecided(s, p)
  {
    hide UserAuth.Decide, Policy.Allowed;
  }

  // What a step pushes.
  lemma PushedStep(cfg: Config, s: State, e: Event)
    requires Inv(s) && Enabled(s, e)
    ensures var t := Step(cfg, s, e);
      || t.pushed == s.pushed
      || (e.Accept? && t.pushed == s.pushed + [Detect(s.nextId)] && t.queue == s.queue + [Detect(s.nextId)])
      || (e.Handle? && s.main.Handling? && s.main.msg.DetectResult?
          && t.pushed == s.pushed + [Connect(s.main.msg.sid)] && t.queue == s.queue + [Connect(s.main.msg.sid)])
  {
    if e.Accept? {
      AcceptFinds(s, e.fd, e.ip, e.memory);
    } else if e.Handle? {
      PushedInHandle(cfg, s, e.clock);
    }
    hide Inv, DoHandle;
  }

  lemma PushedInHandle(cfg: Config, s: State, clock: Option<LocalTime>)
    requires s.main.Handling?
    ensures var t := DoHandle(cfg, s, clock);
      || t.pushed == s.pushed
      || (s.main.msg.DetectResult?
          && t.pushed == s.pushed + [Connect(s.main.msg.sid)] && t.queue == s.queue + [Connect(s.main.msg.sid)])
  {
    hide UserAuth.Decide, Policy.Allowed;
  }

  lemma FreshStep(cfg: Config, s: State, e: Event)
    requires Inv(s) && Fresh(s) && Enabled(s, e)
    ensures Fresh(Step(cfg, s, e))
  {
    var t := Step(cfg, s, e);
    StepKeeps(cfg, s, e);
    PushedDistinct(cfg, s, e);
    hide Step, Inv, Enabled, Undecided, Holds, NoDuplicates;
    forall p | Holds(t, p).Some? && Undecided(t, p) ensures Connect(Holds(t, p).value) !in t.pushed {
      UndecidedStays(cfg, s, e, p);
    }
  }

  lemma PushedDistinct(cfg: Config, s: State, e: Event)
    requires Inv(s) && Fresh(s) && Enabled(s, e)
    ensures NoDuplicates(Step(cfg, s, e).pushed)
    ensures forall i :: 0 <= i < |Step(cfg, s, e).pushed| ==> Step(cfg, s, e).pushed[i].sid < Step(cfg, s, e).nextId
  {
    PushedStep(cfg, s, e);
    SessionsStep(cfg, s, e);
    MainIsLive(s);
    AtMainUndecided(s);
    hide Step, Inv, Enabled, Undecided, Holds;
  }

  lemma AtMainUndecided(s: State)
    ensures s.main.Handling? && s.main.msg.DetectResult? ==>
      Holds(s, AtMain) == Some(s.main.msg.sid) && Undecided(s, AtMain)
  {}

  lemma MainIsLive(s: State)
    requires Inv(s)
    ensures s.main.Handling? ==> Live(s, s.main.msg.sid) && s.main.msg.sid < s.nextId
  {
    if s.main.Handling? {
      CarriedIsLive(s, s.main.msg.sid);
    }
  }

  lemma UndecidedStays(cfg: Config, s: State, e: Event, p: Place)
    requires Inv(s) && Fresh(s) && Enabled(s, e) && Inv(Step(cfg, s, e))
    requires Holds(Step(cfg, s, e), p).Some? && Undecided(Step(cfg, s, e), p)
    ensures Connect(Holds(Step(cfg, s, e), p).value) !in Step(cfg, s, e).pushed
  {
    var t := Step(cfg, s, e);
    var id := Holds(t, p).value;
    UndecidedSource(cfg, s, e, id, p);
    PushedStep(cfg, s, e);
    if e.Accept? && p == InQueue(|s.queue|) {
      assert id == s.nextId by { AcceptFinds(s, e.fd, e.ip, e.memory); }
    } else if |t.queue| > |s.queue| && Connect(id) == t.queue[|s.queue|] {
      assert Holds(t, InQueue(|s.queue|)) == Some(id);
      PlaceUnique(t, p, InQueue(|s.queue|), id);
    }
  }

  lemma {:induction false} RunFresh(cfg: Config, s: State, es: seq<Event>)
    requires Init(s) && IsRun(cfg, s, es)
    ensures Fresh(After(cfg, s, es))
    decreases |es|
  {
    if es == [] {
      assert forall p :: Holds(s, p).Some? ==> !Undecided(s, p);
    } else {
      hide Init, Fresh, Step, Enabled;
      RunFresh(cfg, s, es[..|es| - 1]);
      RunKeeps(cfg, s, es[..|es| - 1]);
      FreshStep(cfg, After(cfg, s, es[..|es| - 1]), es[|es| - 1]);
    }
  }

  // For any number of workers and any interleaving: a pop never meets an empty queue, packages are
  // popped in dispatch order, and no package is dispatched, or run, twice.
  lemma QueueDiscipline(cfg: Config, s: State, es: seq<Event>, w: nat)
    requires Init(s) && IsRun(cfg, s, es)
    ensures var t := After(cfg, s, es);
      && t.pushed == t.popped + t.queue
      && NoDuplicates(t.pushed) && NoDuplicates(t.popped)
      && |t.queue| == t.sem + Sum(IsWoken, t.workers) + (if t.main.Posting? then 1 else 0)
      && (Enabled(t, Pop(w)) ==> t.queue != [])
  {
    RunFresh(cfg, s, es);
    RunKeeps(cfg, s, es);
    var t := After(cfg, s, es);
    if Enabled(t, Pop(w)) {
      PopFinds(t, w);
    }
    assert forall i :: 0 <= i < |t.popped| ==> t.popped[i] == t.pushed[i];
  }

  // ---- The host of a session ----

  ghost predicate AwaitsDetection(s: State, id: int) {
    exists p :: Holds(s, p) == Some(id) && Undetected(s, p)
  }

  lemma DetectionMoves(cfg: Config, s: State, e: Event, id: int, p: Place)
    requires Enabled(s, e) && !e.Handle? && !(e.Accept? && p == InQueue(|s.queue|))
    requires Holds(Step(cfg, s, e), p) == Some(id) && Undetected(Step(cfg, s, e), p)
    ensures AwaitsDetection(s, id)
  {
    hide TearDown, DoRelay, DoHandle, FindByFd, Find;
    var q := match e
      case Pop(w) => BeforePop(s, w, p)
      case _ => p;
    if e.Relay? || e.Prune? {
      SocketsOnly(cfg, s, e);
    }
    assert Holds(s, q) == Some(id) && Undetected(s, q);
  }

  lemma DetectionInHandle(cfg: Config, s: State, clock: Option<LocalTime>, id: int, p: Place)
    requires s.main.Handling?
    requires Holds(DoHandle(cfg, s, clock), p) == Some(id) && Undetected(DoHandle(cfg, s, clock), p)
    ensures AwaitsDetection(s, id)
  {
    hide UserAuth.Decide, Policy.Allowed;
    assert Holds(s, p) == Some(id) && Undetected(s, p);
  }

  lemma DetectionSource(cfg: Config, s: State, e: Event, id: int)
    requires Inv(s) && Enabled(s, e) && Live(s, id) && AwaitsDetection(Step(cfg, s, e), id)
    ensures AwaitsDetection(s, id)
  {
    var t := Step(cfg, s, e);
    var p :| Holds(t, p) == Some(id) && Undetected(t, p);
    if e.Accept? && p == InQueue(|s.queue|) {
      AcceptedHere(s, e.fd, e.ip, e.memory);
    } else if e.Handle? {
      DetectionInHandle(cfg, s, e.clock, id, p);
    } else {
      DetectionMoves(cfg, s, e, id, p);
    }
    hide Inv, AwaitsDetection;
  }

  lemma NotDetecting(s: State, id: int)
    requires !AwaitsDetection(s, id)
    ensures forall w :: 0 <= w < |s.workers| ==> s.workers[w] != Running(Detect(id))
  {
    forall w | 0 <= w < |s.workers| ensures s.workers[w] != Running(Detect(id)) {
      assert !(Holds(s, AtWorker(w)) == Some(id) && Undetected(s, AtWorker(w)));
    }
  }

  // Once detected, a session keeps its host, request and address for the rest of its life.
  lemma {:induction false} HostSetOnce(cfg: Config, s: State, es: seq<Event>, k: nat, id: int)
    requires Init(s) && IsRun(cfg, s, es) && k <= |es|
    requires Live(StateAt(cfg, s, es, k), id) && !AwaitsDetection(StateAt(cfg, s, es, k), id)
    requires Live(After(cfg, s, es), id)
    ensures !AwaitsDetection(After(cfg, s, es), id)
    ensures SameBasis(SessionOf(StateAt(cfg, s, es, k), id), SessionOf(After(cfg, s, es), id))
    decreases |es|
  {
    hide Step, Init, Enabled, Live, AwaitsDetection, SessionOf;
    if k == |es| {
      assert es[..k] == es;
    } else {
      var front := es[..|es| - 1];
      assert front[..k] == es[..k];
      RunKeeps(cfg, s, front);
      LiveBefore(cfg, s, es, k, id);
      HostSetOnce(cfg, s, front, k, id);
      HostStep(cfg, After(cfg, s, front), es[|es| - 1], id);
    }
  }

  lemma LiveBefore(cfg: Config, s: State, es: seq<Event>, k: nat, id: int)
    requires Init(s) && IsRun(cfg, s, es) && k < |es|
    requires Live(StateAt(cfg, s, es, k), id) && Live(After(cfg, s, es), id)
    ensures Live(After(cfg, s, es[..|es| - 1]), id)
  {
    var front := es[..|es| - 1];
    hide Step, Init, Enabled, Live, Inv;
    PrefixRun(cfg, s, es, k);
    RunKeeps(cfg, s, es[..k]);
    LiveIsBelow(StateAt(cfg, s, es, k), id);
    assert front[..k] == es[..k];
    NextIdGrows(cfg, s, front, k);
    RunKeeps(cfg, s, front);
    if !Live(After(cfg, s, front), id) {
      EndedHere(cfg, After(cfg, s, front), es[|es| - 1], id);
    }
  }

  lemma {:induction false} NextIdGrows(cfg: Config, s: State, es: seq<Event>, k: nat)
    requires Init(s) && IsRun(cfg, s, es) && k <= |es|
    ensures StateAt(cfg, s, es, k).nextId <= After(cfg, s, es).nextId
    decreases |es|
  {
    hide Step, Init, Enabled;
    if k == |es| {
      assert es[..k] == es;
    } else {
      var front := es[..|es| - 1];
      assert front[..k] == es[..k];
      NextIdGrows(cfg, s, front, k);
      RunKeeps(cfg, s, front);
      SessionsStep(cfg, After(cfg, s, front), es[|es| - 1]);
    }
  }

  lemma HostStep(cfg: Config, s: State, e: Event, id: int)
    requires Inv(s) && Enabled(s, e) && Live(s, id) && Live(Step(cfg, s, e), id) && !AwaitsDetection(s, id)
    ensures !AwaitsDetection(Step(cfg, s, e), id)
    ensures SameBasis(SessionOf(s, id), SessionOf(Step(cfg, s, e), id))
  {
    if AwaitsDetection(Step(cfg, s, e), id) {
      DetectionSource(cfg, s, e, id);
    }
    NotDetecting(s, id);
    if e.Finish? && s.main == Ending(id) {
      FinishedIsGone(s.sessions, s.nextId, id);
    }
    SessionStays(cfg, s, e, id);
    if !e.Accept? && !e.Finish? {
      BasisStep(cfg, s, e, Find(s.sessions, id));
    }
  }

  // ---- Where a host comes from ----

  // Step k of the run detects just this host and request for the session.
  ghost predicate DetectedAt(cfg: Config, s: State, es: seq<Event>, k: nat, x: Session)
    requires IsRun(cfg, s, es)
  {
    && k < |es| && es[k].RunDetect? && es[k].detected == Good(x.host, x.request)
    && es[k].w < |StateAt(cfg, s, es, k).workers|
    && StateAt(cfg, s, es, k).workers[es[k].w] == Running(Detect(x.id))
  }

  // What a step does to the host and request of a session.
  lemma HostComes(cfg: Config, s: State, e: Event, id: int)
    requires Inv(s) && Enabled(s, e) && Live(s, id) && Live(Step(cfg, s, e), id)
    ensures var x, y := SessionOf(s, id), SessionOf(Step(cfg, s, e), id);
      || (y.host == x.host && y.request == x.request && y.id == x.id)
      || (e.RunDetect? && s.workers[e.w] == Running(Detect(y.id)) && e.detected == Good(y.host, y.request))
  {
    if e.Finish? && s.main == Ending(id) {
      FinishedIsGone(s.sessions, s.nextId, id);
    }
    if e.RunDetect? {
      DetectionStores(cfg, s, e.w, e.detected, id);
      hide Step, Inv;
    } else {
      hide Inv;
      SessionStays(cfg, s, e, id);
      if !e.Accept? && !e.Finish? {
        FieldsStep(cfg, s, e, Find(s.sessions, id));
      }
      hide Step;
    }
  }

  lemma NewHasNoHost(cfg: Config, s: State, e: Event, id: int)
    requires Inv(s) && Enabled(s, e) && !Live(s, id) && Live(Step(cfg, s, e), id)
    ensures SessionOf(Step(cfg, s, e), id).host == SessionOf(Step(cfg, s, e), id).request == ""
  {
    StepKeeps(cfg, s, e);
    LiveIsBelow(Step(cfg, s, e), id);
    SessionsStep(cfg, s, e);
    if id < s.nextId {
      EndedHere(cfg, s, e, id);
    } else {
      AcceptedHere(s, e.fd, e.ip, e.memory);
    }
    hide Inv, Live, Find;
  }

  lemma DetectedStill(cfg: Config, s: State, es: seq<Event>, k: nat, x: Session, y: Session)
    requires IsRun(cfg, s, es) && es != [] && DetectedAt(cfg, s, es[..|es| - 1], k, x)
    requires y.host == x.host && y.request == x.request && y.id == x.id
    ensures DetectedAt(cfg, s, es, k, y)
  {
    hide Step, Enabled;
    var front := es[..|es| - 1];
    assert front[..k] == es[..k] && front[k] == es[k];
  }

  // In every run a session has no host and no request, or just those that its own detection found.
  lemma {:induction false} HostDetected(cfg: Config, s: State, es: seq<Event>, id: int)
    requires Init(s) && IsRun(cfg, s, es) && Live(After(cfg, s, es), id)
    ensures var x := SessionOf(After(cfg, s, es), id);
      x.host == x.request == "" || exists k: nat :: DetectedAt(cfg, s, es, k, x)
    decreases |es|
  {
    if es != [] {
      hide Init, Inv, Step, Enabled, Live, SessionOf;
      var front, e := es[..|es| - 1], es[|es| - 1];
      var t := After(cfg, s, front);
      RunKeeps(cfg, s, front);
      var y := SessionOf(After(cfg, s, es), id);
      if Live(t, id) {
        HostDetected(cfg, s, front, id);
        HostComes(cfg, t, e, id);
        var x := SessionOf(t, id);
        if e.RunDetect? && t.workers[e.w] == Running(Detect(y.id)) && e.detected == Good(y.host, y.request) {
          DetectedNow(cfg, s, es, y);
        } else if x.host != "" || x.request != "" {
          var k: nat :| DetectedAt(cfg, s, front, k, x);
          DetectedStill(cfg, s, es, k, x, y);
        }
      } else {
        NewHasNoHost(cfg, t, e, id);
      }
    }
  }

  lemma DetectedNow(cfg: Config, s: State, es: seq<Event>, x: Session)
    requires IsRun(cfg, s, es) && es != []
    requires var t, e := After(cfg, s, es[..|es| - 1]), es[|es| - 1];
      && e.RunDetect? && e.w < |t.workers| && t.workers[e.w] == Running(Detect(x.id))
      && e.detected == Good(x.host, x.request)
    ensures DetectedAt(cfg, s, es, |es| - 1, x)
  {
    hide Step;
  }
}
