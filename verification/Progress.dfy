// Without new clients and relay events every run comes to rest, and at rest every session is either
// ended or connected.

module Progress {
  import opened CStrings
  import opened TimeMap
  import opened Counting
  import opened Lifecycle
  import opened LifecycleInvariant
  import opened LifecycleTheorems
  import UserAuth
  import Policy

  // How many steps an item still has before it, at most.
  ghost function WorkRank(x: Work): nat { if x.Detect? then 15 else 7 }
  ghost function MessageRank(m: Message): nat { if m.DetectResult? then 12 else 3 }

  ghost function WorkerRank(w: Worker): nat {
    match w
    case Idle => 0
    case Woken => 1
    case Running(work) => WorkRank(work)
    case Connecting(_, _) => 6
    case Sending(m, _) => MessageRank(m) + 2
    case LateRead(_) => 1
  }

  ghost function MainRank(m: Main): nat {
    match m
    case Waiting => 0
    case Posting => 3
    case Handling(msg) => MessageRank(msg) - 1
    case Ending(_) => 1
  }

  ghost function Rank(s: State): nat {
    Sum(WorkRank, s.queue) + 2 * s.sem + Sum(WorkerRank, s.workers) + Sum(MessageRank, s.pipe) + MainRank(s.main)
  }

  // Events that the environment cannot withhold: no accept, no relay, no pruning.
  predicate Internal(e: Event) {
    !e.Accept? && !e.Relay? && !e.Prune?
  }

  lemma PopDecreases(s: State, w: nat)
    requires Counted(s) && Enabled(s, Pop(w))
    ensures Rank(DoPop(s, w)) < Rank(s)
  {
    PopFinds(s, w);
    assert Sum(WorkRank, s.queue) == WorkRank(s.queue[0]) + Sum(WorkRank, s.queue[1..]);
    hide Sum;
    SumUpdate(WorkerRank, s.workers, w, Running(s.queue[0]));
  }

  lemma WorkerDecreases(cfg: Config, s: State, e: Event)
    requires Inv(s) && Enabled(s, e)
    requires e.Wake? || e.Pop? || e.RunDetect? || e.RunResolve? || e.RunConnect? || e.Send? || e.ReadHost?
    ensures Rank(Step(cfg, s, e)) < Rank(s)
  {
    hide Sum, DoPop, DoAccept, DoHandle, DoRelay, TearDown, Find;
    if e.Pop? {
      PopDecreases(s, e.w);
    } else {
      hide Inv;
      var t := Step(cfg, s, e);
      SumUpdate(WorkerRank, s.workers, e.w, t.workers[e.w]);
      if e.Send? {
        SumSnoc(MessageRank, s.pipe, s.workers[e.w].msg);
      }
    }
  }

  lemma HandlingLive(s: State)
    requires Inv(s) && s.main.Handling?
    ensures Live(s, s.main.msg.sid)
  {
    CarriedIsLive(s, s.main.msg.sid);
    hide Inv, Count;
  }

  lemma PushRank(s: State, work: Work)
    ensures Rank(Push(s, work)) == Rank(s) - MainRank(s.main) + WorkRank(work) + 3
  {
    hide Sum;
    SumSnoc(WorkRank, s.queue, work);
  }

  lemma DetectDecreases(cfg: Config, s: State, i: nat, ok: bool, clock: Option<LocalTime>)
    requires i < |s.sessions| && s.main.Handling? && s.main.msg.DetectResult?
    ensures Rank(DoDetectResult(cfg, s, i, ok, clock)) < Rank(s)
  {
    var x := s.sessions[i];
    hide Sum, Decision, Policy.Allowed;
    match Decision(cfg, x, clock) {
      case Admit(user) =>
        PushRank(SetUser(s, i, user), Connect(x.id));
        SumSnoc(MessageRank, s.pipe, ConnectResult(x.id, FAILED, false));
      case _ =>
    }
    hide Push;
  }

  lemma HandleDecreases(cfg: Config, s: State, clock: Option<LocalTime>)
    requires Inv(s) && s.main.Handling?
    ensures Rank(DoHandle(cfg, s, clock)) < Rank(s)
  {
    HandlingLive(s);
    hide Sum, Inv, DoDetectResult;
    if s.main.msg.DetectResult? {
      DetectDecreases(cfg, s, Find(s.sessions, s.main.msg.sid), s.main.msg.ok, clock);
    }
  }

  lemma MainDecreases(cfg: Config, s: State, e: Event)
    requires Inv(s) && Enabled(s, e)
    requires e.Post? || e.ReadMessage? || e.Handle? || e.Finish?
    ensures Rank(Step(cfg, s, e)) < Rank(s)
  {
    if e.ReadMessage? {
      assert Sum(MessageRank, s.pipe) == MessageRank(s.pipe[0]) + Sum(MessageRank, s.pipe[1..]);
    } else if e.Handle? {
      HandleDecreases(cfg, s, e.clock);
    }
    hide Sum, Inv, DoHandle;
  }

  lemma RankDecreases(cfg: Config, s: State, e: Event)
    requires Inv(s) && Enabled(s, e) && Internal(e)
    ensures Rank(Step(cfg, s, e)) < Rank(s)
  {
    hide Rank, Step, Inv;
    if e.Post? || e.ReadMessage? || e.Handle? || e.Finish? {
      MainDecreases(cfg, s, e);
    } else {
      WorkerDecreases(cfg, s, e);
    }
  }

  // From any reachable state, internal steps alone can go on for at most Rank steps.
  lemma {:induction false} InternalRunsEnd(cfg: Config, s: State, before: seq<Event>, es: seq<Event>)
    requires Init(s) && IsRun(cfg, s, before) && IsRun(cfg, s, before + es)
    requires forall i :: 0 <= i < |es| ==> Internal(es[i])
    ensures |es| + Rank(After(cfg, s, before + es)) <= Rank(After(cfg, s, before))
    decreases |es|
  {
    hide Rank, Step, Init, Enabled;
    if es == [] {
      assert before + es == before;
    } else {
      var front, e := es[..|es| - 1], es[|es| - 1];
      assert (before + es)[..|before + es| - 1] == before + front;
      InternalRunsEnd(cfg, s, before, front);
      RunKeeps(cfg, s, before + front);
      RankDecreases(cfg, After(cfg, s, before + front), e);
    }
  }

  ghost predicate Established(s: State, id: int) {
    exists i :: 0 <= i < |s.sockets| && s.sockets[i].Client? && s.sockets[i].toServer && s.sockets[i].sid == id
  }

  // While some session is neither ended nor connected, some internal step is enabled.
  lemma SomethingEnabled(s: State) returns (e: Event)
    requires Inv(s) && |s.workers| > 0
    requires exists id :: Live(s, id) && !Established(s, id)
    ensures Internal(e) && Enabled(s, e)
  {
    if !s.main.Waiting? {
      e := match s.main case Posting => Post case Handling(_) => Handle(None) case _ => Finish;
    } else if s.pipe != [] {
      e := ReadMessage;
    } else if w: nat :| w < |s.workers| && !s.workers[w].Idle? {
      e := match s.workers[w]
        case Woken => Pop(w)
        case Running(work) => if work.Detect? then RunDetect(w, Bad) else RunResolve(w, NoAddress)
        case Connecting(_, _) => RunConnect(w, false)
        case Sending(_, _) => Send(w)
        case _ => ReadHost(w);
    } else {
      var id :| Live(s, id) && !Established(s, id);
      var p := PlaceExists(s, id);
      NobodyWoken(s.workers);
      e := Wake(0);
    }
  }

  // No deadlock, for any number of workers: where no internal step is enabled, every session that
  // has not ended is connected.
  lemma RestIsSettled(cfg: Config, s: State, es: seq<Event>, id: int)
    requires Init(s) && |s.workers| > 0 && IsRun(cfg, s, es)
    requires forall e :: Internal(e) ==> !Enabled(After(cfg, s, es), e)
    ensures Live(After(cfg, s, es), id) ==> Established(After(cfg, s, es), id)
  {
    RunKeeps(cfg, s, es);
    WorkersStay(cfg, s, es);
    var t := After(cfg, s, es);
    hide Inv, Enabled, Established;
    if Live(t, id) && !Established(t, id) {
      var e := SomethingEnabled(t);
    }
  }

  lemma {:induction false} WorkersStay(cfg: Config, s: State, es: seq<Event>)
    requires IsRun(cfg, s, es)
    ensures |After(cfg, s, es).workers| == |s.workers|
    decreases |es|
  {
    if es != [] {
      WorkersStay(cfg, s, es[..|es| - 1]);
      WorkersKept(cfg, After(cfg, s, es[..|es| - 1]), es[|es| - 1]);
    }
  }

  lemma WorkersKept(cfg: Config, s: State, e: Event)
    requires Enabled(s, e)
    ensures |Step(cfg, s, e).workers| == |s.workers|
  {
    hide UserAuth.Decide, Policy.Allowed;
  }
}
