// A run of one session and one worker in which the connector reads the host of a session that the
// dispatch thread has already ended.

module LifecycleWitness {
  import opened CStrings
  import opened Counting
  import opened ClientSockets
  import opened Lifecycle
  import opened LifecycleInvariant
  import opened LifecycleTheorems

  const OPEN_PROXY: Config := Config(false, [], [], [])
  const FAIL: Message := ConnectResult(0, -1, false)
  const ZERO: Counts := Counts(0, 0)
  const ACCEPTED: Session := Session(0, 10, "ip", "", "", "", 0, 0)
  const DETECTED: Session := Session(0, 10, "ip", "", "host", "GET", 0, 0)

  // One worker, the fixed sockets on descriptors 3 and 4.
  function At(sessions: seq<Session>, queue: seq<Work>, sem: nat, worker: Worker, pipe: seq<Message>, main: Main,
              open: set<int>, pushed: seq<Work>, popped: seq<Work>): State
  {
    State(sessions, if pushed == [] then 0 else 1, queue, sem, [worker], pipe, main,
          [Server(3), Command(4)], open, pushed, popped)
  }

  ghost predicate Reaches(s: State, es: seq<Event>, t: State) {
    IsRun(OPEN_PROXY, s, es) && After(OPEN_PROXY, s, es) == t
  }

  lemma Then(s: State, es: seq<Event>, t: State, e: Event, u: State)
    requires Reaches(s, es, t) && Enabled(t, e) && Step(OPEN_PROXY, t, e) == u
    ensures Reaches(s, es + [e], u)
  {
    Extend(OPEN_PROXY, s, es, e);
  }

  const D: Work := Detect(0)
  const C: Work := Connect(0)
  const START: State := At([], [], 0, Idle, [], Waiting, {3, 4}, [], [])

  const DETECTING: State :=
    At([DETECTED], [], 0, Sending(DetectResult(0, true), false), [], Waiting, {3, 4, 10}, [D], [D])

  lemma AcceptPhase() returns (es: seq<Event>)
    ensures Reaches(START, es, At([ACCEPTED], [D], 1, Idle, [], Waiting, {3, 4, 10}, [D], []))
  {
    var s1 := At([ACCEPTED], [D], 0, Idle, [], Posting, {3, 4, 10}, [D], []);
    var s2 := At([ACCEPTED], [D], 1, Idle, [], Waiting, {3, 4, 10}, [D], []);
    hide IsRun, After;
    assert Reaches(START, [], START) by { StartsHere(); }
    AcceptStep();
    Then(START, [], START, Accept(10, "ip", ZERO), s1);
    es := [] + [Accept(10, "ip", ZERO)];
    Then(START, es, s1, Post, s2);
    es := es + [Post];
  }

  lemma StartsHere()
    ensures Reaches(START, [], START)
  {}

  lemma AcceptStep()
    ensures DoAccept(START, 10, "ip", ZERO) == At([ACCEPTED], [D], 0, Idle, [], Posting, {3, 4, 10}, [D], [])
  {
    assert [] + [NewSession(0, 10, "", ZERO)] == [NewSession(0, 10, "", ZERO)];
  }

  lemma DetectPhase(es0: seq<Event>) returns (es: seq<Event>)
    requires Reaches(START, es0, At([ACCEPTED], [D], 1, Idle, [], Waiting, {3, 4, 10}, [D], []))
    ensures Reaches(START, es, DETECTING)
  {
    var o := {3, 4, 10};
    var s2 := At([ACCEPTED], [D], 1, Idle, [], Waiting, o, [D], []);
    var s3 := At([ACCEPTED], [D], 0, Woken, [], Waiting, o, [D], []);
    var s4 := At([ACCEPTED], [], 0, Running(D), [], Waiting, o, [D], [D]);
    hide IsRun, After;
    es := es0;
    Then(START, es, s2, Wake(0), s3);
    es := es + [Wake(0)];
    Then(START, es, s3, Pop(0), s4);
    es := es + [Pop(0)];
    Then(START, es, s4, RunDetect(0, Good("host", "GET")), DETECTING);
    es := es + [RunDetect(0, Good("host", "GET"))];
  }

  lemma AdmitPhase(es0: seq<Event>) returns (es: seq<Event>)
    requires Reaches(START, es0, DETECTING)
    ensures Reaches(START, es, At([DETECTED], [C], 1, Idle, [], Waiting, {3, 4, 10}, [D, C], [D]))
  {
    var o := {3, 4, 10};
    var s0 := At([DETECTED], [], 0, Sending(DetectResult(0, true), false), [], Waiting, o, [D], [D]);
    var s1 := At([DETECTED], [], 0, Idle, [DetectResult(0, true)], Waiting, o, [D], [D]);
    var s2 := At([DETECTED], [], 0, Idle, [], Handling(DetectResult(0, true)), o, [D], [D]);
    var s3 := At([DETECTED], [C], 0, Idle, [], Posting, o, [D, C], [D]);
    var s4 := At([DETECTED], [C], 1, Idle, [], Waiting, o, [D, C], [D]);
    es := es0;
    Then(START, es, s0, Send(0), s1);
    es := es + [Send(0)];
    Then(START, es, s1, ReadMessage, s2);
    es := es + [ReadMessage];
    Then(START, es, s2, Handle(None), s3);
    es := es + [Handle(None)];
    Then(START, es, s3, Post, s4);
    es := es + [Post];
  }

  lemma FailPhase(es0: seq<Event>) returns (es: seq<Event>)
    requires Reaches(START, es0, At([DETECTED], [C], 1, Idle, [], Waiting, {3, 4, 10}, [D, C], [D]))
    ensures Reaches(START, es, At([DETECTED], [], 0, LateRead(0), [FAIL], Waiting, {3, 4, 10, 11}, [D, C], [D, C]))
  {
    var o := {3, 4, 10};
    var s0 := At([DETECTED], [C], 1, Idle, [], Waiting, o, [D, C], [D]);
    var s1 := At([DETECTED], [C], 0, Woken, [], Waiting, o, [D, C], [D]);
    var s2 := At([DETECTED], [], 0, Running(C), [], Waiting, o, [D, C], [D, C]);
    var s3 := At([DETECTED], [], 0, Connecting(0, 11), [], Waiting, o + {11}, [D, C], [D, C]);
    var s4 := At([DETECTED], [], 0, Sending(FAIL, true), [], Waiting, o + {11}, [D, C], [D, C]);
    var s5 := At([DETECTED], [], 0, LateRead(0), [FAIL], Waiting, o + {11}, [D, C], [D, C]);
    assert o + {11} == {3, 4, 10, 11};
    es := es0;
    Then(START, es, s0, Wake(0), s1);
    es := es + [Wake(0)];
    Then(START, es, s1, Pop(0), s2);
    es := es + [Pop(0)];
    Then(START, es, s2, RunResolve(0, Opened(11)), s3);
    es := es + [RunResolve(0, Opened(11))];
    Then(START, es, s3, RunConnect(0, false), s4);
    es := es + [RunConnect(0, false)];
    Then(START, es, s4, Send(0), s5);
    es := es + [Send(0)];
  }

  lemma EndPhase(es0: seq<Event>) returns (es: seq<Event>)
    requires Reaches(START, es0, At([DETECTED], [], 0, LateRead(0), [FAIL], Waiting, {3, 4, 10, 11}, [D, C], [D, C]))
    ensures Reaches(START, es, At([], [], 0, LateRead(0), [], Waiting, {3, 4, 11}, [D, C], [D, C]))
  {
    var s0 := At([DETECTED], [], 0, LateRead(0), [FAIL], Waiting, {3, 4, 10, 11}, [D, C], [D, C]);
    var s1 := At([DETECTED], [], 0, LateRead(0), [], Handling(FAIL), {3, 4, 10, 11}, [D, C], [D, C]);
    var s2 := At([DETECTED], [], 0, LateRead(0), [], Ending(0), {3, 4, 11}, [D, C], [D, C]);
    var s3 := At([], [], 0, LateRead(0), [], Waiting, {3, 4, 11}, [D, C], [D, C]);
    es := es0;
    Then(START, es, s0, ReadMessage, s1);
    es := es + [ReadMessage];
    Then(START, es, s1, Handle(None), s2);
    es := es + [Handle(None)];
    Then(START, es, s2, Finish, s3);
    es := es + [Finish];
  }

  // After a connect that fails, the dispatch thread can finish the session before the worker reads
  // its host: the only dereference of the whole system that can fault does fault in this run.
  lemma LateReadFaults() returns (es: seq<Event>)
    ensures Init(START) && IsRun(OPEN_PROXY, START, es)
    ensures Enabled(After(OPEN_PROXY, START, es), ReadHost(0)) && Faults(After(OPEN_PROXY, START, es), ReadHost(0))
  {
    es := FailedRun();
  }

  lemma FailedRun() returns (es: seq<Event>)
    ensures Reaches(START, es, At([], [], 0, LateRead(0), [], Waiting, {3, 4, 11}, [D, C], [D, C]))
  {
    es := AcceptPhase();
    es := DetectPhase(es);
    es := AdmitPhase(es);
    es := FailPhase(es);
    es := EndPhase(es);
  }

  // In the same run the socket that could not be connected stays open after its session has ended,
  // and nothing owns it.
  lemma SocketLeaks() returns (es: seq<Event>)
    ensures Init(START) && IsRun(OPEN_PROXY, START, es)
    ensures After(OPEN_PROXY, START, es).sessions == [] && Stray(After(OPEN_PROXY, START, es), 11)
  {
    es := FailedRun();
    hide IsRun, After;
    var t := At([], [], 0, LateRead(0), [], Waiting, {3, 4, 11}, [D, C], [D, C]);
    assert t.sockets == [Server(3)] + [Command(4)];
    CountSnoc(SocketFd, 11, [Server(3)], Command(4));
    CountSnoc(SocketFd, 11, [], Server(3));
    assert [] + [Server(3)] == [Server(3)];
    CountSnoc(WorkerFd, 11, [], LateRead(0));
    assert [] + [LateRead(0)] == [LateRead(0)];
  }
}
