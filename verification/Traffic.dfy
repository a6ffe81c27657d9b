// The byte counters of the sessions over whole runs of the step system: each session is, at every
// moment, where its own events on its own two sockets lead in Relay.

module Traffic {
  import opened CStrings
  import opened Words
  import opened ClientSockets
  import opened Lifecycle
  import opened LifecycleInvariant
  import opened LifecycleTheorems
  import opened Mediation
  import Relaying = Relay

  // ---- The events of one session ----

  // The step is an event on a socket of this session.
  ghost predicate On(s: State, e: Event, id: int)
    requires Enabled(s, e)
  {
    e.Relay? && s.sockets[FindSocket(s.sockets, e.fd)].sid == id
  }

  ghost function RelayEvent(s: State, e: Event): (r: Relaying.Event)
    requires Enabled(s, e) && e.Relay?
    ensures Relaying.IsEvent(r)
  {
    Relaying.Event(s.sockets[FindSocket(s.sockets, e.fd)].toServer, e.answer, e.outs)
  }

  // The events of a run on the sockets of this session, in order.
  ghost function RelayEvents(cfg: Config, s: State, es: seq<Event>, id: int): (r: seq<Relaying.Event>)
    requires IsRun(cfg, s, es)
    ensures forall i :: 0 <= i < |r| ==> Relaying.IsEvent(r[i])
    decreases |es|
  {
    if es == [] then []
    else
      var front, t, e := es[..|es| - 1], After(cfg, s, es[..|es| - 1]), es[|es| - 1];
      RelayEvents(cfg, s, front, id) + if On(t, e, id) then [RelayEvent(t, e)] else []
  }

  // What the memory held where the counters of this session were made.
  ghost function Origin(cfg: Config, s: State, es: seq<Event>, id: int): Counts
    requires IsRun(cfg, s, es)
    decreases |es|
  {
    if es == [] then Counts(0, 0)
    else
      var front, t, e := es[..|es| - 1], After(cfg, s, es[..|es| - 1]), es[|es| - 1];
      if e.Accept? && id == t.nextId then e.memory else Origin(cfg, s, front, id)
  }

  // The relaying of this session so far.
  ghost function Relayings(cfg: Config, s: State, es: seq<Event>, id: int): Relaying.Session
    requires IsRun(cfg, s, es)
  {
    Relaying.After(Origin(cfg, s, es, id), RelayEvents(cfg, s, es, id))
  }

  ghost function Handled(s: State, e: Event, id: int, r: Relaying.Session): Relaying.Session
    requires Enabled(s, e)
  {
    if e.Accept? && id == s.nextId then Relaying.Start(e.memory)
    else if On(s, e, id) then Relaying.Handle(r, RelayEvent(s, e)) else r
  }

  // ---- What is tracked ----

  ghost predicate OwnsPair(ks: seq<Socket>, id: int) {
    exists i :: 0 <= i < |ks| && PairId(ks[i]) == Some(id)
  }

  // The pair that starts at i is open and has these two flows.
  ghost predicate IsPair(ks: seq<Socket>, i: nat, r: Relaying.Session) {
    && i + 1 < |ks| && ks[i].Client? && ks[i + 1].Client?
    && r.open && r.up == ks[i].flow && r.down == ks[i + 1].flow
  }

  ghost predicate PairsAre(ks: seq<Socket>, id: int, r: Relaying.Session) {
    forall i :: 0 <= i < |ks| && PairId(ks[i]) == Some(id) ==> IsPair(ks, i, r)
  }

  ghost predicate Untouched(r: Relaying.Session) {
    r.open && r.up == Fresh() && r.down == Fresh()
  }

  // A live session has these counters; its pair, if it has one, these flows; and before it has one
  // nothing happened yet.
  ghost predicate Tracked(s: State, id: int, r: Relaying.Session) {
    Live(s, id) ==>
      && SessionOf(s, id).rx == r.rx && SessionOf(s, id).tx == r.tx
      && PairsAre(s.sockets, id, r)
      && (!OwnsPair(s.sockets, id) && s.main != Ending(id) ==> Untouched(r))
  }

  // ---- Steps ----

  lemma LiveFromLive(cfg: Config, s: State, e: Event, id: int)
    requires Inv(s) && Enabled(s, e) && Live(Step(cfg, s, e), id) && !(e.Accept? && id == s.nextId)
    ensures Live(s, id) && (e.Finish? ==> s.main != Ending(id))
  {
    StepKeeps(cfg, s, e);
    LiveIsBelow(Step(cfg, s, e), id);
    SessionsStep(cfg, s, e);
    if e.Finish? && s.main == Ending(id) {
      FinishedIsGone(s.sessions, s.nextId, id);
    }
    hide Step, Inv, Enabled;
    if !Live(s, id) && id < s.nextId {
      EndedHere(cfg, s, e, id);
    }
  }

  // Only relaying changes the counters of a session.
  lemma CountersStay(cfg: Config, s: State, e: Event, i: nat)
    requires Enabled(s, e) && !e.Accept? && !e.Finish? && !e.Relay? && i < |s.sessions|
    ensures |Step(cfg, s, e).sessions| == |s.sessions|
    ensures Step(cfg, s, e).sessions[i].rx == s.sessions[i].rx && Step(cfg, s, e).sessions[i].tx == s.sessions[i].tx
  {
    FieldsStep(cfg, s, e, i);
    hide Step;
  }

  // What a step that does not relay or prune does to the sockets.
  lemma SocketsStay(cfg: Config, s: State, e: Event)
    requires Enabled(s, e) && !e.Relay? && !e.Prune?
    ensures var t := Step(cfg, s, e);
      t.sockets == s.sockets || (e.Handle? && Established(s, t))
    ensures s.main.Ending? && !e.Finish? ==> Step(cfg, s, e).main == s.main
  {
    hide UserAuth.Decide, Policy.Allowed, DoAccept, Find;
    if e.Accept? {
      AcceptsNoSocket(s, e.fd, e.ip, e.memory);
    }
  }

  lemma AcceptsNoSocket(s: State, fd: int, ip: string, memory: Counts)
    ensures DoAccept(s, fd, ip, memory).sockets == s.sockets
  {}

  // The session in hand got its pair.
  ghost predicate Established(s: State, t: State) {
    && s.main.Handling? && s.main.msg.ConnectResult? && Live(s, s.main.msg.sid)
    && t.sockets == s.sockets + PairOf(SessionOf(s, s.main.msg.sid), s.main.msg.fd)
  }

  // Sessions and sockets of the id are as before, and so is whether it is ending.
  lemma TrackedStill(s: State, t: State, id: int, r: Relaying.Session)
    requires Tracked(s, id, r) && Live(s, id) && Live(t, id)
    requires SessionOf(t, id).rx == SessionOf(s, id).rx && SessionOf(t, id).tx == SessionOf(s, id).tx
    requires t.sockets == s.sockets && (s.main == Ending(id) ==> t.main == Ending(id))
    ensures Tracked(t, id, r)
  {
    hide Live, SessionOf, OwnsPair, PairsAre, Untouched;
  }

  lemma TrackedNew(s: State, e: Event)
    requires Inv(s) && Enabled(s, e) && e.Accept?
    ensures Tracked(DoAccept(s, e.fd, e.ip, e.memory), s.nextId, Relaying.Start(e.memory))
  {
    var t, id := DoAccept(s, e.fd, e.ip, e.memory), s.nextId;
    AcceptedHere(s, e.fd, e.ip, e.memory);
    AcceptsNoSocket(s, e.fd, e.ip, e.memory);
    forall i | 0 <= i < |s.sockets| ensures PairId(s.sockets[i]) != Some(id) {
      if PairId(s.sockets[i]) == Some(id) {
        SocketLive(s, i);
      }
    }
    hide DoAccept, Inv, Find;
  }

  lemma TrackedEstablished(s: State, t: State, id: int, r: Relaying.Session)
    requires Inv(s) && Tracked(s, id, r) && Live(s, id) && Live(t, id)
    requires SessionOf(t, id).rx == SessionOf(s, id).rx && SessionOf(t, id).tx == SessionOf(s, id).tx
    requires Established(s, t)
    ensures Tracked(t, id, r)
  {
    var sid, n := s.main.msg.sid, |s.sockets|;
    if id == sid && OwnsPair(s.sockets, id) {
      var i :| 0 <= i < n && PairId(s.sockets[i]) == Some(id);
      PlaceUnique(s, AtMain, InSockets(i), id);
    }
    PairsAppend(s.sockets, PairOf(SessionOf(s, sid), s.main.msg.fd), id, r);
    hide Inv, Live, SessionOf, OwnsPair, PairsAre;
  }

  lemma PairsAppend(ks: seq<Socket>, pair: seq<Socket>, id: int, r: Relaying.Session)
    requires PairsAre(ks, id, r)
    requires |pair| == 2 && PairId(pair[0]).Some? && PairId(pair[1]).None? && pair[1].Client?
    requires pair[0].sid == id ==> r.open && r.up == pair[0].flow && r.down == pair[1].flow
    ensures PairsAre(ks + pair, id, r)
    ensures OwnsPair(ks + pair, id) <==> OwnsPair(ks, id) || pair[0].sid == id
  {
    var all := ks + pair;
    forall i | 0 <= i < |all| && PairId(all[i]) == Some(id) ensures IsPair(all, i, r) {
      if i < |ks| {
        assert PairId(ks[i]) == Some(id);
        assert IsPair(ks, i, r);
      }
    }
    if OwnsPair(ks, id) {
      var i :| 0 <= i < |ks| && PairId(ks[i]) == Some(id);
      assert PairId(all[i]) == Some(id);
    }
    assert PairId(all[|ks|]) == Some(pair[0].sid);
    if OwnsPair(all, id) {
      var i :| 0 <= i < |all| && PairId(all[i]) == Some(id);
      assert i < |ks| ==> PairId(ks[i]) == Some(id);
    }
  }

  // A step other than relaying and pruning.
  lemma TrackedElsewhere(cfg: Config, s: State, e: Event, id: int, r: Relaying.Session)
    requires Inv(s) && Enabled(s, e) && !e.Relay? && !e.Prune? && Tracked(s, id, r)
    ensures Tracked(Step(cfg, s, e), id, if e.Accept? && id == s.nextId then Relaying.Start(e.memory) else r)
  {
    var t := Step(cfg, s, e);
    hide Inv, Enabled, Step, Tracked, OwnsPair, Established, Relaying.Start;
    if e.Accept? && id == s.nextId {
      TrackedNew(s, e);
      assert t == DoAccept(s, e.fd, e.ip, e.memory) by { StepOfAccept(cfg, s, e); }
    } else if Live(t, id) {
      LiveFromLive(cfg, s, e, id);
      SessionStays(cfg, s, e, id);
      if !e.Accept? && !e.Finish? {
        CountersStay(cfg, s, e, Find(s.sessions, id));
      }
      SocketsStay(cfg, s, e);
      if t.sockets == s.sockets {
        TrackedStill(s, t, id, r);
      } else {
        TrackedEstablished(s, t, id, r);
      }
    } else {
      TrackedDead(t, id, r);
    }
  }

  lemma StepOfAccept(cfg: Config, s: State, e: Event)
    requires Enabled(s, e) && e.Accept?
    ensures Step(cfg, s, e) == DoAccept(s, e.fd, e.ip, e.memory)
  {}

  lemma TrackedDead(t: State, id: int, r: Relaying.Session)
    requires !Live(t, id)
    ensures Tracked(t, id, r)
  {}

  // ---- Relaying and taking down ----

  lemma PairsWithout(ks: seq<Socket>, i: nat, id: int, r: Relaying.Session)
    requires InPairs(ks) && 2 <= i < |ks| && i / 2 * 2 + 2 <= |ks|
    requires PairsAre(ks, id, r) && ks[i].Client? && ks[i].sid != id
    ensures PairsAre(DropPair(ks, i), id, r)
    ensures OwnsPair(ks, id) ==> OwnsPair(DropPair(ks, i), id)
  {
    var rest, b := DropPair(ks, i), i / 2 * 2;
    PeerOf(ks, i);
    PeerOf(ks, b);
    assert forall k :: 0 <= k < |rest| ==> rest[k] == ks[if k < b then k else k + 2];
    forall k | 0 <= k < |rest| && PairId(rest[k]) == Some(id) ensures IsPair(rest, k, r) {
      var k' := if k < b then k else k + 2;
      assert PairId(ks[k']) == Some(id);
      assert IsPair(ks, k', r);
      EvenStart(ks, k');
    }
    if OwnsPair(ks, id) {
      var k :| 0 <= k < |ks| && PairId(ks[k]) == Some(id);
      assert k != b && k != b + 1;
      assert PairId(rest[if k < b then k else k - 2]) == Some(id);
    }
  }

  lemma EvenStart(ks: seq<Socket>, i: nat)
    requires InPairs(ks) && i < |ks| && PairId(ks[i]).Some?
    ensures 2 <= i && i % 2 == 0
  {
    PeerOf(ks, i);
  }

  lemma PairIsLive(s: State, i: nat)
    requires Inv(s) && 2 <= i < |s.sockets|
    ensures s.sockets[i].Client? && Live(s, s.sockets[i].sid) && s.sockets[i].sid < s.nextId
  {
    PeerOf(s.sockets, i);
    SocketLive(s, i / 2 * 2);
  }

  lemma TornDown(s: State, i: nat)
    requires Inv(s) && s.main.Waiting? && 2 <= i < |s.sockets| && s.sockets[i].Client?
    ensures !OwnsPair(TearDown(s, i).sockets, s.sockets[i].sid) && TearDown(s, i).main == Ending(s.sockets[i].sid)
  {
    hide Inv, TearDown, DropPair, InPairs;
    TearDownKeeps(s, i);
    TearDownShape(s, i);
    var t, id := TearDown(s, i), s.sockets[i].sid;
    forall k | 0 <= k < |t.sockets| ensures PairId(t.sockets[k]) != Some(id) {
      if PairId(t.sockets[k]) == Some(id) {
        PlaceUnique(t, AtMain, InSockets(k), id);
      }
    }
  }

  lemma PairsUnowned(ks: seq<Socket>, id: int, r: Relaying.Session)
    requires !OwnsPair(ks, id)
    ensures PairsAre(ks, id, r)
  {}

  // A session whose pair goes keeps its counters; the others keep everything.
  lemma TrackedTearDown(s: State, i: nat, id: int, r: Relaying.Session, after: Relaying.Session)
    requires Inv(s) && s.main.Waiting? && 2 <= i < |s.sockets| && s.sockets[i].Client? && Tracked(s, id, r)
    requires if s.sockets[i].sid == id then after.rx == r.rx && after.tx == r.tx else after == r
    ensures Tracked(TearDown(s, i), id, after)
  {
    hide Inv, TearDown, InPairs, DropPair, OwnsPair, PairsAre, Live, SessionOf, Untouched;
    TearDownShape(s, i);
    PairIsLive(s, i);
    if id == s.sockets[i].sid {
      TornDown(s, i);
      PairsUnowned(TearDown(s, i).sockets, id, after);
    } else if Live(s, id) {
      assert InPairs(s.sockets) by { PairsOf(s); }
      PairsWithout(s.sockets, i, id, r);
    }
    SameSessions(s, TearDown(s, i), id);
  }

  lemma SameSessions(s: State, t: State, id: int)
    requires t.sessions == s.sessions
    ensures Live(t, id) <==> Live(s, id)
    ensures Live(s, id) ==> SessionOf(t, id) == SessionOf(s, id)
  {}

  lemma OnlyPair(s: State, i: nat, k: nat)
    requires Inv(s) && 2 <= i < |s.sockets| && k < |s.sockets|
    requires s.sockets[i].Client? && PairId(s.sockets[k]) == Some(s.sockets[i].sid)
    ensures k == i / 2 * 2
  {
    var b := i / 2 * 2;
    PeerOf(s.sockets, b);
    PeerOf(s.sockets, i);
    hide Inv, InPairs;
    if k < b {
      PairIdsDistinct(s, k, b);
    } else if b < k {
      PairIdsDistinct(s, b, k);
    }
  }

  // The flow of one socket changes: its pair is what one event on it makes of it.
  lemma PairsRelayed(s: State, i: nat, id: int, r: Relaying.Session, answer: ReadAnswer, outs: seq<WriteAnswer>)
    requires Inv(s) && 2 <= i < |s.sockets| && s.sockets[i].Client? && IsPass(answer, outs)
    requires PairsAre(s.sockets, id, r) && s.sockets[i].flow.active
    ensures var k := s.sockets[i];
      var ks := s.sockets[i := k.(flow := Pass(k.flow, answer, outs).0)];
      && PairsAre(ks, id, if k.sid == id then Relaying.Handle(r, Relaying.Event(k.toServer, answer, outs)) else r)
      && (OwnsPair(ks, id) <==> OwnsPair(s.sockets, id))
  {
    hide Inv, Pass, IsPass;
    var k := s.sockets[i];
    var ks := s.sockets[i := k.(flow := Pass(k.flow, answer, outs).0)];
    forall j | 0 <= j < |ks| && PairId(ks[j]) == Some(id)
      ensures IsPair(ks, j, if k.sid == id then Relaying.Handle(r, Relaying.Event(k.toServer, answer, outs)) else r)
    {
      assert PairId(s.sockets[j]) == Some(id) && IsPair(s.sockets, j, r);
      PairsOf(s);
      PeerOf(s.sockets, j);
      PeerOf(s.sockets, i);
      if k.sid == id {
        OnlyPair(s, i, j);
      }
    }
    assert forall j :: 0 <= j < |ks| ==> PairId(ks[j]) == PairId(s.sockets[j]);
  }

  lemma CountersRelayed(s: State, i: nat, id: int, r: Relaying.Session, answer: ReadAnswer, outs: seq<WriteAnswer>)
    requires Ordered(s.sessions, s.nextId)
    requires i < |s.sockets| && s.sockets[i].Client? && Live(s, s.sockets[i].sid) && IsPass(answer, outs)
    requires Live(s, id) && SessionOf(s, id).rx == r.rx && SessionOf(s, id).tx == r.tx
    requires s.sockets[i].sid == id ==>
      r.open && s.sockets[i].flow.active && s.sockets[i].flow == if s.sockets[i].toServer then r.up else r.down
    ensures var t, k := Relayed(s, i, Find(s.sessions, s.sockets[i].sid), answer, outs), s.sockets[i];
      var after := if k.sid == id then Relaying.Handle(r, Relaying.Event(k.toServer, answer, outs)) else r;
      Live(t, id) && SessionOf(t, id).rx == after.rx && SessionOf(t, id).tx == after.tx
  {
    hide Pass, IsPass, Add;
    var t := Relayed(s, i, Find(s.sessions, s.sockets[i].sid), answer, outs);
    assert SameKeys(s.sessions, t.sessions);
    SameKeysCount(s.sessions, t.sessions, id);
  }

  // The flow that an active socket of a session relays.
  lemma FlowOf(s: State, i: nat, r: Relaying.Session)
    requires Inv(s) && 2 <= i < |s.sockets| && s.sockets[i].Client? && PairsAre(s.sockets, s.sockets[i].sid, r)
    ensures r.open && s.sockets[i].flow == if s.sockets[i].toServer then r.up else r.down
  {
    PeerOf(s.sockets, i);
    PeerOf(s.sockets, i / 2 * 2);
    hide Inv, InPairs;
    assert IsPair(s.sockets, i / 2 * 2, r);
  }

  lemma TrackedRelayed(s: State, i: nat, id: int, r: Relaying.Session, answer: ReadAnswer, outs: seq<WriteAnswer>)
    requires Inv(s) && 2 <= i < |s.sockets| && s.sockets[i].Client? && Live(s, s.sockets[i].sid)
    requires IsPass(answer, outs) && s.sockets[i].flow.active && Tracked(s, id, r)
    ensures var k := s.sockets[i];
      var after := if k.sid == id then Relaying.Handle(r, Relaying.Event(k.toServer, answer, outs)) else r;
      Tracked(Relayed(s, i, Find(s.sessions, s.sockets[i].sid), answer, outs), id, after)
  {
    hide Inv, Pass, IsPass, PairsAre, OwnsPair, SessionOf, Untouched, Relaying.Handle;
    PairIsLive(s, i);
    OrderedOf(s);
    RelayedShape(s, i, answer, outs, id);
    if Live(s, id) {
      if s.sockets[i].sid == id {
        FlowOf(s, i, r);
        OwnsItsPair(s, i);
      }
      PairsRelayed(s, i, id, r, answer, outs);
      CountersRelayed(s, i, id, r, answer, outs);
    }
  }

  lemma OwnsItsPair(s: State, i: nat)
    requires Inv(s) && 2 <= i < |s.sockets| && s.sockets[i].Client?
    ensures OwnsPair(s.sockets, s.sockets[i].sid)
  {
    PeerOf(s.sockets, i);
    PeerOf(s.sockets, i / 2 * 2);
    assert PairId(s.sockets[i / 2 * 2]) == Some(s.sockets[i].sid);
  }

  lemma OrderedOf(s: State)
    requires Inv(s)
    ensures Ordered(s.sessions, s.nextId)
  {
    hide Ordered;
  }

  lemma RelayedShape(s: State, i: nat, answer: ReadAnswer, outs: seq<WriteAnswer>, id: int)
    requires i < |s.sockets| && s.sockets[i].Client? && Live(s, s.sockets[i].sid) && IsPass(answer, outs)
    ensures var t, k := Relayed(s, i, Find(s.sessions, s.sockets[i].sid), answer, outs), s.sockets[i];
      && t.nextId == s.nextId && t.main == s.main && (Live(t, id) <==> Live(s, id))
      && t.sockets == s.sockets[i := k.(flow := Pass(k.flow, answer, outs).0)]
  {
    hide Pass, IsPass, Add;
    SameKeysCount(s.sessions, Relayed(s, i, Find(s.sessions, s.sockets[i].sid), answer, outs).sessions, id);
  }

  lemma TrackedStep(cfg: Config, s: State, e: Event, id: int, r: Relaying.Session)
    requires Inv(s) && Enabled(s, e) && Tracked(s, id, r)
    ensures Tracked(Step(cfg, s, e), id, Handled(s, e, id, r))
  {
    if e.Relay? {
      var i := FindSocket(s.sockets, e.fd);
      FirstTwoFixed(s, i);
      PairIsLive(s, i);
      hide Inv, Tracked, TearDown, PairsAre, Pass;
      if s.sockets[i].flow.active {
        TrackedRelayed(s, i, id, r, e.answer, e.outs);
      } else {
        InactiveCloses(s, i, id, r, e.answer, e.outs);
        TrackedTearDown(s, i, id, r, Handled(s, e, id, r));
      }
    } else if e.Prune? {
      FirstTwoFixed(s, FirstClient(s.sockets));
      hide Inv, Tracked, TearDown;
      TrackedTearDown(s, FirstClient(s.sockets), id, r, r);
    } else {
      hide Step, Tracked, Inv;
      TrackedElsewhere(cfg, s, e, id, r);
    }
  }

  lemma InactiveCloses(s: State, i: nat, id: int, r: Relaying.Session, answer: ReadAnswer, outs: seq<WriteAnswer>)
    requires Inv(s) && 2 <= i < |s.sockets| && s.sockets[i].Client? && Live(s, s.sockets[i].sid)
    requires IsPass(answer, outs) && !s.sockets[i].flow.active && Tracked(s, id, r)
    ensures s.sockets[i].sid == id ==>
      Relaying.Handle(r, Relaying.Event(s.sockets[i].toServer, answer, outs)) == r.(open := false)
  {
    if s.sockets[i].sid == id {
      FlowOf(s, i, r);
    }
    hide Inv, IsPass;
  }

  // ---- Runs ----

  // Nothing is relayed for an id that was not given out yet.
  lemma {:induction false} NoEventsYet(cfg: Config, s: State, es: seq<Event>, id: int)
    requires Init(s) && IsRun(cfg, s, es) && id >= After(cfg, s, es).nextId
    ensures RelayEvents(cfg, s, es, id) == []
    decreases |es|
  {
    hide Init, Step, Enabled, Inv, On;
    if es != [] {
      var front, t, e := es[..|es| - 1], After(cfg, s, es[..|es| - 1]), es[|es| - 1];
      RunKeeps(cfg, s, front);
      NewId(cfg, t, e);
      NoEventsYet(cfg, s, front, id);
      NewIsQuiet(t, e, id);
    }
  }

  lemma NewIsQuiet(s: State, e: Event, id: int)
    requires Inv(s) && Enabled(s, e) && (id >= s.nextId || !Live(s, id))
    ensures !On(s, e, id)
  {
    if e.Relay? {
      FirstTwoFixed(s, FindSocket(s.sockets, e.fd));
      PairIsLive(s, FindSocket(s.sockets, e.fd));
    }
  }

  lemma NewId(cfg: Config, s: State, e: Event)
    requires Inv(s) && Enabled(s, e)
    ensures Step(cfg, s, e).nextId == s.nextId + if e.Accept? then 1 else 0
  {
    SessionsStep(cfg, s, e);
    hide Step, Inv, Enabled;
  }

  lemma {:induction false} RunTracked(cfg: Config, s: State, es: seq<Event>, id: int)
    requires Init(s) && IsRun(cfg, s, es)
    ensures Tracked(After(cfg, s, es), id, Relayings(cfg, s, es, id))
    decreases |es|
  {
    if es == [] {
      hide Step, Enabled;
    } else {
      hide Init, Step, Enabled, Tracked, Handled, Relayings;
      var front, e := es[..|es| - 1], es[|es| - 1];
      RunTracked(cfg, s, front, id);
      RunKeeps(cfg, s, front);
      TrackedStep(cfg, After(cfg, s, front), e, id, Relayings(cfg, s, front, id));
      RelayingsGrow(cfg, s, es, id);
    }
  }

  lemma RelayingsGrow(cfg: Config, s: State, es: seq<Event>, id: int)
    requires Init(s) && IsRun(cfg, s, es) && es != []
    ensures Relayings(cfg, s, es, id) ==
      Handled(After(cfg, s, es[..|es| - 1]), es[|es| - 1], id, Relayings(cfg, s, es[..|es| - 1], id))
  {
    hide Relaying.Handle, Step, Enabled, Init;
    var front, t, e := es[..|es| - 1], After(cfg, s, es[..|es| - 1]), es[|es| - 1];
    var before, now := RelayEvents(cfg, s, front, id), RelayEvents(cfg, s, es, id);
    if On(t, e, id) {
      assert now == before + [RelayEvent(t, e)];
      assert now[..|now| - 1] == before;
    } else {
      assert now == before;
    }
    if e.Accept? && id == t.nextId {
      NoEventsYet(cfg, s, front, id);
    }
  }

  // In every reachable state the counters of a live session are those of the relaying of exactly the
  // events on its two sockets, its sockets have the two flows of that relaying, and nothing has been
  // relayed for a session that has no pair and is not ending.
  lemma SessionRelays(cfg: Config, s: State, es: seq<Event>, id: int)
    requires Init(s) && IsRun(cfg, s, es) && Live(After(cfg, s, es), id)
    ensures var t, r := After(cfg, s, es), Relayings(cfg, s, es, id);
      && SessionOf(t, id).rx == r.rx && SessionOf(t, id).tx == r.tx
      && PairsAre(t.sockets, id, r)
      && (!OwnsPair(t.sockets, id) && t.main != Ending(id) ==> Untouched(r))
  {
    RunTracked(cfg, s, es, id);
    hide Step, Enabled, PairsAre, OwnsPair, Untouched;
  }

  // So they account for the flows of the two sockets, beyond what they started with: Rx for what
  // reached the server, Tx for what the server sent. Tx is just that, modulo its width, exactly when
  // it started at 0 and no read of the server's socket failed, or at 1 and one did.
  lemma CountersAccounted(cfg: Config, s: State, es: seq<Event>, i: nat)
    requires Init(s) && IsRun(cfg, s, es)
    requires i + 1 < |After(cfg, s, es).sockets| && PairId(After(cfg, s, es).sockets[i]).Some?
    ensures var t := After(cfg, s, es);
      var up, down := t.sockets[i], t.sockets[i + 1];
      && Live(t, up.sid) && IsPeer(t, i, i + 1)
      && var x, memory := SessionOf(t, up.sid), Origin(cfg, s, es, up.sid);
         && Relaying.Accounted(memory, up.flow, down.flow, x.rx, x.tx)
         && (x.tx == |down.flow.input| % WORD <==> memory.tx == if down.flow.failed then 1 else 0)
  {
    var t := After(cfg, s, es);
    RunKeeps(cfg, s, es);
    SocketLive(t, i);
    hide Step, Enabled, Inv, IsPeer, Add, Relaying.Sent;
    var id := t.sockets[i].sid;
    var memory := Origin(cfg, s, es, id);
    FirstOfPair(t, i);
    SessionRelays(cfg, s, es, id);
    Relaying.RelayFaithful(memory, RelayEvents(cfg, s, es, id));
    Relaying.TxFrom(memory.tx, t.sockets[i + 1].flow);
    hide RelayEvents, Relaying.After, SessionOf, Live, After, IsRun, Faithful;
    assert IsPair(t.sockets, i, Relayings(cfg, s, es, id));
  }

  lemma FirstOfPair(t: State, i: nat)
    requires Inv(t) && i < |t.sockets| && PairId(t.sockets[i]).Some?
    ensures IsPeer(t, i, i + 1)
  {
    PeerOf(t.sockets, i);
    SocketLive(t, i);
  }
}
