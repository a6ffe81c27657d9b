// Pruning: while there are more than 200 sockets, the pair established first goes, and its session
// with it.

module Pruning {
  import opened CStrings
  import opened Lifecycle
  import opened LifecycleInvariant
  import opened LifecycleTheorems
  import opened Mediation

  // What a handler of the dispatch thread does before it returns to the event loop.
  ghost function Settle(cfg: Config, s: State): State {
    if s.main.Posting? then Step(cfg, s, Post)
    else if s.main.Ending? then Step(cfg, s, Finish)
    else s
  }

  lemma SettleTearDown(cfg: Config, s: State, i: nat)
    requires s.main.Waiting? && i < |s.sockets| && s.sockets[i].Client?
    ensures Settle(cfg, TearDown(s, i)) == s.(sockets := Unregister(RemoveAt(s.sockets, i), s.sockets[i].peer),
      sessions := Without(s.sessions, s.sockets[i].sid), open := s.open - {s.sockets[i].fd, s.sockets[i].peer})
  {
    hide Unregister, RemoveAt, Without;
  }

  lemma SettleClose(cfg: Config, s: State, x: Session)
    ensures Settle(cfg, CloseClient(s, x)) ==
      s.(sessions := Without(s.sessions, x.id), open := s.open - {x.clientFd}, main := Waiting)
  {
    hide Without;
  }

  lemma SettleWaiting(cfg: Config, s: State)
    requires s.main.Waiting?
    ensures Settle(cfg, s) == s
  {}

  lemma SettlePush(cfg: Config, s: State, work: Work)
    ensures Settle(cfg, Push(s, work)) ==
      s.(queue := s.queue + [work], pushed := s.pushed + [work], sem := s.sem + 1, main := Waiting)
  {}

  ghost function Excess(ks: seq<Socket>): nat {
    if |ks| > MAX_SOCKETS then (|ks| - MAX_SOCKETS) / 2 else 0
  }

  lemma ExcessExactly(ks: seq<Socket>)
    ensures Excess(ks) == if |ks| > 200 then (|ks| - 200) / 2 else 0
  {}

  ghost function PruneRound(cfg: Config, s: State): State {
    if Enabled(s, Prune) then Settle(cfg, Step(cfg, s, Prune)) else s
  }

  ghost function PruneRounds(cfg: Config, s: State, n: nat): State
    decreases n
  {
    if n == 0 then s else PruneRounds(cfg, PruneRound(cfg, s), n - 1)
  }

  lemma PruneRoundsStep(cfg: Config, s: State)
    requires |s.sockets| > MAX_SOCKETS && |s.sockets| % 2 == 0
    requires |PruneRound(cfg, s).sockets| == |s.sockets| - 2
    ensures PruneRounds(cfg, s, Excess(s.sockets))
         == PruneRounds(cfg, PruneRound(cfg, s), Excess(PruneRound(cfg, s).sockets))
  {
    hide PruneRound;
  }

  lemma FirstClientIsThird(ks: seq<Socket>)
    requires InPairs(ks) && |ks| > 2
    ensures FirstClient(ks) == 2 && ks[2].Client? && ks[2].toServer
  {
    assert Mirrored(ks[2 * 1], ks[2 * 1 + 1]);
  }

  // One round drops the third and fourth sockets and ends their session.
  lemma PruneRoundDrops(cfg: Config, s: State)
    requires Inv(s) && s.main.Waiting? && |s.sockets| > MAX_SOCKETS
    ensures s.sockets[2].Client?
    ensures Inv(PruneRound(cfg, s))
    ensures PruneRound(cfg, s) == s.(sockets := s.sockets[..2] + s.sockets[4..],
      sessions := Without(s.sessions, s.sockets[2].sid), open := s.open - {s.sockets[2].fd, s.sockets[2].peer})
  {
    hide Inv, InPairs, PruneRound, TearDown, DropPair, Settle, Without;
    PairsOf(s);
    PruneIsTearDown(cfg, s);
    PruneRoundKeeps(cfg, s);
    TearDownShape(s, 2);
    SettleEnding(cfg, TearDown(s, 2));
    DropsThird(s.sockets);
  }

  lemma PruneIsTearDown(cfg: Config, s: State)
    requires InPairs(s.sockets) && s.main.Waiting? && |s.sockets| > MAX_SOCKETS
    ensures |s.sockets| >= 4 && s.sockets[2].Client? && PruneRound(cfg, s) == Settle(cfg, TearDown(s, 2))
  {
    FirstClientIsThird(s.sockets);
    hide TearDown, Settle, FirstClient;
  }

  lemma SettleEnding(cfg: Config, s: State)
    requires s.main.Ending?
    ensures Settle(cfg, s) == s.(sessions := Without(s.sessions, s.main.sid), main := Waiting)
  {
    hide Without;
  }

  lemma DropsThird(ks: seq<Socket>)
    requires |ks| >= 4
    ensures DropPair(ks, 2) == ks[..2] + ks[4..]
  {}

  lemma PruneRoundKeeps(cfg: Config, s: State)
    requires Inv(s) && s.main.Waiting?
    ensures Inv(PruneRound(cfg, s))
  {
    hide Inv, TearDown;
    if Enabled(s, Prune) {
      var t := Step(cfg, s, Prune);
      StepKeeps(cfg, s, Prune);
      if t.main.Posting? {
        StepKeeps(cfg, t, Post);
      } else if t.main.Ending? {
        StepKeeps(cfg, t, Finish);
      }
    }
  }

  lemma LiveWithout(ss: seq<Session>, next: int, gone: int, id: int)
    requires Ordered(ss, next)
    ensures Find(Without(ss, gone), id) < |Without(ss, gone)| <==> Find(ss, id) < |ss| && id != gone
  {
    if id == gone {
      FinishedIsGone(ss, next, id);
    } else if Find(ss, id) < |ss| {
      FindOther(ss, gone, id);
    } else {
      LiveIffListed(ss, id);
      LiveIffListed(Without(ss, gone), id);
      assert forall x :: x in Without(ss, gone) ==> x in ss;
    }
  }

  // The session of the k-th pair of the list, in order of establishment.
  ghost function PairSession(ks: seq<Socket>, k: nat): Option<int> {
    if 2 + 2 * k < |ks| then PairId(ks[2 + 2 * k]) else None
  }

  // The sessions of the first n pairs.
  ghost predicate AmongFirst(ks: seq<Socket>, n: nat, id: int) {
    exists k :: 0 <= k < n && PairSession(ks, k) == Some(id)
  }

  lemma AmongFirstStep(ks: seq<Socket>, rest: seq<Socket>, n: nat, id: int)
    requires n > 0 && InPairs(ks) && |ks| >= 4 && ks[2].Client? && rest == ks[..2] + ks[4..]
    ensures AmongFirst(ks, n, id) <==> id == ks[2].sid || AmongFirst(rest, n - 1, id)
  {
    FirstClientIsThird(ks);
    assert PairSession(ks, 0) == Some(ks[2].sid);
    assert forall k :: 0 <= k ==> PairSession(rest, k) == PairSession(ks, k + 1);
    if AmongFirst(ks, n, id) && id != ks[2].sid {
      var k :| 0 <= k < n && PairSession(ks, k) == Some(id);
      assert PairSession(rest, k - 1) == Some(id);
    }
    if AmongFirst(rest, n - 1, id) {
      var k :| 0 <= k < n - 1 && PairSession(rest, k) == Some(id);
      assert PairSession(ks, k + 1) == Some(id);
    }
  }

  // Pruning ends at exactly 200 sockets: the two fixed ones and the pairs established last. It ends
  // exactly the sessions of the pairs established first.
  lemma {:induction false} PruneOutcome(cfg: Config, s: State, n: nat)
    requires Inv(s) && s.main.Waiting? && |s.sockets| == 200 + 2 * n
    ensures var t := PruneRounds(cfg, s, n);
      && Inv(t) && |t.sockets| == 200
      && t.sockets == s.sockets[..2] + s.sockets[2 + 2 * n..]
      && t.queue == s.queue && t.workers == s.workers && t.pipe == s.pipe && t.main.Waiting?
      && forall id :: Live(t, id) <==> Live(s, id) && !AmongFirst(s.sockets, n, id)
    decreases n
  {
    hide Inv, PruneRound, AmongFirst, Live;
    if n == 0 {
      assert s.sockets == s.sockets[..2] + s.sockets[2..];
      assert forall id :: !AmongFirst(s.sockets, 0, id) by { NobodyFirst(s.sockets); }
    } else {
      PruneRoundDrops(cfg, s);
      var u := PruneRound(cfg, s);
      PruneOutcome(cfg, u, n - 1);
      var t := PruneRounds(cfg, s, n);
      assert u.sockets[2 + 2 * (n - 1)..] == s.sockets[2 + 2 * n..];
      forall id ensures Live(t, id) <==> Live(s, id) && !AmongFirst(s.sockets, n, id) {
        PruneLive(s, u, n, id);
        assert Live(t, id) <==> Live(u, id) && !AmongFirst(u.sockets, n - 1, id);
      }
    }
  }

  lemma NobodyFirst(ks: seq<Socket>)
    ensures forall id :: !AmongFirst(ks, 0, id)
  {}

  lemma PruneLive(s: State, u: State, n: nat, id: int)
    requires Inv(s) && n > 0 && |s.sockets| >= 4 && s.sockets[2].Client?
    requires u.sockets == s.sockets[..2] + s.sockets[4..] && u.sessions == Without(s.sessions, s.sockets[2].sid)
    ensures Live(u, id) && !AmongFirst(u.sockets, n - 1, id) <==> Live(s, id) && !AmongFirst(s.sockets, n, id)
  {
    LiveWithout(s.sessions, s.nextId, s.sockets[2].sid, id);
    AmongFirstStep(s.sockets, u.sockets, n, id);
  }
}
