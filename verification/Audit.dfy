// The ledger over whole runs of the step system: which sessions are handed to it, how often, and
// with which byte counts.

module Audit {
  import opened Counting
  import opened CStrings
  import opened Words
  import opened Lifecycle
  import opened LifecycleInvariant
  import opened LifecycleTheorems
  import opened Mediation
  import opened Pruning
  import opened Traffic
  import Ledger
  import Relaying = Relay
  import UserAuth

  // ---- The hand-off ----

  function EndedOf(enabled: bool, users: seq<UserAuth.User>, x: Session, elapsed: Word): Ledger.Ended {
    Ledger.Ended(enabled, users, x.user, x.host, Ledger.Totals(x.rx, x.tx, elapsed, 1))
  }

  // What EndSession does to the ledger before it erases the session.
  function HandedOff(l: Ledger.Ledger, enabled: bool, users: seq<UserAuth.User>, ss: seq<Session>, id: int,
                     elapsed: Word): Ledger.Ledger {
    var i := Find(ss, id);
    if i < |ss| then Ledger.Do(l, Ledger.End(EndedOf(enabled, users, ss[i], elapsed))) else l
  }

  // The ledger when the dispatch thread has finished what it has in hand.
  function HandOff(cfg: Config, l: Ledger.Ledger, s: State, elapsed: Word): Ledger.Ledger {
    if s.main.Ending? then HandedOff(l, cfg.authEnabled, cfg.users, s.sessions, s.main.sid, elapsed) else l
  }

  lemma HandOffWaiting(cfg: Config, l: Ledger.Ledger, s: State, elapsed: Word)
    requires !s.main.Ending?
    ensures HandOff(cfg, l, s, elapsed) == l
  {}

  lemma HandOffClose(cfg: Config, l: Ledger.Ledger, s: State, x: Session, elapsed: Word)
    ensures HandOff(cfg, l, CloseClient(s, x), elapsed)
      == HandedOff(l, cfg.authEnabled, cfg.users, s.sessions, x.id, elapsed)
  {
    hide HandedOff;
  }

  lemma HandOffTearDown(cfg: Config, l: Ledger.Ledger, s: State, i: nat, elapsed: Word)
    requires i < |s.sockets| && s.sockets[i].Client?
    ensures HandOff(cfg, l, TearDown(s, i), elapsed)
      == HandedOff(l, cfg.authEnabled, cfg.users, s.sessions, s.sockets[i].sid, elapsed)
  {
    hide HandedOff, Unregister, RemoveAt;
  }

  // ---- Runs with a ledger ----

  // A step of the system, with the time that a session it ends was connected, or a write-out.
  datatype Tick = Life(event: Event, elapsed: Word) | LogAndReset

  ghost function Events(ticks: seq<Tick>): seq<Event> {
    if ticks == [] then []
    else
      var last := ticks[|ticks| - 1];
      Events(ticks[..|ticks| - 1]) + if last.Life? then [last.event] else []
  }

  lemma EventsBack(ticks: seq<Tick>)
    requires ticks != []
    ensures var es, front, last := Events(ticks), Events(ticks[..|ticks| - 1]), ticks[|ticks| - 1];
      if last.Life? then es != [] && es[|es| - 1] == last.event && es[..|es| - 1] == front else es == front
  {}

  ghost predicate IsTicked(cfg: Config, s: State, ticks: seq<Tick>) {
    IsRun(cfg, s, Events(ticks))
  }

  ghost function Now(cfg: Config, s: State, ticks: seq<Tick>): State
    requires IsTicked(cfg, s, ticks)
  {
    After(cfg, s, Events(ticks))
  }

  lemma TickedBack(cfg: Config, s: State, ticks: seq<Tick>)
    requires IsTicked(cfg, s, ticks) && ticks != []
    ensures var front, last := ticks[..|ticks| - 1], ticks[|ticks| - 1];
      && IsTicked(cfg, s, front)
      && if last.Life?
         then Enabled(Now(cfg, s, front), last.event)
              && Now(cfg, s, ticks) == Step(cfg, Now(cfg, s, front), last.event)
         else Now(cfg, s, ticks) == Now(cfg, s, front)
  {
    hide Step, Enabled, Events;
    EventsBack(ticks);
  }

  ghost function Ticked(cfg: Config, t: State, l: Ledger.Ledger, tick: Tick): Ledger.Ledger {
    match tick
    case Life(e, elapsed) => if e.Finish? then HandOff(cfg, l, t, elapsed) else l
    case LogAndReset => Ledger.Do(l, Ledger.Reset)
  }

  // The ledger after the ticks: the session that a step ends is handed off.
  ghost function LedgerAfter(cfg: Config, s: State, l: Ledger.Ledger, ticks: seq<Tick>): Ledger.Ledger
    requires IsTicked(cfg, s, ticks)
  {
    if ticks == [] then l
    else
      var front := ticks[..|ticks| - 1];
      TickedBack(cfg, s, ticks);
      Ticked(cfg, Now(cfg, s, front), LedgerAfter(cfg, s, l, front), ticks[|ticks| - 1])
  }

  // ---- The sessions that ended ----

  datatype Record = Record(id: int, ended: Ledger.Ended)

  ghost function RecordId(r: Record): Option<int> { Some(r.id) }

  // One connection, with the user, host and counters that the session has when it ends.
  ghost function NewRecords(cfg: Config, t: State, tick: Tick): seq<Record> {
    if tick.Life? && tick.event.Finish? && t.main.Ending? && Live(t, t.main.sid) then
      var x := SessionOf(t, t.main.sid);
      var totals := Ledger.Totals(x.rx, x.tx, tick.elapsed, 1);
      [Record(t.main.sid, Ledger.Ended(cfg.authEnabled, cfg.users, x.user, x.host, totals))]
    else []
  }

  // The sessions that ended, in order, as they were then.
  ghost function Records(cfg: Config, s: State, ticks: seq<Tick>): seq<Record>
    requires IsTicked(cfg, s, ticks)
  {
    if ticks == [] then []
    else
      var front := ticks[..|ticks| - 1];
      TickedBack(cfg, s, ticks);
      Records(cfg, s, front) + NewRecords(cfg, Now(cfg, s, front), ticks[|ticks| - 1])
  }

  ghost function EndedIn(records: seq<Record>): seq<Ledger.Ended> {
    seq(|records|, i requires 0 <= i < |records| => records[i].ended)
  }

  // Each counts as one connection and is judged by the settings of the run.
  lemma {:induction false} RecordsJudged(cfg: Config, s: State, ticks: seq<Tick>, i: nat)
    requires IsTicked(cfg, s, ticks) && i < |Records(cfg, s, ticks)|
    ensures var e := Records(cfg, s, ticks)[i].ended;
      e.enabled == cfg.authEnabled && e.users == cfg.users && e.totals.connections == 1
  {
    hide IsTicked, Now, Live, SessionOf;
    var front := ticks[..|ticks| - 1];
    TickedBack(cfg, s, ticks);
    if i < |Records(cfg, s, front)| {
      RecordsJudged(cfg, s, front, i);
    }
  }

  lemma TickIsOp(cfg: Config, t: State, l: Ledger.Ledger, tick: Tick) returns (op: Option<Ledger.Op>)
    ensures Ticked(cfg, t, l, tick) == if op.Some? then Ledger.Do(l, op.value) else l
    ensures EndedIn(NewRecords(cfg, t, tick)) == if op.Some? && op.value.End? then [op.value.ended] else []
  {
    hide Ledger.Do;
    op := match tick
      case LogAndReset => Some(Ledger.Reset)
      case Life(e, elapsed) =>
        if e.Finish? && t.main.Ending? && Live(t, t.main.sid)
        then Some(Ledger.End(EndedOf(cfg.authEnabled, cfg.users, SessionOf(t, t.main.sid), elapsed))) else None;
  }

  // The ledger is one that operations lead to, with these ends of sessions, so what holds of all of
  // those holds of it.
  lemma {:induction false} LedgerReached(cfg: Config, s: State, ticks: seq<Tick>) returns (ops: seq<Ledger.Op>)
    requires IsTicked(cfg, s, ticks)
    ensures LedgerAfter(cfg, s, Ledger.EMPTY, ticks) == Ledger.After(ops)
    ensures EndedIn(Records(cfg, s, ticks)) == Ledger.EndsOf(ops)
  {
    hide IsTicked, Now, NewRecords, Ticked, Ledger.Do;
    if ticks == [] {
      ops := [];
    } else {
      var front, last := ticks[..|ticks| - 1], ticks[|ticks| - 1];
      TickedBack(cfg, s, ticks);
      ops := LedgerReached(cfg, s, front);
      var t := Now(cfg, s, front);
      var op := TickIsOp(cfg, t, LedgerAfter(cfg, s, Ledger.EMPTY, front), last);
      ghost var records := Records(cfg, s, front);
      assert EndedIn(records + NewRecords(cfg, t, last)) == EndedIn(records) + EndedIn(NewRecords(cfg, t, last));
      if op.Some? {
        assert (ops + [op.value])[..|ops|] == ops;
        ops := ops + [op.value];
      }
    }
  }

  // In every run, with write-outs at any moments and for every user and host: what was logged plus
  // what is in memory is the sum over the audited sessions that ended.
  lemma RunConserves(cfg: Config, s: State, ticks: seq<Tick>, user: string, host: string)
    requires IsTicked(cfg, s, ticks)
    ensures Ledger.IsSum(Ledger.Account(LedgerAfter(cfg, s, Ledger.EMPTY, ticks), user, host),
                         EndedIn(Records(cfg, s, ticks)), user, host)
  {
    hide Ledger.IsSum, Ledger.Account, LedgerAfter, Records;
    var ops := LedgerReached(cfg, s, ticks);
    Ledger.AuditConserved(ops, user, host);
  }

  // ---- What handlers do to the ledger ----

  // Some run leads from one state and ledger to the others.
  ghost predicate ReachedWith(cfg: Config, s: State, l: Ledger.Ledger, t: State, m: Ledger.Ledger) {
    exists ticks :: IsTicked(cfg, s, ticks) && Now(cfg, s, ticks) == t && LedgerAfter(cfg, s, l, ticks) == m
  }

  lemma ReachedWithRun(cfg: Config, s: State, l: Ledger.Ledger, t: State, m: Ledger.Ledger)
    requires ReachedWith(cfg, s, l, t, m)
    ensures ReachedFrom(cfg, s, t)
  {
    var ticks :| IsTicked(cfg, s, ticks) && Now(cfg, s, ticks) == t && LedgerAfter(cfg, s, l, ticks) == m;
    hide LedgerAfter, IsRun, After, Events;
    assert IsRun(cfg, s, Events(ticks)) && After(cfg, s, Events(ticks)) == t;
  }

  lemma ReachedWithSelf(cfg: Config, s: State, l: Ledger.Ledger)
    ensures ReachedWith(cfg, s, l, s, l)
  {
    assert IsTicked(cfg, s, []) && Now(cfg, s, []) == s && LedgerAfter(cfg, s, l, []) == l;
  }

  lemma ReachedWithTick(cfg: Config, s: State, l: Ledger.Ledger, t: State, m: Ledger.Ledger, tick: Tick)
    requires ReachedWith(cfg, s, l, t, m) && (tick.Life? ==> Enabled(t, tick.event))
    ensures ReachedWith(cfg, s, l, if tick.Life? then Step(cfg, t, tick.event) else t, Ticked(cfg, t, m, tick))
  {
    hide Step, Enabled, Ticked, IsRun, After;
    var ticks :| IsTicked(cfg, s, ticks) && Now(cfg, s, ticks) == t && LedgerAfter(cfg, s, l, ticks) == m;
    var more := ticks + [tick];
    assert more[..|more| - 1] == ticks;
    if tick.Life? {
      assert Events(more) == Events(ticks) + [tick.event];
      Extend(cfg, s, Events(ticks), tick.event);
    } else {
      assert Events(more) == Events(ticks);
    }
    assert IsTicked(cfg, s, more) && LedgerAfter(cfg, s, l, more) == Ticked(cfg, t, m, tick);
  }

  lemma ReachedWithStep(cfg: Config, s: State, l: Ledger.Ledger, t: State, m: Ledger.Ledger, e: Event)
    requires ReachedWith(cfg, s, l, t, m) && Enabled(t, e) && !e.Finish?
    ensures ReachedWith(cfg, s, l, Step(cfg, t, e), m)
  {
    hide ReachedWith, Step, Enabled;
    ReachedWithTick(cfg, s, l, t, m, Life(e, 0));
  }

  lemma {:induction false} ReachedWithTail(cfg: Config, s: State, l: Ledger.Ledger, t: State, m: Ledger.Ledger,
                                           ticks: seq<Tick>)
    requires ReachedWith(cfg, s, l, t, m) && IsTicked(cfg, t, ticks)
    ensures ReachedWith(cfg, s, l, Now(cfg, t, ticks), LedgerAfter(cfg, t, m, ticks))
  {
    hide IsTicked, Now, Ticked, ReachedWith;
    if ticks == [] {
      NowAtOnce(cfg, t);
    } else {
      var front, last := ticks[..|ticks| - 1], ticks[|ticks| - 1];
      TickedBack(cfg, t, ticks);
      ReachedWithTail(cfg, s, l, t, m, front);
      ReachedWithTick(cfg, s, l, Now(cfg, t, front), LedgerAfter(cfg, t, m, front), last);
    }
  }

  lemma NowAtOnce(cfg: Config, s: State)
    ensures IsTicked(cfg, s, []) && Now(cfg, s, []) == s
  {}

  lemma ReachedWithThrough(cfg: Config, s: State, l: Ledger.Ledger, t: State, m: Ledger.Ledger, u: State,
                           n: Ledger.Ledger)
    requires ReachedWith(cfg, s, l, t, m) && ReachedWith(cfg, t, m, u, n)
    ensures ReachedWith(cfg, s, l, u, n)
  {
    hide IsTicked, Now, LedgerAfter;
    var ticks :| IsTicked(cfg, t, ticks) && Now(cfg, t, ticks) == u && LedgerAfter(cfg, t, m, ticks) == n;
    ReachedWithTail(cfg, s, l, t, m, ticks);
  }

  // States and ledgers that each run on from the one before, such as those between the calls on the
  // objects of the dispatch thread and of the workers, in any order, all lie on runs from the first:
  // what holds after every run holds in each of them.
  lemma {:induction false} ReachedInTurn(cfg: Config, states: seq<State>, ledgers: seq<Ledger.Ledger>, n: nat)
    requires n < |states| == |ledgers| && Init(states[0])
    requires forall i :: 0 <= i < |states| - 1 ==>
      ReachedWith(cfg, states[i], ledgers[i], states[i + 1], ledgers[i + 1])
    ensures ReachedWith(cfg, states[0], ledgers[0], states[n], ledgers[n]) && Inv(states[n])
  {
    hide ReachedWith, Init, Inv;
    if n == 0 {
      ReachedWithSelf(cfg, states[0], ledgers[0]);
    } else {
      ReachedInTurn(cfg, states, ledgers, n - 1);
      ReachedWithThrough(cfg, states[0], ledgers[0], states[n - 1], ledgers[n - 1], states[n], ledgers[n]);
    }
    InitHolds(states[0]);
    ReachedWithRun(cfg, states[0], ledgers[0], states[n], ledgers[n]);
    ReachedKeeps(cfg, states[0], states[n]);
  }

  // A step of the dispatch thread, finished before it returns to the event loop.
  lemma SettledWith(cfg: Config, s: State, l: Ledger.Ledger, e: Event, elapsed: Word)
    requires Enabled(s, e) && !e.Finish?
    ensures ReachedWith(cfg, s, l, Settle(cfg, Step(cfg, s, e)), HandOff(cfg, l, Step(cfg, s, e), elapsed))
  {
    hide ReachedWith, HandedOff;
    var t := Step(cfg, s, e);
    hide Step;
    ReachedWithSelf(cfg, s, l);
    ReachedWithStep(cfg, s, l, s, l, e);
    if t.main.Posting? {
      ReachedWithStep(cfg, s, l, t, l, Post);
    } else if t.main.Ending? {
      ReachedWithTick(cfg, s, l, t, l, Life(Finish, elapsed));
    }
  }

  // The ledger over the rounds of pruning, given how long each session was connected.
  ghost function PruneLedger(cfg: Config, l: Ledger.Ledger, s: State, times: seq<Word>): Ledger.Ledger
    decreases |times|
  {
    if times == [] then l
    else
      var m := if Enabled(s, Prune) then HandOff(cfg, l, Step(cfg, s, Prune), times[0]) else l;
      PruneLedger(cfg, m, PruneRound(cfg, s), times[1..])
  }

  lemma {:induction false} PruneReached(cfg: Config, s: State, l: Ledger.Ledger, times: seq<Word>)
    ensures ReachedWith(cfg, s, l, PruneRounds(cfg, s, |times|), PruneLedger(cfg, l, s, times))
    decreases |times|
  {
    hide ReachedWith, Step, Settle, Enabled, HandOff;
    ReachedWithSelf(cfg, s, l);
    if times != [] {
      var t := PruneRound(cfg, s);
      var m := if Enabled(s, Prune) then HandOff(cfg, l, Step(cfg, s, Prune), times[0]) else l;
      if Enabled(s, Prune) {
        SettledWith(cfg, s, l, Prune, times[0]);
      }
      PruneReached(cfg, t, m, times[1..]);
      ReachedWithThrough(cfg, s, l, t, m, PruneRounds(cfg, t, |times| - 1), PruneLedger(cfg, m, t, times[1..]));
    }
  }

  // ---- Every session once ----

  // A step makes and ends sessions only so.
  lemma LiveStep(cfg: Config, s: State, e: Event, id: int)
    requires Inv(s) && Enabled(s, e)
    ensures Live(Step(cfg, s, e), id) <==>
      (Live(s, id) && !(e.Finish? && s.main == Ending(id))) || (e.Accept? && id == s.nextId)
  {
    hide Step, Inv, Enabled, Live;
    if e.Accept? && id == s.nextId {
      AcceptLive(cfg, s, e);
    } else if Live(Step(cfg, s, e), id) {
      LiveFromLive(cfg, s, e, id);
    } else if Live(s, id) && !(e.Finish? && s.main == Ending(id)) {
      SessionStays(cfg, s, e, id);
    }
  }

  lemma AcceptLive(cfg: Config, s: State, e: Event)
    requires Inv(s) && Enabled(s, e) && e.Accept?
    ensures Live(Step(cfg, s, e), s.nextId)
  {
    AcceptedHere(s, e.fd, e.ip, e.memory);
    hide Inv, DoAccept, Live;
  }

  lemma EndingIsLive(s: State)
    requires Inv(s)
    ensures s.main.Ending? ==> Live(s, s.main.sid)
  {
    if s.main.Ending? {
      CarriedIsLive(s, s.main.sid);
    }
  }

  // Every session of a run either still lives or was handed off exactly once.
  lemma {:induction false} EndedOnce(cfg: Config, s: State, ticks: seq<Tick>, id: int)
    requires Init(s) && IsTicked(cfg, s, ticks)
    ensures var t := Now(cfg, s, ticks);
      Count(RecordId, id, Records(cfg, s, ticks)) + (if Live(t, id) then 1 else 0)
        == if s.nextId <= id < t.nextId then 1 else 0
  {
    if ticks == [] {
      hide Step, Enabled;
    } else {
      hide Init, Inv, Step, Enabled, Events, Live, Count, EndedOf, IsRun, After;
      var front, last := ticks[..|ticks| - 1], ticks[|ticks| - 1];
      TickedBack(cfg, s, ticks);
      EndedOnce(cfg, s, front, id);
      var t := Now(cfg, s, front);
      var records, more := Records(cfg, s, front), NewRecords(cfg, t, last);
      RunKeeps(cfg, s, Events(front));
      EndingIsLive(t);
      CountMore(records, more, id);
      if last.Life? {
        LiveStep(cfg, t, last.event, id);
        NewId(cfg, t, last.event);
        NextIdFrom(cfg, s, Events(front));
        FinishEnds(t, last.event);
      }
    }
  }

  lemma FinishEnds(t: State, e: Event)
    requires Enabled(t, e)
    ensures e.Finish? ==> t.main.Ending?
  {}

  lemma {:induction false} NextIdFrom(cfg: Config, s: State, es: seq<Event>)
    requires Init(s) && IsRun(cfg, s, es)
    ensures s.nextId <= After(cfg, s, es).nextId
    decreases |es|
  {
    hide Init, Step, Enabled;
    if es != [] {
      var front := es[..|es| - 1];
      NextIdFrom(cfg, s, front);
      RunKeeps(cfg, s, front);
      NewId(cfg, After(cfg, s, front), es[|es| - 1]);
    }
  }

  lemma CountMore(records: seq<Record>, more: seq<Record>, id: int)
    requires |more| <= 1
    ensures Count(RecordId, id, records + more)
      == Count(RecordId, id, records) + if more != [] && more[0].id == id then 1 else 0
  {
    CountConcat(RecordId, id, records, more);
    assert more != [] ==> more[1..] == [];
  }

  // ---- With the counts of everything it relayed ----

  lemma QuietStep(cfg: Config, s: State, es: seq<Event>, id: int)
    requires Init(s) && IsRun(cfg, s, es) && es != []
    requires var t := After(cfg, s, es[..|es| - 1]); id < t.nextId && (!Live(t, id) || es[|es| - 1].Finish?)
    ensures Relayings(cfg, s, es, id) == Relayings(cfg, s, es[..|es| - 1], id)
  {
    hide Step, Enabled, Inv, Init, Live, Relaying.After;
    var front, t, e := es[..|es| - 1], After(cfg, s, es[..|es| - 1]), es[|es| - 1];
    RunKeeps(cfg, s, front);
    if !Live(t, id) {
      NewIsQuiet(t, e, id);
    }
    assert !On(t, e, id);
    assert RelayEvents(cfg, s, es, id) == RelayEvents(cfg, s, front, id);
    assert Origin(cfg, s, es, id) == Origin(cfg, s, front, id);
  }

  lemma QuietTick(cfg: Config, s: State, ticks: seq<Tick>, id: int)
    requires Init(s) && IsTicked(cfg, s, ticks) && ticks != []
    requires var front, last := ticks[..|ticks| - 1], ticks[|ticks| - 1];
      IsTicked(cfg, s, front) && id < Now(cfg, s, front).nextId &&
      (!Live(Now(cfg, s, front), id) || (last.Life? && last.event.Finish?))
    ensures Relayings(cfg, s, Events(ticks), id) == Relayings(cfg, s, Events(ticks[..|ticks| - 1]), id)
  {
    hide Step, Events, Init, Live, Relayings, IsRun, After;
    EventsBack(ticks);
    if ticks[|ticks| - 1].Life? {
      QuietStep(cfg, s, Events(ticks), id);
    }
  }

  lemma RecordIsEnded(cfg: Config, s: State, ticks: seq<Tick>, i: nat)
    requires Init(s) && IsTicked(cfg, s, ticks) && i < |Records(cfg, s, ticks)|
    ensures var id := Records(cfg, s, ticks)[i].id;
      id < Now(cfg, s, ticks).nextId && !Live(Now(cfg, s, ticks), id)
  {
    hide Init, Step, Count, Records, IsRun, After, Events, Find;
    var id := Records(cfg, s, ticks)[i].id;
    EndedOnce(cfg, s, ticks, id);
    CountHas(RecordId, id, Records(cfg, s, ticks), i);
  }

  // Each session is handed off with the counters of the relaying of all events that its sockets had
  // in the whole run.
  lemma {:induction false} EndedCounters(cfg: Config, s: State, ticks: seq<Tick>, i: nat)
    requires Init(s) && IsTicked(cfg, s, ticks) && i < |Records(cfg, s, ticks)|
    ensures var x := Records(cfg, s, ticks)[i];
      var r := Relayings(cfg, s, Events(ticks), x.id);
      x.ended.totals.rx == r.rx && x.ended.totals.tx == r.tx
  {
    hide Init, Inv, Step, Enabled, Live, Relayings, Events, Count, SessionOf, IsRun, After;
    var front, last := ticks[..|ticks| - 1], ticks[|ticks| - 1];
    TickedBack(cfg, s, ticks);
    var t, records := Now(cfg, s, front), Records(cfg, s, front);
    var id := Records(cfg, s, ticks)[i].id;
    if i < |records| {
      EndedCounters(cfg, s, front, i);
      RecordIsEnded(cfg, s, front, i);
    } else {
      RunKeeps(cfg, s, Events(front));
      LiveIsBelow(t, id);
      SessionRelays(cfg, s, Events(front), id);
    }
    QuietTick(cfg, s, ticks, id);
  }
}
