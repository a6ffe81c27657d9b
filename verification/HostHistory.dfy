// Runs of the host cache, any interleaving of its locked operations: the list refines the history
// of additions, and with a clock that never runs backwards no address is served too late.

module HostHistory {
  import opened CStrings
  import opened Words
  import opened HostCache

  // A reading of the monotonic clock.
  datatype Instant = Instant(sec: nat, nsec: nat) {
    predicate Valid() {
      nsec < 1_000_000_000 && sec * 1000 + 1000 <= WORD
    }

    predicate NotAfter(t: Instant) {
      sec < t.sec || (sec == t.sec && nsec <= t.nsec)
    }
  }

  function Timestamp(t: Instant): nat {
    t.sec * 1000 + t.nsec / 10_000_000
  }

  // True whole milliseconds.
  function TrueMs(t: Instant): nat {
    t.sec * 1000 + t.nsec / 1_000_000
  }

  // The code divides by ten million where a million was meant: monotone all the same, and behind the
  // true time by 0 to 900 ms.
  lemma TimestampTrails(a: Instant, b: Instant)
    requires a.Valid() && b.Valid()
    ensures Timestamp(a) <= TrueMs(a) <= Timestamp(a) + 900 && Timestamp(a) < WORD
    ensures a.NotAfter(b) ==> Timestamp(a) <= Timestamp(b)
  {}

  // It is the true time exactly in the first millisecond of each second.
  lemma TimestampExact(a: Instant)
    requires a.Valid()
    ensures Timestamp(a) == TrueMs(a) <==> a.nsec < 1_000_000
    ensures TrueMs(a) - Timestamp(a) == a.nsec / 1_000_000 - a.nsec / 1_000_000 / 10
  {
    assert a.nsec / 10_000_000 == a.nsec / 1_000_000 / 10;
  }

  // At the end of a second it is 900 milliseconds behind.
  lemma TimestampLate() returns (a: Instant)
    ensures a.Valid() && TrueMs(a) - Timestamp(a) == 900
  {
    a := Instant(0, 999_999_999);
  }

  // An addition with the instant it was stamped at; it enters the list later, when its thread gets
  // the lock.
  datatype Stamped = Stamped(info: HostInfo, at: Instant)

  // Every addition so far, and the positions of those still in the list.
  datatype Cache = Cache(history: seq<Stamped>, kept: seq<nat>)

  datatype Op =
    | Add(url: string, address: string, at: Instant, entered: Instant)
    | Lookup(url: string, clock: seq<Instant>)
    | Clear(url: string)

  ghost predicate Inv(c: Cache) {
    |c.kept| <= MAX_SIZE && Increasing(c.kept) && Recorded(c)
  }

  ghost predicate Recorded(c: Cache) {
    forall i :: 0 <= i < |c.kept| ==> c.kept[i] < |c.history|
  }

  ghost predicate Increasing(s: seq<nat>) {
    forall i, j :: 0 <= i < j < |s| ==> s[i] < s[j]
  }

  function Entries(c: Cache): seq<HostInfo>
    requires Recorded(c)
  {
    seq(|c.kept|, i requires 0 <= i < |c.kept| => c.history[c.kept[i]].info)
  }

  function Readings(clock: seq<Instant>): seq<nat> {
    seq(|clock|, i requires 0 <= i < |clock| => Timestamp(clock[i]))
  }

  // The elements an operation erases if it reaches them.
  function Flags(c: Cache, op: Op): (bad: seq<bool>)
    requires Recorded(c)
    requires op.Lookup? ==> |op.clock| == |c.kept|
    ensures |bad| == |c.kept|
  {
    match op
    case Add(_, _, _, _) => seq(|c.kept|, _ => false)
    case Lookup(_, clock) => Expired(Entries(c), Readings(clock))
    case Clear(url) => OfHost(Entries(c), url)
  }

  ghost predicate Can(c: Cache, op: Op) {
    && Inv(c)
    && (op.Lookup? ==> |op.clock| == |c.kept|)
    && (op.Add? || Defined(Flags(c, op)))
  }

  function Stamp(url: string, address: string, at: Instant): Stamped {
    Stamped(HostInfo(url, address, 4, Timestamp(at)), at)
  }

  function Do(c: Cache, op: Op): Cache
    requires Can(c, op)
  {
    match op
    case Add(url, address, at, _) =>
      var kept := c.kept + [|c.history|];
      Cache(c.history + [Stamp(url, address, at)], if |kept| > MAX_SIZE then kept[1..] else kept)
    case _ => c.(kept := Survivors(c.kept, Flags(c, op), |c.kept|))
  }

  // ---- The steps are those of the cache ----

  lemma EntriesAppended(c: Cache, kept: seq<nat>, r: nat)
    requires Recorded(c.(kept := kept)) && r < |c.history|
    ensures Recorded(c.(kept := kept + [r]))
    ensures Entries(c.(kept := kept + [r])) == Entries(c.(kept := kept)) + [c.history[r].info]
  {}

  lemma {:induction false} SurvivorsOfEntries(c: Cache, bad: seq<bool>, n: nat)
    requires Recorded(c) && n <= |c.kept| == |bad|
    ensures var left := c.(kept := Survivors(c.kept, bad, n));
      Recorded(left) && Survivors(Entries(c), bad, n) == Entries(left)
  {
    hide Visited, Erased;
    if n == 0 {
      NoEntries(c);
    } else {
      SurvivorsOfEntries(c, bad, n - 1);
      EntryAt(c, n - 1);
      SurvivorsStep(c.kept, bad, n);
      SurvivorsStep(Entries(c), bad, n);
      hide Entries, Recorded, Survivors;
      if !Erased(bad, n - 1) {
        EntriesAppended(c, Survivors(c.kept, bad, n - 1), c.kept[n - 1]);
      }
    }
  }

  lemma SurvivorsStep<T>(s: seq<T>, bad: seq<bool>, n: nat)
    requires 0 < n <= |s| == |bad|
    ensures Survivors(s, bad, n) ==
      if Erased(bad, n - 1) then Survivors(s, bad, n - 1) else Survivors(s, bad, n - 1) + [s[n - 1]]
  {
    hide Visited, Erased;
  }

  lemma NoEntries(c: Cache)
    ensures Recorded(c.(kept := [])) && Entries(c.(kept := [])) == []
  {}

  lemma EntryAt(c: Cache, i: nat)
    requires Recorded(c) && i < |c.kept|
    ensures c.kept[i] < |c.history| && |Entries(c)| == |c.kept| && Entries(c)[i] == c.history[c.kept[i]].info
  {}

  lemma {:induction false} SurvivorsIncrease(s: seq<nat>, bad: seq<bool>, n: nat)
    requires Increasing(s) && n <= |s| == |bad|
    ensures |Survivors(s, bad, n)| <= n && Increasing(Survivors(s, bad, n))
    ensures forall i :: 0 <= i < |Survivors(s, bad, n)| && n < |s| ==> Survivors(s, bad, n)[i] < s[n]
  {
    hide Visited, Erased;
    if n > 0 {
      SurvivorsIncrease(s, bad, n - 1);
    }
  }

  lemma DoKeeps(c: Cache, op: Op)
    requires Can(c, op)
    ensures Inv(Do(c, op))
  {
    hide Survivors, Expired, OfHost, Defined;
    if !op.Add? {
      SurvivorsIncrease(c.kept, Flags(c, op), |c.kept|);
      SurvivorsOfEntries(c, Flags(c, op), |c.kept|);
    }
  }

  // What the methods of the cache do to its list.
  lemma DoRefines(c: Cache, op: Op)
    requires Can(c, op) && Recorded(Do(c, op))
    ensures match op
      case Add(url, address, at, _) => Entries(Do(c, op)) == Added(Entries(c), Stamp(url, address, at).info)
      case Lookup(_, clock) =>
        Entries(Do(c, op)) == Survivors(Entries(c), Expired(Entries(c), Readings(clock)), |clock|)
      case Clear(url) => Entries(Do(c, op)) == Survivors(Entries(c), OfHost(Entries(c), url), |Entries(c)|)
  {
    if op.Add? {
      AddRefines(c, op);
    } else {
      hide Survivors, Expired, OfHost, Defined, Entries;
      SurvivorsOfEntries(c, Flags(c, op), |c.kept|);
    }
  }

  lemma AddRefines(c: Cache, op: Op)
    requires op.Add? && Can(c, op) && Recorded(Do(c, op))
    ensures Entries(Do(c, op)) == Added(Entries(c), Stamp(op.url, op.address, op.at).info)
  {
    hide Survivors, Expired, OfHost, Defined;
  }

  // ---- Why a record leaves ----

  ghost predicate Leaves(c: Cache, op: Op, r: nat)
    requires Can(c, op) && r < |c.history|
  {
    var info := c.history[r].info;
    match op
    case Add(_, _, _, _) =>
      |Do(c, op).kept| == 2048 && forall i :: 0 <= i < 2048 ==> r < Do(c, op).kept[i]
    case Lookup(_, clock) =>
      exists k :: 0 <= k < |clock| && c.kept[k] == r && Age(Timestamp(clock[k]), info.timestamp) > MAX_AGE
    case Clear(url) => info.url == url
  }

  lemma LeavesOnlyFor(c: Cache, op: Op, r: nat)
    requires Can(c, op) && r in c.kept && r !in Do(c, op).kept
    ensures Leaves(c, op, r)
  {
    hide Survivors, Erased, Defined;
    if op.Add? {
      assert forall i :: 0 < i < |c.kept| ==> (c.kept + [|c.history|])[1..][i - 1] == c.kept[i];
    } else {
      var k :| 0 <= k < |c.kept| && c.kept[k] == r;
      var bad := Flags(c, op);
      SurvivorsAre(c.kept, bad, |c.kept|, r);
      assert Erased(bad, k);
      ErasedFlag(bad, k);
    }
  }

  lemma ErasedFlag(bad: seq<bool>, k: nat)
    requires k < |bad| && Erased(bad, k)
    ensures bad[k]
  {}

  // ---- Runs ----

  ghost predicate IsRun(c: Cache, ops: seq<Op>)
    decreases |ops|
  {
    ops == [] || (Can(c, ops[0]) && IsRun(Do(c, ops[0]), ops[1..]))
  }

  ghost function StateAt(c: Cache, ops: seq<Op>, n: nat): Cache
    requires IsRun(c, ops) && n <= |ops|
    decreases n
  {
    if n == 0 then c else StateAt(Do(c, ops[0]), ops[1..], n - 1)
  }

  lemma {:induction false} RunStep(c: Cache, ops: seq<Op>, n: nat)
    requires IsRun(c, ops) && n < |ops| && Inv(c)
    ensures Can(StateAt(c, ops, n), ops[n]) && Inv(StateAt(c, ops, n))
    ensures StateAt(c, ops, n + 1) == Do(StateAt(c, ops, n), ops[n])
    decreases n
  {
    hide Can, Do, Inv;
    if n == 0 {
      CanInv(c, ops[0]);
    } else {
      CanInv(c, ops[0]);
      DoKeeps(c, ops[0]);
      RunStep(Do(c, ops[0]), ops[1..], n - 1);
    }
  }

  lemma CanInv(c: Cache, op: Op)
    requires Can(c, op)
    ensures Inv(c)
  {}

  // In every state of every run the list is an order-preserving selection of the additions, of at
  // most 2048, and every addition that is not in it was taken out at some step for its reason.
  lemma {:induction false} HistoryRefined(ops: seq<Op>, n: nat, r: nat)
    requires IsRun(Cache([], []), ops) && n <= |ops|
    ensures Inv(StateAt(Cache([], []), ops, n)) && |StateAt(Cache([], []), ops, n).kept| <= 2048
    ensures r < |StateAt(Cache([], []), ops, n).history| && r !in StateAt(Cache([], []), ops, n).kept ==>
      exists k :: 0 <= k < n && LeftAt(ops, k, r)
    decreases n
  {
    hide Can, Do, Inv, IsRun, StateAt;
    Starts(ops);
    if n > 0 {
      HistoryRefined(ops, n - 1, r);
      RunStep(Cache([], []), ops, n - 1);
      var c := StateAt(Cache([], []), ops, n - 1);
      DoKeeps(c, ops[n - 1]);
      ListBound(Do(c, ops[n - 1]));
      if r < |Do(c, ops[n - 1]).history| && r !in Do(c, ops[n - 1]).kept {
        OldOrKept(c, ops[n - 1], r);
        if r in c.kept {
          LeavesOnlyFor(c, ops[n - 1], r);
          assert LeftAt(ops, n - 1, r) by { LeftNow(ops, n - 1, r); }
        } else {
          var k :| 0 <= k < n - 1 && LeftAt(ops, k, r);
          assert 0 <= k < n;
        }
      }
    }
  }

  lemma ListBound(c: Cache)
    requires Inv(c)
    ensures |c.kept| <= 2048
  {}

  // Step k adds this record, with its address, version and stamp.
  ghost predicate AddedAt(ops: seq<Op>, k: nat, info: HostInfo) {
    k < |ops| && ops[k].Add? && info == HostInfo(ops[k].url, ops[k].address, 4, Timestamp(ops[k].at))
  }

  // In every run each record of the history, so each in the list and each that a lookup returns, is
  // an earlier addition as it was made.
  lemma {:induction false} RecordsAdded(ops: seq<Op>, n: nat, r: nat) returns (k: nat)
    requires IsRun(Cache([], []), ops) && n <= |ops| && r < |StateAt(Cache([], []), ops, n).history|
    ensures k < n && AddedAt(ops, k, StateAt(Cache([], []), ops, n).history[r].info)
    decreases n
  {
    hide Can, Inv, IsRun, StateAt;
    Starts(ops);
    if n == 0 {
      assert false;
    } else {
      HistoryRefined(ops, n - 1, 0);
      RunStep(Cache([], []), ops, n - 1);
      var c := StateAt(Cache([], []), ops, n - 1);
      HistoryStep(c, ops[n - 1]);
      hide Do;
      if r < |c.history| {
        k := RecordsAdded(ops, n - 1, r);
      } else {
        k := n - 1;
      }
    }
  }

  lemma HistoryStep(c: Cache, op: Op)
    requires Can(c, op)
    ensures Do(c, op).history == c.history + if op.Add? then [Stamp(op.url, op.address, op.at)] else []
    ensures op.Add? ==>
      Stamp(op.url, op.address, op.at).info == HostInfo(op.url, op.address, 4, Timestamp(op.at))
  {
    hide Survivors, Expired, OfHost, Defined;
  }

  // Every record that a lookup returns carries an address that was added for the host it asks for.
  lemma HitsAdded(ops: seq<Op>, n: nat, r: HostInfo) returns (k: nat)
    requires IsRun(Cache([], []), ops) && n < |ops| && ops[n].Lookup?
    requires Can(StateAt(Cache([], []), ops, n), ops[n])
    requires var c := StateAt(Cache([], []), ops, n);
      r in Hits(Entries(c), Flags(c, ops[n]), ops[n].url, |c.kept|)
    ensures k < n && AddedAt(ops, k, r) && r.url == ops[n].url
  {
    hide IsRun, StateAt, Hits, Visited, Expired, Defined;
    var c, op := StateAt(Cache([], []), ops, n), ops[n];
    HitsSound(Entries(c), Flags(c, op), op.url, |c.kept|, r);
    var j :| 0 <= j < |c.kept| && Entries(c)[j] == r && r.url == op.url && !Flags(c, op)[j];
    k := RecordsAdded(ops, n, c.kept[j]);
  }

  // The addition r is in the list before step k, and step k takes it out for a good reason.
  ghost predicate LeftAt(ops: seq<Op>, k: nat, r: nat) {
    && IsRun(Cache([], []), ops) && k < |ops|
    && var c := StateAt(Cache([], []), ops, k);
      Can(c, ops[k]) && r in c.kept && r < |c.history| && Leaves(c, ops[k], r)
  }

  lemma LeftNow(ops: seq<Op>, k: nat, r: nat)
    requires IsRun(Cache([], []), ops) && k < |ops|
    requires var c := StateAt(Cache([], []), ops, k);
      Can(c, ops[k]) && r in c.kept && r < |c.history| && Leaves(c, ops[k], r)
    ensures LeftAt(ops, k, r)
  {}

  lemma Starts(ops: seq<Op>)
    requires IsRun(Cache([], []), ops)
    ensures StateAt(Cache([], []), ops, 0) == Cache([], []) && Inv(Cache([], []))
  {}

  lemma OldOrKept(c: Cache, op: Op, r: nat)
    requires Can(c, op) && r < |Do(c, op).history| && r !in Do(c, op).kept
    ensures r < |c.history|
  {
    hide Survivors, Expired, OfHost, Defined;
    if op.Add? {
      var kept := c.kept + [|c.history|];
      assert kept[|kept| - 1] == |c.history|;
      assert |kept| > MAX_SIZE ==> kept[1..][|kept| - 2] == |c.history|;
    }
  }

  // ---- Time ----

  // Readings that a clock which never runs backwards can give after `now`.
  ghost predicate Timed(op: Op, now: Instant) {
    match op
    case Add(_, _, at, entered) =>
      at.Valid() && entered.Valid() && at.NotAfter(entered) && now.NotAfter(entered)
    case Lookup(_, clock) =>
      && (forall k :: 0 <= k < |clock| ==> clock[k].Valid() && now.NotAfter(clock[k]))
      && (forall j, k :: 0 <= j < k < |clock| ==> clock[j].NotAfter(clock[k]))
    case Clear(_) => true
  }

  function Now(op: Op, now: Instant): Instant {
    match op
    case Add(_, _, _, entered) => entered
    case Lookup(_, clock) => if clock == [] then now else clock[|clock| - 1]
    case Clear(_) => now
  }

  ghost predicate IsTimedRun(c: Cache, ops: seq<Op>, now: Instant)
    decreases |ops|
  {
    ops == [] ||
    (Can(c, ops[0]) && Timed(ops[0], now) && IsTimedRun(Do(c, ops[0]), ops[1..], Now(ops[0], now)))
  }

  // Every record carries the stamp of an instant in the past.
  ghost predicate Past(c: Cache, now: Instant) {
    forall r :: 0 <= r < |c.history| ==>
      && c.history[r].at.Valid() && c.history[r].at.NotAfter(now)
      && c.history[r].info.timestamp == Timestamp(c.history[r].at)
  }

  lemma DoKeepsPast(c: Cache, op: Op, now: Instant)
    requires Can(c, op) && Timed(op, now) && Past(c, now)
    ensures Past(Do(c, op), Now(op, now))
  {
    hide Survivors, Expired, OfHost, Defined;
  }

  lemma {:induction false} TimedRunAt(c: Cache, ops: seq<Op>, now: Instant, n: nat) returns (earlier: Instant)
    requires IsTimedRun(c, ops, now) && Past(c, now) && Inv(c) && n < |ops|
    ensures IsRun(c, ops) && Can(StateAt(c, ops, n), ops[n])
    ensures Past(StateAt(c, ops, n), earlier) && Timed(ops[n], earlier)
    decreases |ops|
  {
    hide Can, Do, Inv, Past, Timed, Now;
    TimedIsRun(c, ops, now);
    earlier := now;
    if n > 0 {
      DoKeepsPast(c, ops[0], now);
      DoKeeps(c, ops[0]);
      earlier := TimedRunAt(Do(c, ops[0]), ops[1..], Now(ops[0], now), n - 1);
    }
  }

  lemma {:induction false} TimedIsRun(c: Cache, ops: seq<Op>, now: Instant)
    requires IsTimedRun(c, ops, now)
    ensures IsRun(c, ops)
    decreases |ops|
  {
    hide Can, Do, Timed, Now;
    if ops != [] {
      TimedIsRun(Do(c, ops[0]), ops[1..], Now(ops[0], now));
    }
  }

  // In any such run: the unsigned age of a record never wraps; what a lookup takes for good is at
  // most 1,800,900 true milliseconds old, and what it takes for expired at least 1,799,100.
  lemma ServedInTime(ops: seq<Op>, start: Instant, n: nat, k: nat)
    requires IsTimedRun(Cache([], []), ops, start) && n < |ops| && ops[n].Lookup?
    requires IsRun(Cache([], []), ops)
    requires k < |StateAt(Cache([], []), ops, n).kept| == |ops[n].clock|
    requires StateAt(Cache([], []), ops, n).kept[k] < |StateAt(Cache([], []), ops, n).history|
    ensures var c := StateAt(Cache([], []), ops, n);
      var rec := c.history[c.kept[k]];
      var age := Age(Timestamp(ops[n].clock[k]), rec.info.timestamp);
      var trueAge := TrueMs(ops[n].clock[k]) - TrueMs(rec.at);
      && age == Timestamp(ops[n].clock[k]) - Timestamp(rec.at)
      && (age <= MAX_AGE ==> 0 <= trueAge <= 1_800_900)
      && (age > MAX_AGE ==> trueAge > 1_799_100)
  {
    hide Can, IsRun, IsTimedRun, StateAt, Age, TrueMs, Timestamp, Instant.NotAfter, Instant.Valid;
    assert Inv(Cache([], [])) && Past(Cache([], []), start);
    var earlier := TimedRunAt(Cache([], []), ops, start, n);
    var c := StateAt(Cache([], []), ops, n);
    var rec := c.history[c.kept[k]];
    TrueAge(rec.at, earlier, ops[n].clock[k]);
  }

  // No address that a lookup returns is older than that.
  lemma HitsInTime(ops: seq<Op>, start: Instant, n: nat, r: HostInfo) returns (k: nat)
    requires IsTimedRun(Cache([], []), ops, start) && n < |ops| && ops[n].Lookup?
    requires IsRun(Cache([], []), ops) && Can(StateAt(Cache([], []), ops, n), ops[n])
    requires var c := StateAt(Cache([], []), ops, n);
      r in Hits(Entries(c), Flags(c, ops[n]), ops[n].url, |c.kept|)
    ensures var c := StateAt(Cache([], []), ops, n);
      && k < |c.kept| && c.kept[k] < |c.history| && c.history[c.kept[k]].info == r && r.url == ops[n].url
      && 0 <= TrueMs(ops[n].clock[k]) - TrueMs(c.history[c.kept[k]].at) <= 1_800_900
  {
    hide IsRun, IsTimedRun, StateAt, Hits, Visited, Age, TrueMs, Timestamp;
    var c, op := StateAt(Cache([], []), ops, n), ops[n];
    HitsSound(Entries(c), Flags(c, op), op.url, |c.kept|, r);
    k :| 0 <= k < |c.kept| && Entries(c)[k] == r && r.url == op.url && !Flags(c, op)[k];
    ServedInTime(ops, start, n, k);
  }

  lemma TrueAge(at: Instant, earlier: Instant, read: Instant)
    requires at.Valid() && read.Valid() && at.NotAfter(earlier) && earlier.NotAfter(read)
    ensures var age := Age(Timestamp(read), Timestamp(at));
      var trueAge := TrueMs(read) - TrueMs(at);
      && age == Timestamp(read) - Timestamp(at)
      && (age <= MAX_AGE ==> 0 <= trueAge <= 1_800_900)
      && (age > MAX_AGE ==> trueAge > 1_799_100)
  {
    TrueMonotone(at, earlier, read);
    TimestampTrails(at, read);
    TimestampTrails(read, read);
    hide TrueMs, Timestamp, Instant.NotAfter, Instant.Valid;
  }

  lemma TrueMonotone(a: Instant, b: Instant, c: Instant)
    requires a.Valid() && c.Valid() && a.NotAfter(b) && b.NotAfter(c)
    ensures a.NotAfter(c) && TrueMs(a) <= TrueMs(c)
  {}

  // ---- The resolver ----

  datatype Address = IPv4(text: string) | Other

  // The first IPv4 address that was found.
  ghost predicate IsFirst(found: seq<Address>, i: nat) {
    i < |found| && found[i].IPv4? && forall k :: 0 <= k < i ==> found[k].Other?
  }

  class HostResolver {
    const hostCache: HostInfoCache

    constructor (cache: HostInfoCache)
      ensures hostCache == cache
    {
      hostCache := cache;
    }

    // The cache first; then the first IPv4 address of what the system finds, which is remembered.
    // found is None when getaddrinfo() fails.
    method GetAddressesForHost(host: string, clock: seq<nat>, found: Option<seq<Address>>, now: Instant)
      returns (results: seq<HostInfo>, cached: bool)
      requires |clock| == |hostCache.hostInfo| && Defined(Expired(hostCache.hostInfo, clock))
      modifies hostCache
      ensures
        var before := old(hostCache.hostInfo);
        var bad := Expired(before, clock);
        var hits := Hits(before, bad, host, |clock|);
        var left := Survivors(before, bad, |clock|);
        && (cached <==> hits != [])
        && (cached ==> results == hits && hostCache.hostInfo == left)
        && (!cached && (found.None? || forall i :: 0 <= i < |found.value| ==> found.value[i].Other?) ==>
              results == [] && hostCache.hostInfo == left)
        && (!cached && found.Some? ==> forall i: nat :: IsFirst(found.value, i) ==>
              && results == [HostInfo(host, found.value[i].text, 4, Timestamp(now))]
              && hostCache.hostInfo == Added(left, results[0]))
    {
      hide Hits, Survivors, Expired, Defined;
      ghost var left := Survivors(hostCache.hostInfo, Expired(hostCache.hostInfo, clock), |clock|);
      results := hostCache.GetCachedResults(host, clock);
      if |results| > 0 {
        return results, true;
      }
      cached := false;
      if found.None? {
        return;
      }
      var addresses := found.value;
      for i := 0 to |addresses|
        invariant results == [] && hostCache.hostInfo == left
        invariant forall k :: 0 <= k < i ==> addresses[k].Other?
      {
        if addresses[i].IPv4? {
          var info := Stamp(host, addresses[i].text, now).info;
          results := [info];
          hostCache.AddResult(info);
          assert IsFirst(addresses, i);
          return;
        }
      }
    }

    method ClearCacheForHost(host: string)
      requires Defined(OfHost(hostCache.hostInfo, host))
      modifies hostCache
      ensures var before := old(hostCache.hostInfo);
        hostCache.hostInfo == Survivors(before, OfHost(before, host), |before|)
    {
      hostCache.ClearCacheForHost(host);
    }
  }
}
