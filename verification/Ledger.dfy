// The audit ledger: totals per user and host in memory, written out and cleared period by period
// into log files that are reused in a ring.

module Ledger {
  import opened Words
  import opened UserAuth

  const LOG_PERSISTENCE: nat := 30
  const RING: nat := LOG_PERSISTENCE + 1

  // Sums of bytes and times wrap around.
  datatype Totals = Totals(rx: Word, tx: Word, time: Word, connections: nat) {
    function Plus(t: Totals): Totals {
      Totals(Add(rx, t.rx), Add(tx, t.tx), Add(time, t.time), connections + t.connections)
    }
  }

  function Zero(): Totals { Totals(0, 0, 0, 0) }

  datatype Row = Row(host: string, totals: Totals)
  datatype UserRows = UserRows(user: string, rows: seq<Row>)

  lemma PlusPlus(a: Totals, b: Totals, c: Totals)
    ensures a.Plus(b).Plus(c) == a.Plus(b.Plus(c))
  {
    AddAssociates(a.rx, b.rx, c.rx);
    AddAssociates(a.tx, b.tx, c.tx);
    AddAssociates(a.time, b.time, c.time);
    hide Add;
  }

  lemma PlusZero(t: Totals)
    ensures t.Plus(Zero()) == t && Zero().Plus(t) == t
  {}

  // ---- The tables ----

  function FindRow(rows: seq<Row>, host: string): (i: nat)
    ensures i <= |rows|
    ensures i < |rows| ==> rows[i].host == host
    ensures forall k :: 0 <= k < i ==> rows[k].host != host
  {
    if rows == [] || rows[0].host == host then 0 else 1 + FindRow(rows[1..], host)
  }

  function FindUserRows(stats: seq<UserRows>, user: string): (i: nat)
    ensures i <= |stats|
    ensures i < |stats| ==> stats[i].user == user
    ensures forall k :: 0 <= k < i ==> stats[k].user != user
  {
    if stats == [] || stats[0].user == user then 0 else 1 + FindUserRows(stats[1..], user)
  }

  // Find or append.
  function WithRow(rows: seq<Row>, host: string): seq<Row> {
    if FindRow(rows, host) < |rows| then rows else rows + [Row(host, Zero())]
  }

  function WithUser(stats: seq<UserRows>, user: string): seq<UserRows> {
    if FindUserRows(stats, user) < |stats| then stats else stats + [UserRows(user, [])]
  }

  // The totals under a host, and under a user and host.
  function RowTotals(rows: seq<Row>, host: string): Totals {
    var i := FindRow(rows, host);
    if i < |rows| then rows[i].totals else Zero()
  }

  function InMemory(stats: seq<UserRows>, user: string, host: string): Totals {
    var i := FindUserRows(stats, user);
    if i < |stats| then RowTotals(stats[i].rows, host) else Zero()
  }

  ghost predicate UniqueHosts(rows: seq<Row>) {
    forall i, j :: 0 <= i < j < |rows| ==> rows[i].host != rows[j].host
  }

  // One entry a user, one row a host, and no user without a row.
  ghost predicate UniqueKeys(stats: seq<UserRows>) {
    && (forall i, j :: 0 <= i < j < |stats| ==> stats[i].user != stats[j].user)
    && (forall i :: 0 <= i < |stats| ==> UniqueHosts(stats[i].rows) && stats[i].rows != [])
  }

  function AddToRow(rows: seq<Row>, host: string, t: Totals): seq<Row> {
    var all := WithRow(rows, host);
    var i := FindRow(all, host);
    if i < |all| then all[i := Row(host, all[i].totals.Plus(t))] else all
  }

  function AddTo(stats: seq<UserRows>, user: string, host: string, t: Totals): seq<UserRows> {
    var all := WithUser(stats, user);
    var i := FindUserRows(all, user);
    if i < |all| then all[i := UserRows(user, AddToRow(all[i].rows, host, t))] else all
  }

  lemma RowFound(rows: seq<Row>, host: string, i: nat)
    requires i <= |rows| && forall k :: 0 <= k < i ==> rows[k].host != host
    requires i < |rows| ==> rows[i].host == host
    ensures FindRow(rows, host) == i
  {}

  lemma UserFound(stats: seq<UserRows>, user: string, i: nat)
    requires i <= |stats| && forall k :: 0 <= k < i ==> stats[k].user != user
    requires i < |stats| ==> stats[i].user == user
    ensures FindUserRows(stats, user) == i
  {}

  lemma AddedToRow(rows: seq<Row>, host: string, t: Totals, h: string)
    ensures var after := AddToRow(rows, host, t);
      && RowTotals(after, h) == (if h == host then RowTotals(rows, h).Plus(t) else RowTotals(rows, h))
      && after != []
      && (UniqueHosts(rows) ==> UniqueHosts(after))
  {
    hide FindRow;
    var all, after := WithRow(rows, host), AddToRow(rows, host, t);
    var i, j := FindRow(rows, host), FindRow(rows, h);
    RowFound(all, host, i);
    if j < |rows| || (h == host && i == |rows|) {
      RowFound(after, h, j);
    } else {
      RowFound(after, h, |after|);
    }
  }

  lemma AddedTo(stats: seq<UserRows>, user: string, host: string, t: Totals, u: string, h: string)
    ensures InMemory(AddTo(stats, user, host, t), u, h) ==
      if u == user && h == host then InMemory(stats, u, h).Plus(t) else InMemory(stats, u, h)
    ensures UniqueKeys(stats) ==> UniqueKeys(AddTo(stats, user, host, t))
  {
    hide FindUserRows, AddToRow, RowTotals, UniqueHosts;
    var all, after := WithUser(stats, user), AddTo(stats, user, host, t);
    var i, j := FindUserRows(stats, user), FindUserRows(stats, u);
    UserFound(all, user, i);
    AddedToRow(all[i].rows, host, t, h);
    NoRows(host, h);
    if j < |stats| || (u == user && i == |stats|) {
      UserFound(after, u, j);
    } else {
      UserFound(after, u, |after|);
    }
  }

  lemma NoRows(host: string, h: string)
    ensures RowTotals([], h) == Zero() && UniqueHosts([])
  {}

  // Row j of entry i is that of the user and host.
  ghost predicate IsRow(stats: seq<UserRows>, i: int, j: int, user: string, host: string) {
    0 <= i < |stats| && 0 <= j < |stats[i].rows| && stats[i].user == user && stats[i].rows[j].host == host
  }

  // The totals in memory are those of the row of the host in the entry of the user.
  lemma InMemoryExactly(stats: seq<UserRows>, user: string, host: string)
    requires UniqueKeys(stats)
    ensures forall i, j :: IsRow(stats, i, j, user, host) ==> InMemory(stats, user, host) == stats[i].rows[j].totals
    ensures (forall i, j :: !IsRow(stats, i, j, user, host)) ==> InMemory(stats, user, host) == Totals(0, 0, 0, 0)
  {
    hide FindUserRows, FindRow;
    var i := FindUserRows(stats, user);
    if i < |stats| {
      var j := FindRow(stats[i].rows, host);
      assert UniqueHosts(stats[i].rows);
      assert j < |stats[i].rows| ==> IsRow(stats, i, j, user, host);
    }
  }

  // ---- The ledger with its files ----

  // A period: the index in the ring of log files, and the rows written.
  datatype Period = Period(index: nat, stats: seq<UserRows>)

  datatype Ledger = Ledger(stats: seq<UserRows>, logNumber: nat, files: map<(string, nat), seq<Row>>,
                           logged: seq<Period>)

  const EMPTY := Ledger([], 0, map[], [])

  // A file is truncated when it is written again.
  function Written(files: map<(string, nat), seq<Row>>, stats: seq<UserRows>, index: nat): map<(string, nat), seq<Row>>
    decreases |stats|
  {
    if stats == [] then files
    else
      var last := stats[|stats| - 1];
      var front := Written(files, stats[..|stats| - 1], index);
      if last.rows == [] then front else front[(last.user, index) := last.rows]
  }

  // A session that ends, with everything the decision to audit it looks at.
  datatype Ended = Ended(enabled: bool, users: seq<User>, user: string, host: string, totals: Totals)

  predicate Audited(e: Ended) {
    e.host != "" && e.enabled && AuditEnabled(e.users, e.user)
  }

  datatype Op = End(ended: Ended) | Reset

  function Do(l: Ledger, op: Op): Ledger {
    match op
    case End(e) => if Audited(e) then l.(stats := AddTo(l.stats, e.user, e.host, e.totals)) else l
    case Reset =>
      Ledger([], if l.logNumber + 1 > LOG_PERSISTENCE then 0 else l.logNumber + 1,
             Written(l.files, l.stats, l.logNumber), l.logged + [Period(l.logNumber, l.stats)])
  }

  function After(ops: seq<Op>): Ledger {
    if ops == [] then EMPTY else Do(After(ops[..|ops| - 1]), ops[|ops| - 1])
  }

  class GlobalStats {
    var userStats: seq<UserRows>
    var logNumber: nat
    var files: map<(string, nat), seq<Row>>
    ghost var logged: seq<Period>

    ghost function View(): Ledger
      reads this
    {
      Ledger(userStats, logNumber, files, logged)
    }

    constructor ()
      ensures View() == EMPTY
    {
      userStats, logNumber, files, logged := [], 0, map[], [];
    }

    // The entry of the user and the row of the host, made when they are missing.
    method GetStats(user: string, host: string) returns (i: nat, j: nat)
      modifies this
      ensures logNumber == old(logNumber) && files == old(files) && logged == old(logged)
      ensures var all := WithUser(old(userStats), user);
        && i == FindUserRows(all, user) < |all|
        && userStats == all[i := UserRows(user, WithRow(all[i].rows, host))]
        && j == FindRow(userStats[i].rows, host) < |userStats[i].rows|
    {
      hide FindUserRows, FindRow;
      ghost var was := userStats;
      i := 0;
      while i < |userStats| && userStats[i].user != user
        invariant i <= |userStats| && forall k :: 0 <= k < i ==> userStats[k].user != user
      {
        i := i + 1;
      }
      UserFound(userStats, user, i);
      if i == |userStats| {
        userStats := userStats + [UserRows(user, [])];
      }
      UserFound(userStats, user, i);
      var rows := userStats[i].rows;
      j := 0;
      while j < |rows| && rows[j].host != host
        invariant j <= |rows| && forall k :: 0 <= k < j ==> rows[k].host != host
      {
        j := j + 1;
      }
      RowFound(rows, host, j);
      if j == |rows| {
        rows := rows + [Row(host, Zero())];
      }
      RowFound(rows, host, j);
      userStats := userStats[i := UserRows(user, rows)];
    }

    // The hand-off in EndSession.
    method EndSession(auth: AuthManager, user: string, host: string, totals: Totals)
      modifies this
      ensures View() == Do(old(View()), End(Ended(auth.enabled, auth.users, user, host, totals)))
    {
      if host != "" {
        var on := auth.IsAuditEnabled(user);
        if auth.enabled && on {
          var i, j := GetStats(user, host);
          var rows := userStats[i].rows;
          userStats := userStats[i := UserRows(user, rows[j := Row(host, rows[j].totals.Plus(totals))])];
        }
      }
    }

    method LogAndReset()
      modifies this
      ensures View() == Do(old(View()), Reset)
    {
      for i := 0 to |userStats|
        invariant userStats == old(userStats) && logNumber == old(logNumber) && logged == old(logged)
        invariant files == Written(old(files), userStats[..i], logNumber)
      {
        assert userStats[..i + 1][..i] == userStats[..i];
        if |userStats[i].rows| != 0 {
          files := files[(userStats[i].user, logNumber) := userStats[i].rows];
        }
      }
      assert userStats[..|userStats|] == userStats;
      logged := logged + [Period(logNumber, userStats)];
      userStats := [];
      logNumber := logNumber + 1;
      if logNumber > LOG_PERSISTENCE {
        logNumber := 0;
      }
    }
  }

  // ---- Conservation ----

  function LoggedTotals(logged: seq<Period>, user: string, host: string): Totals {
    if logged == [] then Zero()
    else LoggedTotals(logged[..|logged| - 1], user, host).Plus(InMemory(logged[|logged| - 1].stats, user, host))
  }

  // The sessions that ended.
  function EndsOf(ops: seq<Op>): seq<Ended> {
    if ops == [] then []
    else EndsOf(ops[..|ops| - 1]) + if ops[|ops| - 1].End? then [ops[|ops| - 1].ended] else []
  }

  // A session counts when it reached a host, authentication is on, and the first user of its name in
  // the table has auditing on.
  ghost predicate OnRecord(e: Ended) {
    e.host != "" && e.enabled && exists i: nat :: FirstNamed(e.users, e.user, i) && e.users[i].audit
  }

  ghost predicate FirstNamed(users: seq<User>, name: string, i: nat) {
    i < |users| && users[i].name == name && forall k :: 0 <= k < i ==> users[k].name != name
  }

  lemma AuditedExactly(e: Ended)
    ensures Audited(e) <==> OnRecord(e)
  {
    hide FindUser;
    var f := FindUser(e.users, e.user);
    if f < |e.users| {
      assert FirstNamed(e.users, e.user, f);
    }
    assert forall i: nat :: FirstNamed(e.users, e.user, i) ==> i == f;
  }

  // In a table with unique names it is the user's own setting.
  lemma AuditedUser(e: Ended, i: nat)
    requires UniqueNames(e.users) && i < |e.users| && e.users[i].name == e.user
    ensures Audited(e) <==> e.host != "" && e.enabled && e.users[i].audit
  {
    AuditedExactly(e);
    assert FirstNamed(e.users, e.user, i);
  }

  ghost predicate Counts(e: Ended, user: string, host: string) {
    OnRecord(e) && e.user == user && e.host == host
  }

  // Plain sums over the sessions on record of one user and host.
  ghost function RxSum(ended: seq<Ended>, user: string, host: string): nat {
    if ended == [] then 0
    else
      var e := ended[|ended| - 1];
      RxSum(ended[..|ended| - 1], user, host) + if Counts(e, user, host) then e.totals.rx else 0
  }

  ghost function TxSum(ended: seq<Ended>, user: string, host: string): nat {
    if ended == [] then 0
    else
      var e := ended[|ended| - 1];
      TxSum(ended[..|ended| - 1], user, host) + if Counts(e, user, host) then e.totals.tx else 0
  }

  ghost function TimeSum(ended: seq<Ended>, user: string, host: string): nat {
    if ended == [] then 0
    else
      var e := ended[|ended| - 1];
      TimeSum(ended[..|ended| - 1], user, host) + if Counts(e, user, host) then e.totals.time else 0
  }

  ghost function ConnectionSum(ended: seq<Ended>, user: string, host: string): nat {
    if ended == [] then 0
    else
      var e := ended[|ended| - 1];
      ConnectionSum(ended[..|ended| - 1], user, host) + if Counts(e, user, host) then e.totals.connections else 0
  }

  // The totals are those sums, the first three modulo 2^64.
  ghost predicate IsSum(t: Totals, ended: seq<Ended>, user: string, host: string) {
    && t.rx == RxSum(ended, user, host) % 0x1_0000_0000_0000_0000
    && t.tx == TxSum(ended, user, host) % 0x1_0000_0000_0000_0000
    && t.time == TimeSum(ended, user, host) % 0x1_0000_0000_0000_0000
    && t.connections == ConnectionSum(ended, user, host)
  }

  // Logged and in memory together.
  function Account(l: Ledger, user: string, host: string): Totals {
    LoggedTotals(l.logged, user, host).Plus(InMemory(l.stats, user, host))
  }

  function Resets(ops: seq<Op>): nat {
    if ops == [] then 0 else Resets(ops[..|ops| - 1]) + if ops[|ops| - 1].Reset? then 1 else 0
  }

  // What one operation adds to the account of a user and host.
  ghost function Contribution(op: Op, user: string, host: string): Totals {
    if op.End? && Counts(op.ended, user, host) then op.ended.totals else Zero()
  }

  lemma StepConserves(l: Ledger, op: Op, user: string, host: string)
    ensures Account(Do(l, op), user, host) == Account(l, user, host).Plus(Contribution(op, user, host))
  {
    hide Audited, AddTo, InMemory, Written, LoggedTotals, UniqueKeys, Totals.Plus, Zero;
    var logged, memory := LoggedTotals(l.logged, user, host), InMemory(l.stats, user, host);
    PlusZero(logged.Plus(memory));
    match op {
      case End(e) =>
        AuditedExactly(e);
        hide OnRecord;
        AddedTo(l.stats, e.user, e.host, e.totals, user, host);
        PlusPlus(logged, memory, e.totals);
      case Reset =>
        OneMorePeriod(l.logged, Period(l.logNumber, l.stats), user, host);
        NothingInMemory(user, host);
    }
  }

  lemma MoreEnded(t: Totals, ended: seq<Ended>, e: Ended, user: string, host: string)
    requires IsSum(t, ended, user, host)
    ensures IsSum(t.Plus(if Counts(e, user, host) then e.totals else Zero()), ended + [e], user, host)
  {
    hide Counts;
    assert (ended + [e])[..|ended|] == ended;
    if Counts(e, user, host) {
      AddAdd(RxSum(ended, user, host), 0, e.totals.rx);
      AddAdd(TxSum(ended, user, host), 0, e.totals.tx);
      AddAdd(TimeSum(ended, user, host), 0, e.totals.time);
    } else {
      PlusZero(t);
    }
  }

  lemma NothingEnded(user: string, host: string)
    ensures IsSum(Zero(), [], user, host)
  {}

  // For every run, user and host: what was logged plus what is in memory is the sum over the audited
  // sessions that ended.
  lemma {:induction false} AuditConserved(ops: seq<Op>, user: string, host: string)
    ensures IsSum(Account(After(ops), user, host), EndsOf(ops), user, host)
  {
    hide Do, Account, IsSum, Counts, Totals.Plus, Zero;
    if ops == [] {
      NothingYet(EMPTY, user, host);
      NothingEnded(user, host);
    } else {
      var front, op := ops[..|ops| - 1], ops[|ops| - 1];
      AuditConserved(front, user, host);
      StepConserves(After(front), op, user, host);
      if op.End? {
        MoreEnded(Account(After(front), user, host), EndsOf(front), op.ended, user, host);
      } else {
        PlusZero(Account(After(front), user, host));
        assert EndsOf(ops) == EndsOf(front);
      }
    }
  }

  lemma NothingYet(l: Ledger, user: string, host: string)
    requires l.stats == [] && l.logged == []
    ensures Account(l, user, host) == Zero()
  {
    NothingInMemory(user, host);
    hide LoggedTotals, InMemory, Totals.Plus, Zero;
    PlusZero(LoggedTotals([], user, host));
  }

  lemma OneMorePeriod(logged: seq<Period>, p: Period, user: string, host: string)
    ensures LoggedTotals(logged + [p], user, host)
         == LoggedTotals(logged, user, host).Plus(InMemory(p.stats, user, host))
  {
    assert (logged + [p])[..|logged|] == logged;
  }

  // In every run users and hosts stay unique, in memory and in every period logged, and the k-th
  // period has index k mod 31.
  lemma {:induction false} PeriodsIndexed(ops: seq<Op>)
    ensures var l := After(ops);
      && UniqueKeys(l.stats)
      && |l.logged| == Resets(ops) && l.logNumber == |l.logged| % 31
      && forall k :: 0 <= k < |l.logged| ==> l.logged[k].index == k % 31 && UniqueKeys(l.logged[k].stats)
  {
    hide Audited, AddTo, InMemory, Written, UniqueKeys;
    NothingInMemory("", "");
    if ops != [] {
      var l, op := After(ops[..|ops| - 1]), ops[|ops| - 1];
      PeriodsIndexed(ops[..|ops| - 1]);
      match op {
        case End(e) => AddedTo(l.stats, e.user, e.host, e.totals, "", "");
        case Reset => NextIndex(|l.logged|);
      }
    }
  }

  lemma NothingInMemory(user: string, host: string)
    ensures InMemory([], user, host) == Zero() && UniqueKeys([]) && LoggedTotals([], user, host) == Zero()
  {}

  lemma NextIndex(k: nat)
    ensures (k + 1) % RING == if k % RING + 1 > LOG_PERSISTENCE then 0 else k % RING + 1
  {}

  // ---- Retention ----

  lemma {:induction false} WrittenAt(files: map<(string, nat), seq<Row>>, stats: seq<UserRows>, index: nat,
                                     u: string, n: nat)
    requires UniqueKeys(stats)
    ensures var i := FindUserRows(stats, u); var key := (u, n); var after := Written(files, stats, index);
      if n == index && i < |stats| then key in after && after[key] == stats[i].rows
      else (key in after <==> key in files) && (key in files ==> after[key] == files[key])
    decreases |stats|
  {
    hide FindUserRows, UniqueHosts;
    if stats != [] {
      var front := stats[..|stats| - 1];
      WrittenAt(files, front, index, u, n);
      var i := FindUserRows(front, u);
      if i < |front| || stats[|front|].user != u {
        UserFound(stats, u, if i < |front| then i else |stats|);
      } else {
        UserFound(stats, u, |front|);
      }
    }
  }

  // The log files still hold the rows of each of the last 31 periods.
  lemma {:induction false} LastPeriodsKept(ops: seq<Op>, k: nat, user: string)
    requires k < |After(ops).logged| <= k + 31
    ensures var l := After(ops);
      var stats := l.logged[k].stats;
      var i := FindUserRows(stats, user);
      i < |stats| ==> (user, k % 31) in l.files && l.files[(user, k % 31)] == stats[i].rows
  {
    hide Written, AddTo, FindUserRows, UniqueKeys;
    var front, op := ops[..|ops| - 1], ops[|ops| - 1];
    PeriodsIndexed(front);
    var l := After(front);
    if op.End? {
      LastPeriodsKept(front, k, user);
    } else {
      WrittenAt(l.files, l.stats, l.logNumber, user, k % RING);
      if k < |l.logged| {
        LastPeriodsKept(front, k, user);
        OtherIndex(k, |l.logged|);
      }
    }
  }

  lemma OtherIndex(k: nat, n: nat)
    requires k < n < k + RING
    ensures k % RING != n % RING
  {}
}
