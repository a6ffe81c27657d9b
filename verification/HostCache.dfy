// The host cache: a list of stamped addresses, swept on every lookup. The sweep erases the element
// it stands on and then advances once more, so it steps over the element behind every erased one,
// and past the end after erasing the last. What it does is stated exactly, for every list.

module HostCache {
  import opened Words

  const MAX_SIZE: nat := 2048
  const MAX_AGE: nat := 1800 * 1000

  datatype HostInfo = HostInfo(url: string, address: string, ipVersion: nat, timestamp: nat)

  // Unsigned subtraction of 64-bit values.
  function Age(now: nat, timestamp: nat): nat {
    (now - timestamp) % WORD
  }

  // ---- The sweep, over the flags of the elements it would erase ----

  // The element is reached. Position |bad| is the end of the list.
  predicate Visited(bad: seq<bool>, k: nat)
    requires k <= |bad|
    decreases k, 0
  {
    k == 0 || !Erased(bad, k - 1)
  }

  predicate Erased(bad: seq<bool>, k: nat)
    requires k < |bad|
    decreases k, 1
  {
    Visited(bad, k) && bad[k]
  }

  // The sweep meets the end of the list, rather than stepping over it.
  predicate Defined(bad: seq<bool>) {
    Visited(bad, |bad|)
  }

  // What is left of the first n elements.
  function Survivors<T>(s: seq<T>, bad: seq<bool>, n: nat): seq<T>
    requires n <= |s| == |bad|
  {
    if n == 0 then [] else Survivors(s, bad, n - 1) + if Erased(bad, n - 1) then [] else [s[n - 1]]
  }

  // What a lookup finds among the first n elements, and what it should find.
  function Hits(s: seq<HostInfo>, bad: seq<bool>, url: string, n: nat): seq<HostInfo>
    requires n <= |s| == |bad|
  {
    if n == 0 then []
    else
      Hits(s, bad, url, n - 1) +
      if Visited(bad, n - 1) && !bad[n - 1] && s[n - 1].url == url then [s[n - 1]] else []
  }

  function Unexpired(s: seq<HostInfo>, bad: seq<bool>, url: string, n: nat): seq<HostInfo>
    requires n <= |s| == |bad|
  {
    if n == 0 then []
    else Unexpired(s, bad, url, n - 1) + if !bad[n - 1] && s[n - 1].url == url then [s[n - 1]] else []
  }

  // The flags of a lookup; clock[k] is the reading taken when the sweep stands on element k.
  function Expired(s: seq<HostInfo>, clock: seq<nat>): (bad: seq<bool>)
    requires |clock| == |s|
    ensures |bad| == |s|
  {
    seq(|s|, k requires 0 <= k < |s| => Age(clock[k], s[k].timestamp) > MAX_AGE)
  }

  function OfHost(s: seq<HostInfo>, url: string): (bad: seq<bool>)
    ensures |bad| == |s|
  {
    seq(|s|, k requires 0 <= k < |s| => s[k].url == url)
  }

  function Added(s: seq<HostInfo>, info: HostInfo): seq<HostInfo> {
    if |s| + 1 > MAX_SIZE then (s + [info])[1..] else s + [info]
  }

  // The list while the sweep stands on element p of the list it started with.
  ghost predicate Sweeping<T>(list: seq<T>, s: seq<T>, bad: seq<bool>, p: nat, i: nat) {
    && p <= |s| == |bad| && Visited(bad, p)
    && i == |Survivors(s, bad, p)|
    && list == Survivors(s, bad, p) + s[p..]
  }

  lemma SweepKept<T>(list: seq<T>, s: seq<T>, bad: seq<bool>, p: nat, i: nat)
    requires Sweeping(list, s, bad, p, i) && p < |s| && !bad[p]
    ensures i < |list| && list[i] == s[p] && Sweeping(list, s, bad, p + 1, i + 1)
  {}

  lemma SweepErased<T>(list: seq<T>, s: seq<T>, bad: seq<bool>, p: nat, i: nat)
    requires Sweeping(list, s, bad, p, i) && p < |s| && bad[p] && Defined(bad)
    ensures i < |list| && list[i] == s[p] && p + 2 <= |s|
    ensures Sweeping(list[..i] + list[i + 1..], s, bad, p + 2, i + 1)
  {
    assert !Visited(bad, p + 1);
    assert s[p..] == [s[p], s[p + 1]] + s[p + 2..];
    assert Survivors(s, bad, p + 1) == Survivors(s, bad, p);
  }

  class HostInfoCache {
    var hostInfo: seq<HostInfo>

    constructor ()
      ensures hostInfo == []
    {
      hostInfo := [];
    }

    method GetCachedResults(url: string, clock: seq<nat>) returns (results: seq<HostInfo>)
      requires |clock| == |hostInfo| && Defined(Expired(hostInfo, clock))
      modifies this
      ensures hostInfo == Survivors(old(hostInfo), Expired(old(hostInfo), clock), |clock|)
      ensures results == Hits(old(hostInfo), Expired(old(hostInfo), clock), url, |clock|)
    {
      hide Survivors, Defined, Visited, Sweeping, Hits;
      ghost var s := hostInfo;
      ghost var bad := Expired(s, clock);
      results := [];
      var i, p := 0, 0;
      SweepStarts(s, bad);
      HitsStart(s, bad, url);
      while p < |clock|
        invariant Sweeping(hostInfo, s, bad, p, i)
        invariant p <= |clock| && results == Hits(s, bad, url, p)
        decreases |clock| - p
      {
        Standing(hostInfo, s, bad, p, i);
        if Age(clock[p], hostInfo[i].timestamp) > MAX_AGE {
          SweepErased(hostInfo, s, bad, p, i);
          HitsSkip(s, bad, url, p);
          hostInfo := hostInfo[..i] + hostInfo[i + 1..];
          p := p + 1;
        } else {
          SweepKept(hostInfo, s, bad, p, i);
          HitsKeep(s, bad, url, p);
          if hostInfo[i].url == url {
            results := results + [hostInfo[i]];
          }
        }
        i, p := i + 1, p + 1;
      }
      SweepEnds(hostInfo, s, bad, i);
    }

    method ClearCacheForHost(url: string)
      requires Defined(OfHost(hostInfo, url))
      modifies this
      ensures hostInfo == Survivors(old(hostInfo), OfHost(old(hostInfo), url), |old(hostInfo)|)
    {
      hide Survivors, Defined, Visited, Sweeping;
      ghost var s := hostInfo;
      ghost var bad := OfHost(s, url);
      var i := 0;
      ghost var p := 0;
      SweepStarts(s, bad);
      while i < |hostInfo|
        invariant Sweeping(hostInfo, s, bad, p, i) && p <= |s|
        decreases |hostInfo| - i
      {
        Standing(hostInfo, s, bad, p, i);
        if hostInfo[i].url == url {
          SweepErased(hostInfo, s, bad, p, i);
          hostInfo := hostInfo[..i] + hostInfo[i + 1..];
          p := p + 1;
        } else {
          SweepKept(hostInfo, s, bad, p, i);
        }
        i, p := i + 1, p + 1;
      }
      Standing(hostInfo, s, bad, p, i);
      SweepEnds(hostInfo, s, bad, i);
    }

    method AddResult(info: HostInfo)
      modifies this
      ensures hostInfo == Added(old(hostInfo), info)
    {
      hostInfo := hostInfo + [info];
      if |hostInfo| > MAX_SIZE {
        hostInfo := hostInfo[1..];
      }
    }
  }

  lemma SweepStarts<T>(s: seq<T>, bad: seq<bool>)
    requires |s| == |bad|
    ensures Sweeping(s, s, bad, 0, 0)
  {}

  lemma Standing<T>(list: seq<T>, s: seq<T>, bad: seq<bool>, p: nat, i: nat)
    requires Sweeping(list, s, bad, p, i)
    ensures p <= |s| && i <= |list| && (i < |list| <==> p < |s|)
    ensures p < |s| ==> list[i] == s[p] && Visited(bad, p)
  {}

  lemma SweepEnds<T>(list: seq<T>, s: seq<T>, bad: seq<bool>, i: nat)
    requires Sweeping(list, s, bad, |s|, i)
    ensures list == Survivors(s, bad, |s|)
  {}

  lemma HitsStart(s: seq<HostInfo>, bad: seq<bool>, url: string)
    requires |s| == |bad|
    ensures Hits(s, bad, url, 0) == []
  {}

  lemma HitsKeep(s: seq<HostInfo>, bad: seq<bool>, url: string, p: nat)
    requires p < |s| == |bad| && Visited(bad, p) && !bad[p]
    ensures Hits(s, bad, url, p + 1) == Hits(s, bad, url, p) + if s[p].url == url then [s[p]] else []
  {}

  lemma HitsSkip(s: seq<HostInfo>, bad: seq<bool>, url: string, p: nat)
    requires p + 2 <= |s| == |bad| && Visited(bad, p) && bad[p]
    ensures Hits(s, bad, url, p + 2) == Hits(s, bad, url, p)
  {
    assert !Visited(bad, p + 1);
    assert Hits(s, bad, url, p + 1) == Hits(s, bad, url, p);
  }

  // ---- What the sweep does and misses, exactly ----

  // The length of the run of flagged elements that ends just before k.
  function RunBefore(bad: seq<bool>, k: nat): nat
    requires k <= |bad|
  {
    if k == 0 || !bad[k - 1] then 0 else 1 + RunBefore(bad, k - 1)
  }

  // An element is reached exactly when the run of flagged elements before it has even length; with
  // k at the end this says when the sweep is defined.
  lemma {:induction false} VisitedByParity(bad: seq<bool>, k: nat)
    requires k <= |bad|
    ensures Visited(bad, k) <==> RunBefore(bad, k) % 2 == 0
  {
    if k > 0 {
      VisitedByParity(bad, k - 1);
    }
  }

  lemma {:induction false} HitsSound(s: seq<HostInfo>, bad: seq<bool>, url: string, n: nat, r: HostInfo)
    requires n <= |s| == |bad|
    ensures r in Hits(s, bad, url, n) <==>
      exists k :: 0 <= k < n && s[k] == r && r.url == url && !bad[k] && Visited(bad, k)
  {
    hide Visited;
    if n > 0 {
      HitsSound(s, bad, url, n - 1, r);
    }
  }

  lemma {:induction false} HitsWithin(s: seq<HostInfo>, bad: seq<bool>, url: string, n: nat)
    requires n <= |s| == |bad|
    ensures |Hits(s, bad, url, n)| <= |Unexpired(s, bad, url, n)|
    ensures Hits(s, bad, url, n) == Unexpired(s, bad, url, n) <==>
      forall k :: 0 <= k < n && s[k].url == url && !bad[k] ==> Visited(bad, k)
  {
    hide Visited;
    if n > 0 {
      HitsWithin(s, bad, url, n - 1);
      var hits, all := Hits(s, bad, url, n - 1), Unexpired(s, bad, url, n - 1);
      SameEnd(hits, all, s[n - 1]);
      assert hits + [] == hits && all + [] == all;
    }
  }

  lemma SameEnd<T>(a: seq<T>, b: seq<T>, x: T)
    ensures a + [x] == b + [x] <==> a == b
  {
    if a + [x] == b + [x] {
      assert (a + [x])[..|a|] == a && (b + [x])[..|b|] == b;
    }
  }

  // A lookup returns all unexpired records of the host exactly when none of them stands behind an
  // odd run of expired ones.
  lemma LookupComplete(s: seq<HostInfo>, bad: seq<bool>, url: string)
    requires |s| == |bad|
    ensures Hits(s, bad, url, |s|) == Unexpired(s, bad, url, |s|) <==>
      forall k :: 0 <= k < |s| && s[k].url == url && !bad[k] ==> RunBefore(bad, k) % 2 == 0
  {
    HitsWithin(s, bad, url, |s|);
    forall k | 0 <= k < |s| ensures Visited(bad, k) <==> RunBefore(bad, k) % 2 == 0 {
      VisitedByParity(bad, k);
    }
  }

  lemma {:induction false} SurvivorsAre<T>(s: seq<T>, bad: seq<bool>, n: nat, r: T)
    requires n <= |s| == |bad|
    ensures r in Survivors(s, bad, n) <==> exists k :: 0 <= k < n && s[k] == r && !Erased(bad, k)
  {
    hide Erased;
    if n > 0 {
      SurvivorsAre(s, bad, n - 1, r);
    }
  }

  // Clearing a host is defined and removes all its records exactly when no two of them are
  // neighbours and the last record belongs to another host.
  lemma ClearComplete(s: seq<HostInfo>, url: string)
    ensures
      var bad := OfHost(s, url);
      (Defined(bad) && forall r :: r in Survivors(s, bad, |s|) ==> r.url != url) <==>
      ((forall k :: 0 <= k < |s| - 1 ==> !(s[k].url == url && s[k + 1].url == url))
        && (|s| > 0 ==> s[|s| - 1].url != url))
  {
    hide Visited, Survivors, Erased, Defined;
    var bad := OfHost(s, url);
    AllErased(s, bad);
    HostsLeft(s, url);
    assert forall k :: 0 <= k < |s| ==> (bad[k] <==> s[k].url == url);
  }

  lemma HostsLeft(s: seq<HostInfo>, url: string)
    ensures var bad := OfHost(s, url);
      (forall r :: r in Survivors(s, bad, |s|) ==> r.url != url) <==>
        forall k :: 0 <= k < |s| && bad[k] ==> Erased(bad, k)
  {
    hide Survivors, Erased, Visited;
    var bad := OfHost(s, url);
    var left := Survivors(s, bad, |s|);
    forall k | 0 <= k < |s| && !Erased(bad, k) ensures s[k] in left {
      SurvivorsAre(s, bad, |s|, s[k]);
    }
    forall r | r in left && forall k :: 0 <= k < |s| && bad[k] ==> Erased(bad, k) ensures r.url != url {
      SurvivorsAre(s, bad, |s|, r);
      var k :| 0 <= k < |s| && s[k] == r && !Erased(bad, k);
      assert !bad[k];
    }
  }

  lemma AllErased(s: seq<HostInfo>, bad: seq<bool>)
    requires |s| == |bad|
    ensures (Defined(bad) && forall k :: 0 <= k < |s| && bad[k] ==> Erased(bad, k)) <==>
      ((forall k :: 0 <= k < |s| - 1 ==> !(bad[k] && bad[k + 1])) && (|s| > 0 ==> !bad[|s| - 1]))
  {
    hide Visited;
    forall k | 0 <= k <= |s| ensures Visited(bad, k) <==> k == 0 || !Erased(bad, k - 1) {
      VisitedStep(bad, k);
    }
  }

  lemma VisitedStep(bad: seq<bool>, k: nat)
    requires k <= |bad|
    ensures Visited(bad, k) <==> k == 0 || !Erased(bad, k - 1)
  {}

  // ---- Records in the order of their stamps ----

  // With the oldest records first and one clock reading, the expired records are the first m: then
  // the lookup misses at most the oldest unexpired record, and only when m is odd.
  lemma {:induction false} SortedSweep(bad: seq<bool>, m: nat, k: nat)
    requires m <= |bad| && forall j :: 0 <= j < |bad| ==> (bad[j] <==> j < m)
    requires k <= |bad|
    ensures Visited(bad, k) <==> if k <= m then k % 2 == 0 else true
  {
    if k > 0 {
      SortedSweep(bad, m, k - 1);
    }
  }

  lemma {:induction false} SortedExpiry(s: seq<HostInfo>, now: nat) returns (m: nat)
    requires forall i, j :: 0 <= i < j < |s| ==> s[i].timestamp <= s[j].timestamp
    requires forall i :: 0 <= i < |s| ==> s[i].timestamp <= now < WORD
    ensures m <= |s|
    ensures var bad := Expired(s, seq(|s|, _ => now));
      && (forall j :: 0 <= j < |s| ==> (bad[j] <==> j < m))
      && (forall k :: 0 <= k < |s| ==> (Visited(bad, k) || bad[k] <==> !(k == m && m % 2 == 1)))
      && (Defined(bad) <==> !(m == |s| && m % 2 == 1))
  {
    hide Visited, RunBefore;
    var bad := Expired(s, seq(|s|, _ => now));
    m := 0;
    while m < |s| && bad[m]
      invariant m <= |s| && forall j :: 0 <= j < m ==> bad[j]
    {
      m := m + 1;
    }
    forall j | m <= j < |s| ensures !bad[j] {
      assert s[m].timestamp <= s[j].timestamp;
    }
    forall k | 0 <= k <= |s| ensures Visited(bad, k) <==> if k <= m then k % 2 == 0 else true {
      SortedSweep(bad, m, k);
    }
  }

  // ---- The sweeps as written are not complete ----

  // One expired record in front hides a good one; and a lone expired record takes the sweep past
  // the end of the list.
  lemma LookupMisses()
    ensures var stale := HostInfo("a", "1.1.1.1", 4, 0); var good := HostInfo("b", "2.2.2.2", 4, MAX_AGE);
      var s, clock := [stale, good], [MAX_AGE + 1, MAX_AGE + 1];
      && Defined(Expired(s, clock))
      && Unexpired(s, Expired(s, clock), "b", 2) == [good] && Hits(s, Expired(s, clock), "b", 2) == []
      && !Defined(Expired([stale], [MAX_AGE + 1]))
  {
    var stale, good := HostInfo("a", "1.1.1.1", 4, 0), HostInfo("b", "2.2.2.2", 4, MAX_AGE);
    assert Expired([stale, good], [MAX_AGE + 1, MAX_AGE + 1]) == [true, false];
    assert Expired([stale], [MAX_AGE + 1]) == [true];
    assert "a" != "b";
    SecondMissed([stale, good], [true, false], "b");
    assert Visited([true], 0);
  }

  lemma SecondMissed(s: seq<HostInfo>, bad: seq<bool>, url: string)
    requires |s| == |bad| == 2 && bad[0] && !bad[1] && s[0].url != url && s[1].url == url
    ensures Defined(bad) && Unexpired(s, bad, url, 2) == [s[1]] && Hits(s, bad, url, 2) == []
  {
    assert Visited(bad, 0) && Erased(bad, 0) && !Visited(bad, 1) && Visited(bad, 2);
    hide Visited, Erased;
    assert Hits(s, bad, url, 0) == [] && Unexpired(s, bad, url, 0) == [];
    assert Hits(s, bad, url, 1) == [] && Unexpired(s, bad, url, 1) == [];
  }

  // Of two neighbouring records of a host, clearing the host leaves the second.
  lemma ClearLeaves()
    ensures var r := HostInfo("a", "1.1.1.1", 4, 0);
      Defined(OfHost([r, r], "a")) && Survivors([r, r], OfHost([r, r], "a"), 2) == [r]
  {
    var r := HostInfo("a", "1.1.1.1", 4, 0);
    var bad := OfHost([r, r], "a");
    assert Visited(bad, 0) && Erased(bad, 0) && !Visited(bad, 1) && !Erased(bad, 1) && Visited(bad, 2);
    assert Survivors([r, r], bad, 1) == [];
  }
}
