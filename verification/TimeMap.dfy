// Half-hour access maps: one per weekday, all permitted by default, read from a string of 48
// characters in which x or X closes an interval.

module TimeMap {
  const INTERVAL_TIME: nat := 30
  const INTERVALS: nat := MinutesToIntervals(24, 0)
  const DAYS: nat := 7

  // A broken-down local time, in the ranges that localtime() delivers.
  datatype LocalTime = LocalTime(wday: nat, hour: nat, minute: nat) {
    ghost predicate Valid() {
      wday < DAYS && hour < 24 && minute < 60
    }
  }

  type DayMap = d: seq<bool> | |d| == INTERVALS witness AllDay()
  type WeekMap = w: seq<DayMap> | |w| == DAYS witness AllWeek()

  function MinutesToIntervals(hours: nat, minutes: nat): nat {
    (hours * 60 + minutes) / INTERVAL_TIME
  }

  function AllDay(): seq<bool> {
    seq(INTERVALS, _ => true)
  }

  function AllWeek(): seq<DayMap> {
    seq(DAYS, _ => AllDay())
  }

  predicate Open(c: char) {
    c != 'x' && c != 'X'
  }

  function FromString(s: string): DayMap
    requires |s| == INTERVALS
  {
    seq(INTERVALS, i requires 0 <= i < INTERVALS => Open(s[i]))
  }

  predicate Permitted(day: DayMap, hour: nat, minute: nat) {
    var interval := MinutesToIntervals(hour, minute);
    interval < INTERVALS && day[interval]
  }

  predicate PermittedInWeek(week: WeekMap, t: LocalTime) {
    t.wday < DAYS && Permitted(week[t.wday], t.hour, t.minute)
  }

  // Within a day the character that decides is the one at 2 * hour + minute / 30.
  lemma PermittedByCharacter(s: string, t: LocalTime)
    requires |s| == INTERVALS && t.Valid()
    ensures |s| == 48 && 2 * t.hour + t.minute / 30 < |s|
    ensures var c := s[2 * t.hour + t.minute / 30];
      Permitted(FromString(s), t.hour, t.minute) <==> c != 'x' && c != 'X'
  {
    assert MinutesToIntervals(t.hour, t.minute) == 2 * t.hour + t.minute / 30;
  }

  class TimeMap {
    const accessIntervals: array<bool>

    ghost predicate Valid()
      reads this
    {
      accessIntervals.Length == INTERVALS
    }

    ghost function Map(): DayMap
      requires Valid()
      reads this, accessIntervals
    {
      accessIntervals[..]
    }

    constructor ()
      ensures Valid() && fresh(accessIntervals)
      ensures Map() == AllDay()
    {
      accessIntervals := new bool[INTERVALS](_ => true);
    }

    constructor Of(day: DayMap)
      ensures Valid() && fresh(accessIntervals)
      ensures Map() == day
    {
      accessIntervals := new bool[INTERVALS](i requires 0 <= i < INTERVALS => day[i]);
    }

    method InitFromString(init: string) returns (ok: bool)
      requires Valid()
      modifies accessIntervals
      ensures ok <==> |init| == INTERVALS
      ensures Map() == if ok then FromString(init) else old(Map())
    {
      if |init| != INTERVALS {
        return false;
      }
      for i := 0 to INTERVALS
        invariant forall k :: 0 <= k < i ==> accessIntervals[k] == Open(init[k])
      {
        accessIntervals[i] := !(init[i] == 'x' || init[i] == 'X');
      }
      return true;
    }

    method PermittedAtTime(hour: nat, minute: nat) returns (r: bool)
      requires Valid()
      ensures r <==> Permitted(Map(), hour, minute)
    {
      var interval := MinutesToIntervals(hour, minute);
      if interval >= INTERVALS {
        return false;
      }
      return accessIntervals[interval];
    }
  }
}
