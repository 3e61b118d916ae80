/** `RateLimiter`: a cooldown and an hourly limit, answered from a pruned list of times. */
module RateLimiting {
  import opened Wrappers

  /** Times are whole microseconds. */
  const HOUR: int := 3_600_000_000

  /** How many scans fall in the window after `lo`, up to and including `hi`. */
  function CountIn(s: seq<int>, lo: int, hi: int): nat {
    if s == [] then 0
    else CountIn(s[..|s| - 1], lo, hi) + if lo < s[|s| - 1] <= hi then 1 else 0
  }

  /** `[ts for ts in s if ts > since]`. */
  function After(s: seq<int>, since: int): (r: seq<int>)
    ensures forall i | 0 <= i < |r| :: r[i] > since
  {
    if s == [] then []
    else
      var before := After(s[..|s| - 1], since);
      if s[|s| - 1] > since then before + [s[|s| - 1]] else before
  }

  /** Whether a scan may start at `now`, judged by the whole history. */
  predicate Allowed(history: seq<int>, now: int, maxPerHour: int, cooldown: int) {
    && (history != [] ==> now - history[|history| - 1] >= cooldown)
    && |After(history, now - HOUR)| < maxPerHour
  }

  /** Every scan was recorded at an instant at which it was allowed, on a clock that never runs back. */
  predicate Disciplined(history: seq<int>, maxPerHour: int, cooldown: int) {
    history == [] || (
      var before, last := history[..|history| - 1], history[|history| - 1];
      && Disciplined(before, maxPerHour, cooldown)
      && (before != [] ==> before[|before| - 1] <= last)
      && Allowed(before, last, maxPerHour, cooldown))
  }

  lemma {:induction false} AfterAfter(s: seq<int>, early: int, late: int)
    requires early <= late
    ensures After(After(s, early), late) == After(s, late)
  {
    if s != [] {
      AfterAfter(s[..|s| - 1], early, late);
      var before := After(s[..|s| - 1], early);
      assert (before + [s[|s| - 1]])[..|before|] == before;
    }
  }

  lemma {:induction false} CountWithin(s: seq<int>, lo: int, hi: int, since: int)
    requires since <= lo
    ensures CountIn(s, lo, hi) <= |After(s, since)|
  {
    if s != [] {
      CountWithin(s[..|s| - 1], lo, hi, since);
    }
  }

  /** Pruning keeps exactly the scans after the given instant, in order. */
  lemma {:induction false} AfterMeans(s: seq<int>, since: int, x: int)
    ensures multiset(After(s, since))[x] == if x > since then multiset(s)[x] else 0
  {
    if s != [] {
      var before, last := s[..|s| - 1], s[|s| - 1];
      AfterMeans(before, since, x);
      AfterNext(before, last, since);
      hide After;
      assert s == before + [last];
    }
  }

  lemma AfterNext(s: seq<int>, t: int, since: int)
    ensures After(s + [t], since) == if t > since then After(s, since) + [t] else After(s, since)
  {
    assert (s + [t])[..|s|] == s;
  }

  /** The main result: no hour holds more scans than the limit, wherever the hour starts. */
  lemma {:induction false} AtMostLimitPerHour(history: seq<int>, maxPerHour: int, cooldown: int, start: int)
    requires maxPerHour >= 0 && Disciplined(history, maxPerHour, cooldown)
    ensures CountIn(history, start, start + 3_600_000_000) <= maxPerHour
  {
    if history != [] {
      var before, last := history[..|history| - 1], history[|history| - 1];
      AtMostLimitPerHour(before, maxPerHour, cooldown, start);
      if start < last <= start + HOUR {
        CountWithin(before, start, start + HOUR, last - HOUR);
      }
    }
  }

  // ---------------------------------------------------------------- an hour with both its ends

  /** `n` scans, one cooldown apart, from time 0. */
  function Steady(n: nat, cooldown: int): (s: seq<int>)
    ensures |s| == n
  {
    if n == 0 then [] else Steady(n - 1, cooldown) + [(n - 1) * cooldown]
  }

  lemma {:induction false} SteadySpan(n: nat, cooldown: int)
    requires n > 0 && cooldown >= 0
    ensures
      var s := Steady(n, cooldown);
      s[0] == 0 && s[n - 1] == (n - 1) * cooldown && forall i | 0 <= i < n :: 0 <= s[i] <= (n - 1) * cooldown
  {
    if n > 1 {
      SteadySpan(n - 1, cooldown);
      OneMore(n - 1, cooldown);
    }
  }

  lemma OneMore(n: nat, each: int)
    requires n > 0
    ensures n * each == (n - 1) * each + each
  {
  }

  lemma {:induction false} AfterIsShorter(s: seq<int>, since: int)
    ensures |After(s, since)| <= |s|
    ensures s != [] && s[0] <= since ==> |After(s, since)| < |s|
  {
    if |s| > 1 {
      AfterIsShorter(s[..|s| - 1], since);
    }
  }

  lemma {:induction false} SteadyIsDisciplined(n: nat, maxPerHour: int, cooldown: int)
    requires n <= maxPerHour && cooldown >= 0
    ensures Disciplined(Steady(n, cooldown), maxPerHour, cooldown)
  {
    if n == 0 {
      assert Disciplined([], maxPerHour, cooldown);
    } else {
      var before := Steady(n - 1, cooldown);
      assert Steady(n, cooldown) == before + [(n - 1) * cooldown];
      hide Steady, Disciplined;
      SteadyIsDisciplined(n - 1, maxPerHour, cooldown);
      AfterIsShorter(before, (n - 1) * cooldown - HOUR);
      if n > 1 {
        SteadySpan(n - 1, cooldown);
        OneMore(n - 1, cooldown);
      }
      DisciplinedStep(before, (n - 1) * cooldown, maxPerHour, cooldown);
    }
  }

  lemma {:induction false} AllCounted(s: seq<int>, lo: int, hi: int)
    requires forall i | 0 <= i < |s| :: lo < s[i] <= hi
    ensures CountIn(s, lo, hi) == |s|
  {
    if s != [] {
      AllCounted(s[..|s| - 1], lo, hi);
    }
  }

  /** While the limit times the cooldown fits into an hour: the fullest closed hour, one scan above the limit. */
  lemma FullestHour(maxPerHour: nat, cooldown: nat)
    requires 0 < maxPerHour && maxPerHour * cooldown <= HOUR
    ensures
      var history := Steady(maxPerHour, cooldown) + [HOUR];
      Disciplined(history, maxPerHour, cooldown) && CountIn(history, -1, HOUR) == maxPerHour + 1
  {
    var before := Steady(maxPerHour, cooldown);
    SteadyIsDisciplined(maxPerHour, maxPerHour, cooldown);
    SteadySpan(maxPerHour, cooldown);
    OneMore(maxPerHour, cooldown);
    AfterIsShorter(before, 0);
    DisciplinedStep(before, HOUR, maxPerHour, cooldown);
    AllCounted(before + [HOUR], -1, HOUR);
  }

  /** As many scans as a window holds, so many cooldowns less one lie between its ends. */
  lemma {:induction false} ScansSpan(history: seq<int>, maxPerHour: int, cooldown: nat, lo: int, hi: int)
    requires Disciplined(history, maxPerHour, cooldown) && CountIn(history, lo, hi) > 0
    ensures (CountIn(history, lo, hi) - 1) * cooldown <= hi - lo - 1
    ensures history[|history| - 1] >= lo + 1 + (CountIn(history, lo, hi) - 1) * cooldown
  {
    var before, last := history[..|history| - 1], history[|history| - 1];
    var n := CountIn(before, lo, hi);
    if n > 0 {
      ScansSpan(before, maxPerHour, cooldown, lo, hi);
      OneMore(n, cooldown);
    }
  }

  /** The scans of the hour from `start`, both its ends included. */
  function ClosedHour(history: seq<int>, start: int): nat {
    CountIn(history, start - 1, start + 3_600_000_000)
  }

  /** Closed hours keep to the limit, on every disciplined run. */
  ghost predicate ClosedHoursHold(maxPerHour: nat, cooldown: nat) {
    forall history: seq<int>, start: int | Disciplined(history, maxPerHour, cooldown) ::
      ClosedHour(history, start) <= maxPerHour
  }

  /** An hour with both its ends keeps to the limit exactly when that many cooldowns take longer than an hour. */
  lemma ClosedHoursHoldIff(maxPerHour: nat, cooldown: nat)
    requires maxPerHour > 0
    ensures ClosedHoursHold(maxPerHour, cooldown) <==> maxPerHour * cooldown > 3_600_000_000
  {
    if maxPerHour * cooldown <= HOUR {
      FullestHour(maxPerHour, cooldown);
      var history := Steady(maxPerHour, cooldown) + [HOUR];
      assert ClosedHour(history, 0) > maxPerHour;
    } else {
      forall history: seq<int>, start: int | Disciplined(history, maxPerHour, cooldown)
        ensures ClosedHour(history, start) <= maxPerHour
      {
        var n := ClosedHour(history, start);
        if n > maxPerHour {
          ScansSpan(history, maxPerHour, cooldown, start - 1, start + HOUR);
          NoFewer(n - 1, maxPerHour, cooldown);
        }
      }
    }
  }

  lemma NoFewer(many: nat, few: nat, each: nat)
    requires few <= many
    ensures few * each <= many * each
  {
  }

  /** The defaults, ten scans an hour and 300 seconds between them, let a closed hour hold eleven. */
  lemma DefaultsAllowEleven()
    ensures !ClosedHoursHold(10, 300_000_000)
  {
    ClosedHoursHoldIff(10, 300_000_000);
  }

  lemma {:induction false} CooldownApart(history: seq<int>, maxPerHour: int, cooldown: int, i: nat)
    requires Disciplined(history, maxPerHour, cooldown) && i + 1 < |history|
    ensures history[i] <= history[i + 1] && history[i + 1] - history[i] >= cooldown
  {
    if i + 2 < |history| {
      CooldownApart(history[..|history| - 1], maxPerHour, cooldown, i);
    }
  }

  lemma DisciplinedStep(history: seq<int>, now: int, maxPerHour: int, cooldown: int)
    requires history != [] ==> history[|history| - 1] <= now
    ensures Disciplined(history + [now], maxPerHour, cooldown) <==>
      Disciplined(history, maxPerHour, cooldown) && Allowed(history, now, maxPerHour, cooldown)
  {
    assert (history + [now])[..|history|] == history;
  }

  /** Pruning the pruned list after one more scan is pruning the whole history. */
  lemma PruneStep(history: seq<int>, stamps: seq<int>, now: int)
    requires history != [] ==> history[|history| - 1] <= now
    requires stamps == if history == [] then [] else After(history, history[|history| - 1] - HOUR)
    ensures After(stamps + [now], now - HOUR) == After(history + [now], now - HOUR)
  {
    assert (history + [now])[..|history|] == history;
    assert (stamps + [now])[..|stamps|] == stamps;
    if history != [] {
      AfterAfter(history, history[|history| - 1] - HOUR, now - HOUR);
    }
  }

  class RateLimiter {
    const maxScansPerHour: int
    const cooldown: int
    var scanTimestamps: seq<int>
    var lastScanTime: Option<int>
    ghost var history: seq<int>  // every scan ever recorded

    ghost predicate Valid()
      reads this
    {
      && lastScanTime == (if history == [] then None else Some(history[|history| - 1]))
      && scanTimestamps == (if history == [] then [] else After(history, history[|history| - 1] - HOUR))
    }

    constructor (maxScansPerHour: int, cooldown: int)
      ensures Valid() && history == []
      ensures this.maxScansPerHour == maxScansPerHour && this.cooldown == cooldown
    {
      this.maxScansPerHour, this.cooldown := maxScansPerHour, cooldown;
      scanTimestamps, lastScanTime, history := [], None, [];
    }

    /** The pruned list gives the answer the whole history would give. */
    method CanScan(now: int) returns (ok: bool)
      requires Valid() && (history != [] ==> history[|history| - 1] <= now)
      ensures ok <==>
        && (history != [] ==> now - history[|history| - 1] >= cooldown)
        && |After(history, now - 3_600_000_000)| < maxScansPerHour
      ensures ok <==> Allowed(history, now, maxScansPerHour, cooldown)
    {
      if history != [] {
        AfterAfter(history, history[|history| - 1] - HOUR, now - HOUR);
      }
      if lastScanTime.Some? {
        var elapsed := now - lastScanTime.value;
        if elapsed < cooldown {
          return false;
        }
      }
      var recent := After(scanTimestamps, now - HOUR);
      if |recent| >= maxScansPerHour {
        return false;
      }
      return true;
    }

    /** Recording after an allowed check keeps the history disciplined. */
    method RecordScan(now: int)
      requires Valid() && (history != [] ==> history[|history| - 1] <= now)
      modifies this
      ensures Valid() && history == old(history) + [now]
      ensures Disciplined(old(history), maxScansPerHour, cooldown) && Allowed(old(history), now, maxScansPerHour, cooldown)
        ==> Disciplined(history, maxScansPerHour, cooldown)
    {
      hide After, Disciplined;
      PruneStep(history, scanTimestamps, now);
      DisciplinedStep(history, now, maxScansPerHour, cooldown);
      scanTimestamps := scanTimestamps + [now];
      lastScanTime := Some(now);
      scanTimestamps := After(scanTimestamps, now - HOUR);
      history := history + [now];
    }
  }
}
