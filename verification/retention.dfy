/**
 Replay retention: keep the longest run of latest events within a count limit and a byte limit.
 One specification, `Retain`, for the two ways the program does it: `ScanBroadcaster` trims three
 parallel lists from the front, and the runtime store scans a table backwards.
 */
module Retention {
  import opened Wrappers

  function Sum(sizes: seq<nat>): nat {
    if sizes == [] then 0 else sizes[0] + Sum(sizes[1..])
  }

  function Sizes<T>(items: seq<T>, size: T -> nat): (r: seq<nat>)
    ensures |r| == |items|
  {
    seq(|items|, i requires 0 <= i < |items| => size(items[i]))
  }

  predicate Fits(sizes: seq<nat>, maxCount: nat, maxBytes: nat) {
    |sizes| <= maxCount && Sum(sizes) <= maxBytes
  }

  /** How many of the latest events are kept. */
  function Kept(sizes: seq<nat>, maxCount: nat, maxBytes: nat): (k: nat)
    ensures k <= |sizes|
  {
    if Fits(sizes, maxCount, maxBytes) then |sizes| else Kept(sizes[1..], maxCount, maxBytes)
  }

  function Last<T>(items: seq<T>, k: nat): seq<T>
    requires k <= |items|
  {
    items[|items| - k..]
  }

  lemma {:induction false} SumOfSuffix(sizes: seq<nat>, i: nat)
    requires i <= |sizes|
    ensures Sum(sizes[i..]) <= Sum(sizes)
  {
    if i > 0 {
      SumOfSuffix(sizes[1..], i - 1);
      assert sizes[1..][i - 1..] == sizes[i..];
    }
  }

  lemma {:induction false} SumAppend(a: seq<nat>, b: seq<nat>)
    ensures Sum(a + b) == Sum(a) + Sum(b)
  {
    if a == [] {
      assert a + b == b;
    } else {
      SumAppend(a[1..], b);
      assert (a + b)[1..] == a[1..] + b;
    }
  }

  /** `Kept` is the length of the longest suffix that fits: that one fits, and no longer one does. */
  lemma {:induction false} KeptIsLongest(sizes: seq<nat>, maxCount: nat, maxBytes: nat)
    ensures
      var k := Kept(sizes, maxCount, maxBytes);
      && Fits(Last(sizes, k), maxCount, maxBytes)
      && forall n: nat | k < n <= |sizes| :: !Fits(Last(sizes, n), maxCount, maxBytes)
  {
    var k := Kept(sizes, maxCount, maxBytes);
    if Fits(sizes, maxCount, maxBytes) {
      assert Last(sizes, k) == sizes;
    } else {
      KeptIsLongest(sizes[1..], maxCount, maxBytes);
      assert Last(sizes[1..], k) == Last(sizes, k);
      forall n: nat | k < n <= |sizes|
        ensures !Fits(Last(sizes, n), maxCount, maxBytes)
      {
        if n < |sizes| {
          assert Last(sizes[1..], n) == Last(sizes, n);
        } else {
          assert Last(sizes, n) == sizes;
        }
      }
    }
  }

  /** The only such length: any suffix that fits while the next longer one does not is the kept one. */
  lemma KeptIsUnique(sizes: seq<nat>, maxCount: nat, maxBytes: nat, k: nat)
    requires k <= |sizes| && Fits(Last(sizes, k), maxCount, maxBytes)
    requires k < |sizes| ==> !Fits(Last(sizes, k + 1), maxCount, maxBytes)
    ensures k == Kept(sizes, maxCount, maxBytes)
  {
    hide Kept, Sum;
    KeptIsLongest(sizes, maxCount, maxBytes);
    var m := Kept(sizes, maxCount, maxBytes);
    if k < m {
      assert Last(sizes, m)[m - (k + 1)..] == Last(sizes, k + 1);
      SumOfSuffix(Last(sizes, m), m - (k + 1));
    }
  }

  lemma LastOfAppended(sizes: seq<nat>, k: nat, x: nat, m: nat)
    requires k <= |sizes| && m <= k + 1
    ensures Last(Last(sizes, k) + [x], m) == Last(sizes + [x], m)
  {
  }

  /** If one event more of the earlier ones does not fit, it does not fit beside a new one either. */
  lemma LongerFits(sizes: seq<nat>, k: nat, x: nat, maxCount: nat, maxBytes: nat)
    requires k < |sizes|
    ensures Fits(Last(sizes + [x], k + 2), maxCount, maxBytes) ==> Fits(Last(sizes, k + 1), maxCount, maxBytes)
  {
    hide Sum;
    assert Last(sizes + [x], k + 2) == Last(sizes, k + 1) + [x];
    SumAppend(Last(sizes, k + 1), [x]);
  }

  lemma KeptStops(sizes: seq<nat>, maxCount: nat, maxBytes: nat)
    ensures
      var k := Kept(sizes, maxCount, maxBytes);
      && Fits(Last(sizes, k), maxCount, maxBytes)
      && (k < |sizes| ==> !Fits(Last(sizes, k + 1), maxCount, maxBytes))
  {
    hide Kept, Fits;
    KeptIsLongest(sizes, maxCount, maxBytes);
  }

  /** Trimming as events arrive keeps what trimming the whole history would keep. */
  lemma KeptIncrementally(sizes: seq<nat>, x: nat, maxCount: nat, maxBytes: nat)
    ensures
      var k := Kept(sizes, maxCount, maxBytes);
      Kept(Last(sizes, k) + [x], maxCount, maxBytes) == Kept(sizes + [x], maxCount, maxBytes)
  {
    hide Kept, Fits;
    var k := Kept(sizes, maxCount, maxBytes);
    var kept := Last(sizes, k) + [x];
    var m := Kept(kept, maxCount, maxBytes);
    KeptStops(sizes, maxCount, maxBytes);
    KeptStops(kept, maxCount, maxBytes);
    LastOfAppended(sizes, k, x, m);
    if m < |kept| {
      LastOfAppended(sizes, k, x, m + 1);
    } else if m < |sizes + [x]| {
      LongerFits(sizes, k, x, maxCount, maxBytes);
    }
    KeptIsUnique(sizes + [x], maxCount, maxBytes, m);
  }

  function Retain<T>(items: seq<T>, size: T -> nat, maxCount: nat, maxBytes: nat): seq<T> {
    Last(items, Kept(Sizes(items, size), maxCount, maxBytes))
  }

  /** What the items weigh together. */
  function Weight<T>(items: seq<T>, size: T -> nat): nat {
    if items == [] then 0 else Weight(items[..|items| - 1], size) + size(items[|items| - 1])
  }

  lemma {:induction false} WeightIsSum<T>(items: seq<T>, size: T -> nat)
    ensures Weight(items, size) == Sum(Sizes(items, size))
  {
    if items != [] {
      var n := |items| - 1;
      WeightIsSum(items[..n], size);
      assert Sizes(items, size) == Sizes(items[..n], size) + [size(items[n])];
      SumAppend(Sizes(items[..n], size), [size(items[n])]);
      assert Sum([size(items[n])]) == size(items[n]);
    }
  }

  /** What is retained are the latest events, as many as fit both limits: with one more, they fit no longer. */
  lemma RetainedAreLatest<T>(items: seq<T>, size: T -> nat, maxCount: nat, maxBytes: nat)
    ensures
      var kept := Retain(items, size, maxCount, maxBytes);
      && |kept| <= |items| && kept == items[|items| - |kept|..]
      && |kept| <= maxCount && Weight(kept, size) <= maxBytes
      && (|kept| < |items| ==> |kept| == maxCount || Weight(items[|items| - |kept| - 1..], size) > maxBytes)
  {
    hide Kept, Weight, Sum, Sizes;
    var sizes := Sizes(items, size);
    var kept := Retain(items, size, maxCount, maxBytes);
    KeptIsLongest(sizes, maxCount, maxBytes);
    WeightOfLast(items, size, |kept|);
    if |kept| < |items| {
      WeightOfLast(items, size, |kept| + 1);
    }
  }

  lemma WeightOfLast<T>(items: seq<T>, size: T -> nat, k: nat)
    requires k <= |items|
    ensures Weight(items[|items| - k..], size) == Sum(Last(Sizes(items, size), k))
  {
    hide Weight, Sum;
    var latest := items[|items| - k..];
    WeightIsSum(latest, size);
    assert Sizes(latest, size) == Last(Sizes(items, size), k);
  }

  /** The same for the events themselves. */
  lemma RetainIncrementally<T>(items: seq<T>, x: T, size: T -> nat, maxCount: nat, maxBytes: nat)
    ensures Retain(Retain(items, size, maxCount, maxBytes) + [x], size, maxCount, maxBytes)
      == Retain(items + [x], size, maxCount, maxBytes)
  {
    hide Kept, Fits;
    var kept := Retain(items, size, maxCount, maxBytes);
    var sizes := Sizes(items, size);
    KeptIncrementally(sizes, size(x), maxCount, maxBytes);
    assert Sizes(kept + [x], size) == Last(sizes, |kept|) + [size(x)];
    assert Sizes(items + [x], size) == sizes + [size(x)];
    var m := Kept(sizes + [size(x)], maxCount, maxBytes);
    assert m <= |kept + [x]|;
    assert Last(kept + [x], m) == Last(items + [x], m);
  }
}
