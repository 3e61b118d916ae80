/**
 The scan budget: which targets a request names, how many addresses they stand for, and which requests
 are accepted. How addresses and networks are written is an input (Python's `ipaddress`).
 */
module AddressBudget {
  import opened Networks
  import opened Sets
  import opened Wrappers

  type Network = n: Net | n.Valid() witness Net(false, 32, 0)

  datatype Notation = Notation(address: string -> bool, network: string -> Option<Network>)

  // ---------------------------------------------------------------- strings

  function Split(s: string, separator: char): (parts: seq<string>)
    ensures parts != []
  {
    if s == [] then [[]]
    else
      var rest := Split(s[1..], separator);
      if s[0] == separator then [[]] + rest else [[s[0]] + rest[0]] + rest[1..]
  }

  predicate Digit(c: char) {
    48 <= c as int <= 57
  }

  predicate Digits(s: string) {
    s != [] && forall i | 0 <= i < |s| :: Digit(s[i])
  }

  function Value(s: string): nat
    requires forall i | 0 <= i < |s| :: Digit(s[i])
  {
    if s == [] then 0
    else
      assert Digit(s[|s| - 1]);
      10 * Value(s[..|s| - 1]) + (s[|s| - 1] as int - 48)
  }

  predicate Space(c: char) {
    9 <= c as int <= 13 || 28 <= c as int <= 32 || c as int == 133 || c as int == 160
  }

  function Strip(s: string): string {
    if s != [] && Space(s[0]) then Strip(s[1..])
    else if s != [] && Space(s[|s| - 1]) then Strip(s[..|s| - 1])
    else s
  }

  // ---------------------------------------------------------------- octet ranges

  /** One octet of a range: a value or `first-last`, each at most 255, not backwards. */
  predicate OctetRange(octet: string) {
    var bounds := Split(octet, '-');
    && |bounds| <= 2 && (forall i | 0 <= i < |bounds| :: Digits(bounds[i]))
    && (forall i | 0 <= i < |bounds| :: Value(bounds[i]) <= 255)
    && Value(bounds[0]) <= Value(bounds[|bounds| - 1])
  }

  /** `_is_valid_ipv4_range` */
  predicate IsRange(item: string) {
    var octets := Split(item, '.');
    && |octets| == 4 && (exists i :: 0 <= i < 4 && '-' in octets[i])
    && forall i | 0 <= i < 4 :: OctetRange(octets[i])
  }

  /** The values an octet range allows. */
  function Octets(octet: string): set<nat>
    requires OctetRange(octet)
  {
    Interval(Value(Split(octet, '-')[0]), Span(octet))
  }

  function Span(octet: string): nat
    requires OctetRange(octet)
  {
    var bounds := Split(octet, '-');
    Value(bounds[|bounds| - 1]) - Value(bounds[0]) + 1
  }

  /** The addresses whose octets lie in the given ranges, as numbers. */
  ghost function Addresses(octets: seq<string>): set<nat>
    requires forall i | 0 <= i < |octets| :: OctetRange(octets[i])
  {
    if octets == [] then {0}
    else Combined(Addresses(octets[..|octets| - 1]), Octets(octets[|octets| - 1]))
  }

  function Spans(octets: seq<string>): nat
    requires forall i | 0 <= i < |octets| :: OctetRange(octets[i])
  {
    if octets == [] then 1 else Spans(octets[..|octets| - 1]) * Span(octets[|octets| - 1])
  }

  function Interval(lo: nat, n: nat): (s: set<nat>)
    ensures |s| == n && forall x: nat :: x in s <==> lo <= x < lo + n
  {
    if n == 0 then {} else Interval(lo, n - 1) + {lo + n - 1}
  }

  lemma OctetsCount(octet: string)
    requires OctetRange(octet)
    ensures |Octets(octet)| == Span(octet) && forall v | v in Octets(octet) :: v < 256
  {
  }

  ghost function Combined(fronts: set<nat>, lasts: set<nat>): set<nat> {
    set front, last | front in fronts && last in lasts :: 256 * front + last
  }

  ghost function Shifted(front: nat, lasts: set<nat>): set<nat> {
    set last | last in lasts :: 256 * front + last
  }

  lemma {:induction false} ShiftedCount(front: nat, lasts: set<nat>)
    ensures |Shifted(front, lasts)| == |lasts|
    decreases |lasts|
  {
    if lasts != {} {
      var x :| x in lasts;
      ShiftedCount(front, lasts - {x});
      var others := Shifted(front, lasts - {x});
      forall y
        ensures y in Shifted(front, lasts) <==> y in others + {256 * front + x}
      {
        if y in Shifted(front, lasts) {
          var last :| last in lasts && y == 256 * front + last;
          assert last == x || last in lasts - {x};
        }
      }
      assert Shifted(front, lasts) == others + {256 * front + x};
    }
  }

  lemma CombinedSplits(fronts: set<nat>, x: nat, lasts: set<nat>)
    requires x in fronts && forall v | v in lasts :: v < 256
    ensures Combined(fronts, lasts) == Combined(fronts - {x}, lasts) + Shifted(x, lasts)
    ensures Combined(fronts - {x}, lasts) !! Shifted(x, lasts)
  {
    var others, here := Combined(fronts - {x}, lasts), Shifted(x, lasts);
    forall y
      ensures y in Combined(fronts, lasts) <==> y in others + here
      ensures !(y in others && y in here)
    {
      if y in Combined(fronts, lasts) {
        var front, last :| front in fronts && last in lasts && y == 256 * front + last;
        assert front == x || front in fronts - {x};
      }
    }
  }

  lemma OneMore(all: nat, most: nat, each: nat)
    requires all == most + 1
    ensures all * each == most * each + each
  {
  }

  /** Two sets of digits combine to as many numbers as there are pairs. */
  lemma {:induction false} CombinedCount(fronts: set<nat>, lasts: set<nat>)
    requires forall v | v in lasts :: v < 256
    ensures |Combined(fronts, lasts)| == |fronts| * |lasts|
    decreases |fronts|
  {
    if fronts == {} {
      assert Combined(fronts, lasts) == {};
    } else {
      var x :| x in fronts;
      CombinedSplits(fronts, x, lasts);
      CombinedCount(fronts - {x}, lasts);
      ShiftedCount(x, lasts);
      hide Combined, Shifted;
      OneMore(|fronts|, |fronts - {x}|, |lasts|);
    }
  }

  /** The product of the spans is the number of addresses in the range. */
  lemma {:induction false} SpansCountAddresses(octets: seq<string>)
    requires forall i | 0 <= i < |octets| :: OctetRange(octets[i])
    ensures |Addresses(octets)| == Spans(octets)
    decreases |octets|
  {
    if octets != [] {
      var n := |octets| - 1;
      SpansCountAddresses(octets[..n]);
      OctetsCount(octets[n]);
      CombinedCount(Addresses(octets[..n]), Octets(octets[n]));
    }
  }

  // ---------------------------------------------------------------- one item

  datatype Place = V4(number: nat) | V6(number: nat) | Host(name: string)

  function At(v6: bool, number: nat): Place {
    if v6 then V6(number) else V4(number)
  }

  ghost function Places(v6: bool, numbers: set<nat>): set<Place> {
    set number | number in numbers :: At(v6, number)
  }

  /** What an item of a request stands for: a network, an octet range, or one host. */
  ghost function Denoted(item: string, notation: Notation): set<Place> {
    var network := notation.network(item);
    if network.Some? then Places(network.value.v6, Interval(network.value.First(), network.value.Size()))
    else if IsRange(item) then Places(false, Addresses(Split(item, '.')))
    else {Host(item)}
  }

  function Count(item: string, notation: Notation): nat {
    if notation.network(item).Some? then notation.network(item).value.Size()
    else if IsRange(item) then Spans(Split(item, '.'))
    else 1
  }

  lemma {:induction false} PlacesCount(v6: bool, numbers: set<nat>)
    ensures |Places(v6, numbers)| == |numbers|
    decreases |numbers|
  {
    if numbers != {} {
      var x :| x in numbers;
      PlacesCount(v6, numbers - {x});
      assert Places(v6, numbers) == Places(v6, numbers - {x}) + {At(v6, x)};
    }
  }

  /** The count of an item is the number of places it stands for. */
  lemma CountIsExact(item: string, notation: Notation)
    ensures |Denoted(item, notation)| == Count(item, notation)
  {
    hide IsRange, Net.Size, Net.First;
    var network := notation.network(item);
    if network.Some? {
      PlacesCount(network.value.v6, Interval(network.value.First(), network.value.Size()));
    } else if IsRange(item) {
      RangeHasOctets(item);
      PlacesCount(false, Addresses(Split(item, '.')));
      SpansCountAddresses(Split(item, '.'));
    }
  }

  lemma RangeHasOctets(item: string)
    requires IsRange(item)
    ensures |Split(item, '.')| == 4 && forall i | 0 <= i < 4 :: OctetRange(Split(item, '.')[i])
  {
  }

  /** The loop over the octets of a range. */
  method RangeSize(octets: seq<string>) returns (total: nat)
    requires forall i | 0 <= i < |octets| :: OctetRange(octets[i])
    ensures total == Spans(octets)
  {
    total := 1;
    for i := 0 to |octets|
      invariant total == Spans(octets[..i])
    {
      SpansNext(octets, i);
      var bounds := Split(octets[i], '-');
      total := total * (Value(bounds[|bounds| - 1]) - Value(bounds[0]) + 1);
    }
    assert octets[..|octets|] == octets;
  }

  lemma SpansNext(octets: seq<string>, i: nat)
    requires i < |octets| && forall i | 0 <= i < |octets| :: OctetRange(octets[i])
    ensures Spans(octets[..i + 1]) == Spans(octets[..i]) * Span(octets[i])
  {
    assert octets[..i + 1][..i] == octets[..i];
  }

  /** `count_target_addresses` */
  method CountTargetAddresses(item: string, notation: Notation) returns (total: nat)
    ensures total == Count(item, notation)
    ensures total == |Denoted(item, notation)|
  {
    hide Denoted, IsRange, Spans, Split;
    CountIsExact(item, notation);
    if notation.network(item).Some? {
      return notation.network(item).value.Size();
    }
    if IsRange(item) {
      RangeHasOctets(item);
      total := RangeSize(Split(item, '.'));
      return;
    }
    return 1;
  }

  datatype Problem = EmptyTarget | WholeInternet | InvalidTarget(item: string) | OverBudget(total: nat)

  predicate Alphanumeric(c: char) {
    Digit(c) || 65 <= c as int <= 90 || 97 <= c as int <= 122
  }

  /** A label of 1 to 63 letters, digits and hyphens, with no hyphen at either end. */
  predicate HostLabel(text: string) {
    && 0 < |text| <= 63 && Alphanumeric(text[0]) && Alphanumeric(text[|text| - 1])
    && forall i | 0 <= i < |text| :: Alphanumeric(text[i]) || text[i] == '-'
  }

  predicate Hostname(item: string) {
    var labels := Split(item, '.');
    forall i | 0 <= i < |labels| :: HostLabel(labels[i])
  }

  predicate AddressLike(item: string) {
    item != "" && forall i | 0 <= i < |item| :: Digit(item[i]) || item[i] in "./-"
  }

  /** `_is_valid_item` */
  function CheckItem(item: string, notation: Notation): (problem: Option<Problem>)
    ensures problem.Some? ==> problem.value == WholeInternet || problem.value == InvalidTarget(item)
  {
    if notation.address(item) then None
    else if notation.network(item).Some? then
      if notation.network(item).value == Net(false, 0, 0) then Some(WholeInternet) else None
    else if IsRange(item) then None
    else if !AddressLike(item) && Hostname(item) then None
    else Some(InvalidTarget(item))
  }

  // ---------------------------------------------------------------- a request

  function Items(target: string): seq<string> {
    var parts := Split(Strip(target), ',');
    seq(|parts|, i requires 0 <= i < |parts| => Strip(parts[i]))
  }

  function Total(items: seq<string>, notation: Notation): nat {
    if items == [] then 0 else Total(items[..|items| - 1], notation) + Count(items[|items| - 1], notation)
  }

  lemma TotalNext(items: seq<string>, i: nat, notation: Notation)
    requires i <= |items|
    ensures i == 0 ==> Total(items[..i], notation) == 0
    ensures i < |items| ==> Total(items[..i + 1], notation) == Total(items[..i], notation) + Count(items[i], notation)
  {
    if i < |items| {
      assert items[..i + 1][..i] == items[..i];
    }
  }

  /** Every item is valid, and they count no more than the limit, where 0 is no limit. */
  predicate Accepted(target: string, limit: nat, notation: Notation) {
    var items := Items(target);
    && Strip(target) != ""
    && (forall i | 0 <= i < |items| :: CheckItem(items[i], notation).None?)
    && (limit == 0 || Total(items, notation) <= limit)
  }

  /** `validate_target` */
  method ValidateTarget(target: string, limit: nat, notation: Notation) returns (problem: Option<Problem>)
    ensures problem.None? <==> Accepted(target, limit, notation)
    ensures problem == Some(EmptyTarget) <==> Strip(target) == ""
    ensures problem.Some? && problem.value.OverBudget? ==>
      0 < limit < Total(Items(target), notation) == problem.value.total
    ensures problem.Some? && (problem.value.WholeInternet? || problem.value.InvalidTarget?) ==>
      exists i | 0 <= i < |Items(target)| :: CheckItem(Items(target)[i], notation) == problem
        && forall k | 0 <= k < i :: CheckItem(Items(target)[k], notation).None?
    ensures problem.Some? && problem.value.OverBudget? ==>
      forall k | 0 <= k < |Items(target)| :: CheckItem(Items(target)[k], notation).None?
  {
    hide CheckItem, Denoted, Count, Items, Strip, Total;
    TotalNext(Items(target), 0, notation);
    if Strip(target) == "" {
      return Some(EmptyTarget);
    }
    var items := Items(target);
    var total := 0;
    for i := 0 to |items|
      invariant total == Total(items[..i], notation)
      invariant forall k | 0 <= k < i :: CheckItem(items[k], notation).None?
    {
      var bad := CheckItem(items[i], notation);
      if bad.Some? {
        return bad;
      }
      var count := CountTargetAddresses(items[i], notation);
      TotalNext(items, i, notation);
      total := total + count;
    }
    assert items[..|items|] == items;
    if limit != 0 && total > limit {
      return Some(OverBudget(total));
    }
    return None;
  }

  ghost function AllDenoted(items: seq<string>, notation: Notation): set<Place> {
    if items == [] then {} else AllDenoted(items[..|items| - 1], notation) + Denoted(items[|items| - 1], notation)
  }

  lemma {:induction false} TotalBoundsDenoted(items: seq<string>, notation: Notation)
    ensures |AllDenoted(items, notation)| <= Total(items, notation)
    decreases |items|
  {
    if items != [] {
      var n := |items| - 1;
      TotalBoundsDenoted(items[..n], notation);
      CountIsExact(items[n], notation);
      hide Denoted, Count;
      var a, b := AllDenoted(items[..n], notation), Denoted(items[n], notation);
      assert |a + b| == |a| + |b| - |a * b|;
    }
  }

  lemma {:induction false} ItemsAreDenoted(items: seq<string>, notation: Notation, i: nat)
    requires i < |items|
    ensures Denoted(items[i], notation) <= AllDenoted(items, notation)
    decreases |items|
  {
    hide Denoted;
    if i < |items| - 1 {
      ItemsAreDenoted(items[..|items| - 1], notation, i);
    }
  }

  /** An accepted request stands for at most `limit` distinct targets. */
  lemma AcceptedFitsBudget(target: string, limit: nat, notation: Notation)
    requires limit > 0 && Accepted(target, limit, notation)
    ensures |AllDenoted(Items(target), notation)| <= limit
  {
    TotalBoundsDenoted(Items(target), notation);
  }

  /** All of IPv4, as places. */
  ghost function Internet(): set<Place> {
    Places(false, Interval(0, 0x1_0000_0000))
  }

  lemma InternetCount()
    ensures |Internet()| == 0x1_0000_0000
  {
    hide Interval;
    PlacesCount(false, Interval(0, 0x1_0000_0000));
  }

  /**
   No item of an accepted request stands for all of IPv4, whichever way it is written, while the limit is
   below 2^32; and as a network, which `0.0.0.0/0` is, it is refused under any limit.
   */
  lemma AcceptedIsNotInternet(target: string, limit: nat, notation: Notation, i: nat)
    requires Accepted(target, limit, notation) && i < |Items(target)|
    ensures 0 < limit < 0x1_0000_0000 ==> !(Internet() <= Denoted(Items(target)[i], notation))
    ensures !notation.address(Items(target)[i]) ==> notation.network(Items(target)[i]) != Some(Net(false, 0, 0))
  {
    hide Denoted, Items, Internet, AllDenoted, Total;
    if 0 < limit < 0x1_0000_0000 && Internet() <= Denoted(Items(target)[i], notation) {
      AcceptedFitsBudget(target, limit, notation);
      ItemsAreDenoted(Items(target), notation, i);
      InternetCount();
      SubsetIsSmaller(Internet(), AllDenoted(Items(target), notation));
    }
  }
}
