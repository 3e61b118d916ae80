/**
 What a report scan does when a scan times out: split the network in two, scan the halves, and so on
 down to four levels. Scans and cancellation are inputs, one answer for each output name.
 */
module Fallback {
  import opened Decimals
  import opened Wrappers
  import opened Networks

  datatype Outcome = Success | Timeout | Failure

  /** For each output name: is the report cancelled when its scan is about to start, and how the scan ends. */
  datatype Scanner = Scanner(cancelled: string -> bool, outcome: string -> Outcome)

  /** A network whose scan succeeded, and the name of its XML file. */
  datatype Scan = Scan(net: Net, name: string)

  predicate Splits(net: Net) {
    net.prefix < if net.v6 then 126 else 30
  }

  /** `_split_cidr_once` on a network. */
  function SplitOnce(net: Net): (halves: Option<seq<Net>>)
    requires net.Valid()
    ensures halves.Some? <==> Splits(net)
    ensures halves.Some? ==> |halves.value| == 2 && halves.value[0].Valid() && halves.value[1].Valid()
  {
    if Splits(net) then
      assert Pow2(1) == 2;
      Some(Parts(net, 1, 2))
    else None
  }

  lemma HalvesTile(net: Net)
    requires net.Valid() && Splits(net)
    ensures
      var h := SplitOnce(net).value;
      h[0].First() == net.First() && h[0].End() == h[1].First() && h[1].End() == net.End()
  {
    assert Pow2(1) == 2;
    hide Pow2, Net.First, Net.End;
    var h := SplitOnce(net).value;
    assert h == [h[0], h[1]];
    AllPartsTile(net, 1);
    TwoTiles(h[0], h[1], net.First(), net.End());
  }

  /** IPv4 networks are split down to /30, IPv6 networks to /126, always into two halves of the same size. */
  lemma SplitMeans(net: Net)
    requires net.Valid()
    ensures SplitOnce(net).Some? <==> if net.v6 then net.prefix < 126 else net.prefix < 30
    ensures SplitOnce(net).Some? ==>
      var h := SplitOnce(net).value;
      && h[0].v6 == h[1].v6 == net.v6 && h[0].prefix == h[1].prefix == net.prefix + 1
      && 2 * h[0].Size() == 2 * h[1].Size() == net.Size()
  {
    if SplitOnce(net).Some? {
      assert Pow2(1) == 2;
      PartPlace(net, 1, 0);
      PartPlace(net, 1, 1);
    }
  }

  lemma TwoTiles(a: Net, b: Net, lo: nat, hi: nat)
    requires Tiles([a, b], lo, hi)
    ensures a.Valid() && b.Valid() && a.First() == lo && a.End() == b.First() && b.End() == hi
  {
    assert [a, b][1..] == [b] && [b][1..] == [];
    assert Tiles([b], a.End(), hi);
    assert Tiles([], b.End(), hi);
  }

  // ---------------------------------------------------------------- scanning the halves

  function SubName(base: string, depth: nat, i: nat): string {
    base + "_sub_" + Decimal(depth) + "_" + Decimal(i)
  }

  /** One half: scanned, or split further when its scan times out above the depth limit. */
  function ScanHalf(net: Net, name: string, depth: nat, maxDepth: nat, scanner: Scanner): (scans: Option<seq<Scan>>)
    requires net.Valid() && depth <= maxDepth
    decreases maxDepth - depth, 0
  {
    if scanner.cancelled(name) then None
    else match scanner.outcome(name)
      case Success => Some([Scan(net, name)])
      case Timeout => if depth < maxDepth then ScanHalves(net, name, depth + 1, maxDepth, scanner) else None
      case Failure => None
  }

  /** `_scan_subnets_with_fallback`: both halves in order, or nothing. */
  function ScanHalves(parent: Net, base: string, depth: nat, maxDepth: nat, scanner: Scanner): (scans: Option<seq<Scan>>)
    requires parent.Valid() && depth <= maxDepth
    decreases maxDepth - depth, 1
  {
    if !Splits(parent) then None
    else
      var h := SplitOnce(parent).value;
      var first := ScanHalf(h[0], SubName(base, depth, 1), depth, maxDepth, scanner);
      var second := ScanHalf(h[1], SubName(base, depth, 2), depth, maxDepth, scanner);
      if first.Some? && second.Some? then Some(first.value + second.value) else None
  }

  lemma BothHalves(parent: Net, base: string, depth: nat, maxDepth: nat, scanner: Scanner)
    requires parent.Valid() && depth <= maxDepth && Splits(parent)
    ensures
      var h := SplitOnce(parent).value;
      var first := ScanHalf(h[0], SubName(base, depth, 1), depth, maxDepth, scanner);
      var second := ScanHalf(h[1], SubName(base, depth, 2), depth, maxDepth, scanner);
      ScanHalves(parent, base, depth, maxDepth, scanner) ==
        if first.Some? && second.Some? then Some(first.value + second.value) else None
  {
  }

  method ScanSubnetsWithFallback(parent: Net, base: string, depth: nat, maxDepth: nat, scanner: Scanner)
    returns (scans: Option<seq<Scan>>)
    requires parent.Valid() && depth <= maxDepth
    ensures scans == ScanHalves(parent, base, depth, maxDepth, scanner)
    decreases maxDepth - depth
  {
    var subnets := SplitOnce(parent);
    if subnets.None? {
      return None;
    }
    var xml: seq<Scan> := [];
    for i := 0 to |subnets.value|
      invariant i == 0 ==> xml == []
      invariant i == 1 ==>
        ScanHalf(subnets.value[0], SubName(base, depth, 1), depth, maxDepth, scanner) == Some(xml)
      invariant i == 2 ==> ScanHalves(parent, base, depth, maxDepth, scanner) == Some(xml)
    {
      var subnet, output := subnets.value[i], SubName(base, depth, i + 1);
      ghost var half := ScanHalf(subnet, output, depth, maxDepth, scanner);
      BothHalves(parent, base, depth, maxDepth, scanner);
      assert half.Some? ==> half.value == [] + half.value;
      if scanner.cancelled(output) {
        return None;
      }
      var result := scanner.outcome(output);
      if result.Success? {
        xml := xml + [Scan(subnet, output)];
        continue;
      }
      if result.Timeout? && depth < maxDepth {
        var nested := ScanSubnetsWithFallback(subnet, output, depth + 1, maxDepth, scanner);
        if nested.None? || nested.value == [] {
          NestedIsNotEmpty(subnet, output, depth + 1, maxDepth, scanner);
          return None;
        }
        xml := xml + nested.value;
        continue;
      }
      return None;
    }
    scans := Some(xml);
  }

  lemma {:induction false} NestedIsNotEmpty(parent: Net, base: string, depth: nat, maxDepth: nat, scanner: Scanner)
    requires parent.Valid() && depth <= maxDepth
    ensures
      var scans := ScanHalves(parent, base, depth, maxDepth, scanner);
      scans.Some? ==> 2 <= |scans.value|
    decreases maxDepth - depth
  {
    if ScanHalves(parent, base, depth, maxDepth, scanner).Some? && depth < maxDepth {
      var h := SplitOnce(parent).value;
      NestedIsNotEmpty(h[0], SubName(base, depth, 1), depth + 1, maxDepth, scanner);
      NestedIsNotEmpty(h[1], SubName(base, depth, 2), depth + 1, maxDepth, scanner);
    }
  }

  /** Two halves whose scans succeed: their files are named after the parent's, the depth, and first or second. */
  lemma HalvesAreNamed(parent: Net, base: string, depth: nat, maxDepth: nat, scanner: Scanner)
    requires parent.Valid() && depth <= maxDepth && Splits(parent)
    ensures
      var first, second := base + "_sub_" + Decimal(depth) + "_1", base + "_sub_" + Decimal(depth) + "_2";
      var h := SplitOnce(parent).value;
      !scanner.cancelled(first) && !scanner.cancelled(second)
      && scanner.outcome(first) == Success && scanner.outcome(second) == Success ==>
        ScanHalves(parent, base, depth, maxDepth, scanner) == Some([Scan(h[0], first), Scan(h[1], second)])
  {
    assert Decimal(1) == "1" && Decimal(2) == "2";
    assert SubName(base, depth, 1) == base + "_sub_" + Decimal(depth) + "_1";
    assert SubName(base, depth, 2) == base + "_sub_" + Decimal(depth) + "_2";
    hide SubName;
    BothHalves(parent, base, depth, maxDepth, scanner);
    var h := SplitOnce(parent).value;
    var a, b := Scan(h[0], SubName(base, depth, 1)), Scan(h[1], SubName(base, depth, 2));
    assert [a] + [b] == [a, b];
  }

  // ---------------------------------------------------------------- what a completed fallback has scanned

  function Nets(scans: seq<Scan>): (nets: seq<Net>)
    ensures |nets| == |scans| && forall i | 0 <= i < |nets| :: nets[i] == scans[i].net
  {
    seq(|scans|, i requires 0 <= i < |scans| => scans[i].net)
  }

  /** The name is `base` itself, or `base` and a suffix that starts a new part. */
  predicate Under(base: string, name: string) {
    base <= name && (|name| > |base| ==> name[|base|] == '_')
  }

  /** Each scan succeeded under a name of its own below `base`. */
  ghost predicate Sound(scans: seq<Scan>, base: string, scanner: Scanner) {
    && (forall i | 0 <= i < |scans| :: Under(base, scans[i].name))
    && (forall i | 0 <= i < |scans| :: scanner.outcome(scans[i].name).Success?)
    && (forall i, j | 0 <= i < j < |scans| :: scans[i].name != scans[j].name)
  }

  lemma SubNames(base: string, depth: nat, i: nat)
    ensures Under(base, SubName(base, depth, i))
    ensures forall name :: Under(SubName(base, depth, i), name) ==> Under(base, name)
  {
    var sub := SubName(base, depth, i);
    assert sub == base + ("_sub_" + Decimal(depth) + "_" + Decimal(i));
    assert sub[|base|] == '_';
    forall name | Under(sub, name)
      ensures Under(base, name)
    {
      assert base == sub[..|base|] == name[..|base|];
    }
  }

  lemma SiblingNamesDiffer(base: string, depth: nat, x: string, y: string)
    requires SubName(base, depth, 1) <= x && SubName(base, depth, 2) <= y
    ensures x != y
  {
    assert Decimal(1) == "1" && Decimal(2) == "2";
    var front := base + "_sub_" + Decimal(depth) + "_";
    assert x[|front|] == '1' && y[|front|] == '2';
  }

  lemma JoinHalves(first: seq<Scan>, second: seq<Scan>, base: string, depth: nat, scanner: Scanner)
    requires Sound(first, SubName(base, depth, 1), scanner) && Sound(second, SubName(base, depth, 2), scanner)
    ensures Sound(first + second, base, scanner)
  {
    hide SubName;
    SubNames(base, depth, 1);
    SubNames(base, depth, 2);
    var all := first + second;
    forall i, j | 0 <= i < j < |all|
      ensures all[i].name != all[j].name
    {
      if i < |first| && j >= |first| {
        SiblingNamesDiffer(base, depth, all[i].name, all[j].name);
      }
    }
  }

  /** What every completed fallback gives: its scans partition the parent, are few, and share no file. */
  ghost predicate Complete(scans: seq<Scan>, net: Net, base: string, levels: nat, scanner: Scanner)
    requires net.Valid()
  {
    Tiles(Nets(scans), net.First(), net.End()) && 1 <= |scans| <= Pow2(levels) && Sound(scans, base, scanner)
  }

  lemma {:induction false} HalfCompletes(net: Net, name: string, depth: nat, maxDepth: nat, scanner: Scanner)
    requires net.Valid() && depth <= maxDepth
    ensures
      var scans := ScanHalf(net, name, depth, maxDepth, scanner);
      scans.Some? ==> Complete(scans.value, net, name, maxDepth - depth, scanner)
    decreases maxDepth - depth, 0
  {
    if ScanHalf(net, name, depth, maxDepth, scanner).Some? {
      if scanner.outcome(name).Success? {
        assert Nets([Scan(net, name)]) == [net];
        assert Tiles([net], net.First(), net.End()) by { assert Tiles([], net.End(), net.End()); }
      } else {
        FallbackCompletes(net, name, depth + 1, maxDepth, scanner);
      }
    }
  }

  /**
   When the fallback returns a list, its scans partition exactly the parent network, in order; there are
   at most 16 from depth 1 to 4; each succeeded, and no two share an output name.
   */
  lemma {:induction false} FallbackCompletes(parent: Net, base: string, depth: nat, maxDepth: nat, scanner: Scanner)
    requires parent.Valid() && depth <= maxDepth
    ensures
      var scans := ScanHalves(parent, base, depth, maxDepth, scanner);
      scans.Some? ==> Complete(scans.value, parent, base, maxDepth - depth + 1, scanner)
    decreases maxDepth - depth, 1
  {
    if ScanHalves(parent, base, depth, maxDepth, scanner).Some? {
      hide Complete, Tiles, Sound, SubName;
      var h := SplitOnce(parent).value;
      HalfCompletes(h[0], SubName(base, depth, 1), depth, maxDepth, scanner);
      HalfCompletes(h[1], SubName(base, depth, 2), depth, maxDepth, scanner);
      HalvesTile(parent);
      BothHalves(parent, base, depth, maxDepth, scanner);
      var first := ScanHalf(h[0], SubName(base, depth, 1), depth, maxDepth, scanner).value;
      var second := ScanHalf(h[1], SubName(base, depth, 2), depth, maxDepth, scanner).value;
      JoinComplete(first, second, h[0], h[1], parent, base, depth, maxDepth - depth, scanner);
    }
  }

  lemma JoinComplete(first: seq<Scan>, second: seq<Scan>, a: Net, b: Net, parent: Net, base: string, depth: nat,
                     levels: nat, scanner: Scanner)
    requires a.Valid() && b.Valid() && parent.Valid()
    requires a.First() == parent.First() && a.End() == b.First() && b.End() == parent.End()
    requires Complete(first, a, SubName(base, depth, 1), levels, scanner)
    requires Complete(second, b, SubName(base, depth, 2), levels, scanner)
    ensures Complete(first + second, parent, base, levels + 1, scanner)
  {
    hide Tiles, Sound, SubName, Net.First, Net.End;
    assert Nets(first + second) == Nets(first) + Nets(second);
    TilesJoin(Nets(first), Nets(second), parent.First(), a.End(), parent.End());
    JoinHalves(first, second, base, depth, scanner);
  }

  /** The subnet reached by the turns `path` (false: the first half) is scanned, and stops the fallback. */
  ghost predicate Stops(net: Net, name: string, depth: nat, maxDepth: nat, scanner: Scanner, path: seq<bool>)
    requires net.Valid() && depth <= maxDepth
    decreases |path|
  {
    if path == [] then
      || scanner.cancelled(name) || scanner.outcome(name).Failure?
      || (scanner.outcome(name).Timeout? && (depth == maxDepth || !Splits(net)))
    else
      && !scanner.cancelled(name) && scanner.outcome(name).Timeout? && depth < maxDepth && Splits(net)
      && var i := if path[0] then 1 else 0;
         Stops(SplitOnce(net).value[i], SubName(name, depth + 1, i + 1), depth + 1, maxDepth, scanner, path[1..])
  }

  ghost predicate StopsSomewhere(net: Net, name: string, depth: nat, maxDepth: nat, scanner: Scanner)
    requires net.Valid() && depth <= maxDepth
  {
    exists path :: Stops(net, name, depth, maxDepth, scanner, path)
  }

  lemma {:induction false} StopFails(net: Net, name: string, depth: nat, maxDepth: nat, scanner: Scanner, path: seq<bool>)
    requires net.Valid() && depth <= maxDepth && Stops(net, name, depth, maxDepth, scanner, path)
    ensures ScanHalf(net, name, depth, maxDepth, scanner).None?
    decreases |path|
  {
    if path != [] {
      var i := if path[0] then 1 else 0;
      StopFails(SplitOnce(net).value[i], SubName(name, depth + 1, i + 1), depth + 1, maxDepth, scanner, path[1..]);
      BothHalves(net, name, depth + 1, maxDepth, scanner);
    }
  }

  lemma {:induction false} FailureStops(net: Net, name: string, depth: nat, maxDepth: nat, scanner: Scanner)
    returns (path: seq<bool>)
    requires net.Valid() && depth <= maxDepth && ScanHalf(net, name, depth, maxDepth, scanner).None?
    ensures Stops(net, name, depth, maxDepth, scanner, path)
    decreases maxDepth - depth
  {
    path := [];
    if !scanner.cancelled(name) && scanner.outcome(name).Timeout? && depth < maxDepth && Splits(net) {
      BothHalves(net, name, depth + 1, maxDepth, scanner);
      var h := SplitOnce(net).value;
      var turn := ScanHalf(h[0], SubName(name, depth + 1, 1), depth + 1, maxDepth, scanner).Some?;
      var i := if turn then 1 else 0;
      path := FailureStops(h[i], SubName(name, depth + 1, i + 1), depth + 1, maxDepth, scanner);
      StopsBelow(net, name, depth, maxDepth, scanner, turn, path);
      path := [turn] + path;
    }
  }

  /**
   The fallback gives up exactly when the network has no halves, or some subnet it reaches was cancelled,
   failed, or timed out with no further split.
   */
  lemma FallbackFailsIff(parent: Net, base: string, depth: nat, maxDepth: nat, scanner: Scanner)
    requires parent.Valid() && depth <= maxDepth
    ensures ScanHalves(parent, base, depth, maxDepth, scanner).None? <==>
      || !Splits(parent)
      || StopsSomewhere(SplitOnce(parent).value[0], SubName(base, depth, 1), depth, maxDepth, scanner)
      || StopsSomewhere(SplitOnce(parent).value[1], SubName(base, depth, 2), depth, maxDepth, scanner)
  {
    if Splits(parent) {
      var h := SplitOnce(parent).value;
      BothHalves(parent, base, depth, maxDepth, scanner);
      hide ScanHalf, ScanHalves, StopsSomewhere, SubName;
      HalfFailsIff(h[0], SubName(base, depth, 1), depth, maxDepth, scanner);
      HalfFailsIff(h[1], SubName(base, depth, 2), depth, maxDepth, scanner);
    }
  }

  lemma HalfFailsIff(net: Net, name: string, depth: nat, maxDepth: nat, scanner: Scanner)
    requires net.Valid() && depth <= maxDepth
    ensures ScanHalf(net, name, depth, maxDepth, scanner).None? <==> StopsSomewhere(net, name, depth, maxDepth, scanner)
  {
    hide Stops, ScanHalf;
    if ScanHalf(net, name, depth, maxDepth, scanner).None? {
      var path := FailureStops(net, name, depth, maxDepth, scanner);
    }
    if path :| Stops(net, name, depth, maxDepth, scanner, path) {
      StopFails(net, name, depth, maxDepth, scanner, path);
    }
  }

  lemma StopsBelow(net: Net, name: string, depth: nat, maxDepth: nat, scanner: Scanner, turn: bool, path: seq<bool>)
    requires net.Valid() && depth < maxDepth && Splits(net)
    requires !scanner.cancelled(name) && scanner.outcome(name).Timeout?
    requires
      var i := if turn then 1 else 0;
      Stops(SplitOnce(net).value[i], SubName(name, depth + 1, i + 1), depth + 1, maxDepth, scanner, path)
    ensures Stops(net, name, depth, maxDepth, scanner, [turn] + path)
  {
    assert ([turn] + path)[1..] == path;
  }
}
