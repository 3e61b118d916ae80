/**
 Planning a report scan and running the plan: which subnets are scanned, under which output names, and
 which addresses of the requested network they cover.
 */
module ReportPlan {
  import opened Decimals
  import opened Wrappers
  import opened Networks
  import opened Fallback

  /** The target as it was given, or a subnet of it. */
  datatype Target = Original | Chunk(net: Net)

  const CHUNK_PREFIX: nat := 29
  const MAX_CHUNKS: nat := 2048
  const MAX_DEPTH: nat := 4

  function AsChunks(nets: seq<Net>): (targets: seq<Target>)
    ensures |targets| == |nets| && forall i | 0 <= i < |nets| :: targets[i] == Chunk(nets[i])
  {
    seq(|nets|, i requires 0 <= i < |nets| => Chunk(nets[i]))
  }

  /** How many /29 chunks of a network are kept. */
  function ChunkCount(net: Net): nat
    requires net.Valid() && net.prefix <= CHUNK_PREFIX
  {
    Min(Pow2(CHUNK_PREFIX - net.prefix), MAX_CHUNKS)
  }

  predicate Chunked(net: Net)
    requires net.Valid()
  {
    net.Size() > 8 && net.prefix <= CHUNK_PREFIX
  }

  /** The chunks of a network; a target that is no network, or has no longer prefix, stays whole. */
  function Chunks(net: Option<Net>): seq<Target>
    requires net.Some? ==> net.value.Valid()
  {
    if net.None? || !Chunked(net.value) then [Original]
    else AsChunks(Parts(net.value, CHUNK_PREFIX - net.value.prefix, ChunkCount(net.value)))
  }

  method SplitSubnetIntoChunks(net: Option<Net>) returns (chunks: seq<Target>)
    requires net.Some? ==> net.value.Valid()
    ensures chunks == Chunks(net)
  {
    if net.None? || net.value.Size() <= 8 {
      return [Original];
    }
    if net.value.prefix > CHUNK_PREFIX {
      return [Original];  // `subnets` raises a ValueError
    }
    hide Pow2, Net.Size;
    var extra := CHUNK_PREFIX - net.value.prefix;
    chunks := [];
    var i := 0;
    while i < Pow2(extra)
      invariant i <= ChunkCount(net.value) && |chunks| == i
      invariant forall k | 0 <= k < i :: chunks[k] == Chunk(net.value.Part(extra, k))
      invariant i < MAX_CHUNKS
      decreases Pow2(extra) - i
    {
      chunks := chunks + [Chunk(net.value.Part(extra, i))];
      i := i + 1;
      if |chunks| >= MAX_CHUNKS {
        break;
      }
    }
    assert i == ChunkCount(net.value);
  }

  /** `_plan_report_scan_targets`: the targets, and whether the scan is chunked. */
  function PlanTargets(net: Option<Net>, chunked: bool): (seq<Target>, bool)
    requires net.Some? ==> net.value.Valid()
  {
    if net.None? || net.value.Size() <= 1 then ([Original], chunked)
    else if !chunked && !net.value.v6 && net.value.prefix < 24
    then (AsChunks(Parts(net.value, 24 - net.value.prefix, Pow2(24 - net.value.prefix))), true)
    else (if chunked then Chunks(net) else [Original], chunked)
  }

  // ---------------------------------------------------------------- what a plan covers

  /** The networks a plan for `net` stands for. */
  function Planned(targets: seq<Target>, net: Net): (nets: seq<Net>)
    ensures |nets| == |targets|
    ensures forall i | 0 <= i < |nets| :: nets[i] == if targets[i].Chunk? then targets[i].net else net
  {
    seq(|targets|, i requires 0 <= i < |targets| => if targets[i].Chunk? then targets[i].net else net)
  }

  /** How many addresses, from the first one on, the chunks of a network hold. */
  function ChunksHold(net: Net): nat
    requires net.Valid()
  {
    if Chunked(net) then ChunkCount(net) * Pow2(Bits(net.v6) - CHUNK_PREFIX) else net.Size()
  }

  lemma WholeTiles(net: Net)
    requires net.Valid()
    ensures Planned([Original], net) == [net] && Tiles([net], net.First(), net.First() + net.Size())
  {
    assert Tiles([], net.End(), net.End());
  }

  /** The chunks follow each other, without gap or overlap, from the network's first address. */
  lemma ChunksTile(net: Net)
    requires net.Valid()
    ensures Tiles(Planned(Chunks(Some(net)), net), net.First(), net.First() + ChunksHold(net))
  {
    hide Pow2, Net.First, Net.Size, Tiles, ChunkCount;
    WholeTiles(net);
    if Chunked(net) {
      var extra := CHUNK_PREFIX - net.prefix;
      CountIsPower(net);
      var parts := Parts(net, extra, ChunkCount(net));
      assert Planned(AsChunks(parts), net) == parts;
      PartsTile(net, extra, ChunkCount(net));
    }
  }

  lemma CountIsPower(net: Net)
    requires net.Valid() && net.prefix <= CHUNK_PREFIX
    ensures ChunkCount(net) <= Pow2(CHUNK_PREFIX - net.prefix)
  {
  }

  lemma SizeIsChunks(net: Net)
    requires net.Valid() && net.prefix <= CHUNK_PREFIX
    ensures net.Size() == Pow2(CHUNK_PREFIX - net.prefix) * Pow2(Bits(net.v6) - CHUNK_PREFIX)
  {
    hide Pow2;
    Pow2Sum(CHUNK_PREFIX - net.prefix, Bits(net.v6) - CHUNK_PREFIX);
  }

  /** On IPv4 the chunks hold exactly the first 16384 addresses, or the whole network when it is smaller. */
  lemma ChunksHoldFirstAddresses(net: Net)
    requires net.Valid() && !net.v6 && net.Size() > 8
    ensures ChunksHold(net) == Min(net.Size(), 16384)
  {
    SmallPowers();
    hide Pow2;
    if net.prefix > CHUNK_PREFIX {
      Pow2Grows(Bits(false) - net.prefix, 3);
    } else {
      SizeIsChunks(net);
    }
  }

  lemma SmallPowers()
    ensures Pow2(3) == 8 && Pow2(4) == 16 && Pow2(11) == 2048
  {
    assert Pow2(8) == 256;
  }

  lemma ShortPrefixIsCut(net: Net)
    requires net.Valid() && net.prefix < 18
    ensures Chunked(net) && Pow2(CHUNK_PREFIX - net.prefix) > MAX_CHUNKS
  {
    SmallPowers();
    PowerOfOne();
    Pow2Sum(1, 11);
    Pow2Sum(1, 3);
    hide Pow2;
    Pow2Grows(12, CHUNK_PREFIX - net.prefix);
    Pow2Grows(4, Bits(net.v6) - net.prefix);
  }

  lemma FewerIsLess(few: nat, many: nat, unit: nat)
    requires few < many && unit > 0
    ensures few * unit < many * unit
  {
    assert (many - few) * unit > 0;
  }

  /** The chunks hold the whole network exactly when its prefix is 18 or longer. */
  lemma ChunksHoldAllIff(net: Net)
    requires net.Valid()
    ensures ChunksHold(net) == net.Size() <==> net.prefix >= 18
  {
    if net.prefix < 18 {
      ShortPrefixIsCut(net);
      SizeIsChunks(net);
      hide Pow2;
      FewerIsLess(MAX_CHUNKS, Pow2(CHUNK_PREFIX - net.prefix), Pow2(Bits(net.v6) - CHUNK_PREFIX));
    } else if net.prefix <= CHUNK_PREFIX {
      SmallPowers();
      SizeIsChunks(net);
      hide Pow2;
      Pow2Grows(CHUNK_PREFIX - net.prefix, 11);
    }
  }

  lemma PowerOfOne()
    ensures Pow2(0) == 1 && Pow2(1) == 2
  {
  }

  function PlanHolds(net: Net, chunked: bool): nat
    requires net.Valid()
  {
    if chunked then ChunksHold(net) else net.Size()
  }

  /** A plan covers its network from the first address on, each address once. */
  lemma PlanTiles(net: Net, chunked: bool)
    requires net.Valid()
    ensures
      var nets := Planned(PlanTargets(Some(net), chunked).0, net);
      Tiles(nets, net.First(), net.First() + PlanHolds(net, chunked)) && nets != []
  {
    WholeTiles(net);
    ChunksTile(net);
    if !chunked && !net.v6 && net.prefix < 24 && net.Size() > 1 {
      hide Net.First, Net.Size, Tiles, Net.End, Pow2;
      var parts := Parts(net, 24 - net.prefix, Pow2(24 - net.prefix));
      assert Planned(AsChunks(parts), net) == parts;
      AllPartsTile(net, 24 - net.prefix);
      EndIs(net);
    } else if chunked && net.Size() <= 1 {
      PowerOfOne();
      assert !Chunked(net);
    }
  }

  lemma EndIs(net: Net)
    requires net.Valid()
    ensures net.End() == net.First() + net.Size()
  {
  }

  /** A plan covers all of its network exactly when it is not chunked, or the prefix is 18 or longer. */
  lemma PlanCoversAllIff(net: Net, chunked: bool)
    requires net.Valid()
    ensures PlanHolds(net, chunked) == net.Size() <==> !chunked || net.prefix >= 18
  {
    ChunksHoldAllIff(net);
  }

  // ---------------------------------------------------------------- scanning the plan

  function OutputBase(count: nat, i: nat): string {
    if count == 1 then "scan" else "scan_chunk_" + Decimal(i)
  }

  /** One planned network: its scan, or the fallback's scans when it timed out. */
  function TargetScans(net: Net, name: string, scanner: Scanner): Option<seq<Scan>>
    requires net.Valid()
  {
    match scanner.outcome(name)
    case Success => Some([Scan(net, name)])
    case Timeout => ScanHalves(net, name, 1, MAX_DEPTH, scanner)
    case Failure => None
  }

  function ReportScans(nets: seq<Net>, n: nat, scanner: Scanner): Option<seq<Scan>>
    requires n <= |nets| && forall i | 0 <= i < |nets| :: nets[i].Valid()
  {
    if n == 0 then Some([])
    else
      var before := ReportScans(nets, n - 1, scanner);
      var here := TargetScans(nets[n - 1], OutputBase(|nets|, n - 1), scanner);
      if before.Some? && here.Some? then Some(before.value + here.value) else None
  }

  lemma {:induction false} ReportFails(nets: seq<Net>, n: nat, i: nat, scanner: Scanner)
    requires i < n <= |nets| && forall i | 0 <= i < |nets| :: nets[i].Valid()
    requires TargetScans(nets[i], OutputBase(|nets|, i), scanner).None?
    ensures ReportScans(nets, n, scanner).None?
  {
    hide TargetScans, OutputBase;
    if i < n - 1 {
      ReportFails(nets, n - 1, i, scanner);
    }
  }

  /** One pass of the scanning loop: a scan, and the fallback when it timed out. */
  method ScanTarget(net: Net, name: string, scanner: Scanner) returns (scans: Option<seq<Scan>>)
    requires net.Valid()
    ensures scans == TargetScans(net, name, scanner)
  {
    hide ScanHalves;
    var result := scanner.outcome(name);
    if !result.Success? {
      if result.Timeout? {
        NestedIsNotEmpty(net, name, 1, MAX_DEPTH, scanner);
        var fallback := ScanSubnetsWithFallback(net, name, 1, MAX_DEPTH, scanner);
        if fallback.Some? && fallback.value != [] {
          return fallback;
        }
      }
      return None;
    }
    scans := Some([Scan(net, name)]);
  }

  /** The scanning loop of a report: the XML files of all targets, or failure. */
  method ScanTargets(nets: seq<Net>, scanner: Scanner) returns (scans: Option<seq<Scan>>)
    requires forall i | 0 <= i < |nets| :: nets[i].Valid()
    ensures scans == ReportScans(nets, |nets|, scanner)
  {
    hide ReportScans, TargetScans, OutputBase, Net.Valid;
    var xml: seq<Scan> := [];
    NoTargets(nets, scanner);
    for i := 0 to |nets|
      invariant ReportScans(nets, i, scanner) == Some(xml)
    {
      var here := ScanTarget(nets[i], OutputBase(|nets|, i), scanner);
      if here.None? {
        ReportFails(nets, |nets|, i, scanner);
        return None;
      }
      NextTarget(nets, i, scanner);
      xml := xml + here.value;
    }
    scans := Some(xml);
  }

  lemma NoTargets(nets: seq<Net>, scanner: Scanner)
    requires forall i | 0 <= i < |nets| :: nets[i].Valid()
    ensures ReportScans(nets, 0, scanner) == Some([])
  {
  }

  lemma NextTarget(nets: seq<Net>, i: nat, scanner: Scanner)
    requires i < |nets| && forall i | 0 <= i < |nets| :: nets[i].Valid()
    requires ReportScans(nets, i, scanner).Some? && TargetScans(nets[i], OutputBase(|nets|, i), scanner).Some?
    ensures
      var here := TargetScans(nets[i], OutputBase(|nets|, i), scanner);
      ReportScans(nets, i + 1, scanner) == Some(ReportScans(nets, i, scanner).value + here.value)
  {
  }

  lemma TargetCompletes(net: Net, name: string, scanner: Scanner)
    requires net.Valid()
    ensures
      var scans := TargetScans(net, name, scanner);
      scans.Some? ==> Complete(scans.value, net, name, MAX_DEPTH, scanner)
  {
    if scanner.outcome(name).Success? {
      assert Nets([Scan(net, name)]) == [net];
      assert Tiles([net], net.First(), net.End()) by { assert Tiles([], net.End(), net.End()); }
    } else if scanner.outcome(name).Timeout? {
      FallbackCompletes(net, name, 1, MAX_DEPTH, scanner);
    }
  }

  /** Names under the bases of different targets differ. */
  lemma TargetNamesDiffer(count: nat, i: nat, x: string, j: nat, y: string)
    requires count != 1 && i != j
    requires Under(OutputBase(count, i), x) && Under(OutputBase(count, j), y)
    ensures x != y
  {
    if x == y {
      var a, b, front := OutputBase(count, i), OutputBase(count, j), |"scan_chunk_"|;
      assert a[front..] == Decimal(i) && b[front..] == Decimal(j);
      assert x[front..] == Decimal(i) + x[|a|..] && y[front..] == Decimal(j) + y[|b|..];
      DecimalPrefix(i, x[|a|..], j, y[|b|..]);
    }
  }

  /** Each scan succeeded, for one of the first `n` targets, under a name no other scan has. */
  ghost predicate ReportSound(scans: seq<Scan>, count: nat, n: nat, scanner: Scanner) {
    && (forall k | 0 <= k < |scans| :: exists i: nat :: i < n && Under(OutputBase(count, i), scans[k].name))
    && (forall k | 0 <= k < |scans| :: scanner.outcome(scans[k].name).Success?)
    && (forall k, l | 0 <= k < l < |scans| :: scans[k].name != scans[l].name)
  }

  lemma ReportStaysSound(scans: seq<Scan>, more: seq<Scan>, count: nat, n: nat, scanner: Scanner)
    requires n < count && ReportSound(scans, count, n, scanner) && Sound(more, OutputBase(count, n), scanner)
    ensures ReportSound(scans + more, count, n + 1, scanner)
  {
    var all := scans + more;
    forall k, l | 0 <= k < l < |all|
      ensures all[k].name != all[l].name
    {
      if k < |scans| && l >= |scans| {
        var i: nat :| i < n && Under(OutputBase(count, i), scans[k].name);
        TargetNamesDiffer(count, i, all[k].name, n, all[l].name);
      }
    }
  }

  lemma {:induction false} TilesAt(nets: seq<Net>, lo: nat, hi: nat, i: nat)
    requires Tiles(nets, lo, hi) && i < |nets|
    ensures nets[i].Valid() && nets[0].First() == lo
    ensures if i + 1 < |nets| then nets[i + 1].Valid() && nets[i].End() == nets[i + 1].First() else nets[i].End() == hi
  {
    if i > 0 {
      TilesAt(nets[1..], nets[0].End(), hi, i - 1);
    } else if |nets| == 1 {
      assert nets[1..] == [];
    } else {
      assert nets[1..][0] == nets[1];
    }
  }

  /** What the first `n` targets' scans are, when those targets end at `end`. */
  ghost predicate ReportComplete(scans: seq<Scan>, lo: nat, end: nat, count: nat, n: nat, scanner: Scanner) {
    Tiles(Nets(scans), lo, end) && ReportSound(scans, count, n, scanner) && |scans| <= 16 * n
  }

  lemma ReportStaysComplete(scans: seq<Scan>, more: seq<Scan>, net: Net, lo: nat, count: nat, n: nat, scanner: Scanner)
    requires net.Valid() && n < count
    requires ReportComplete(scans, lo, net.First(), count, n, scanner)
    requires Complete(more, net, OutputBase(count, n), MAX_DEPTH, scanner)
    ensures ReportComplete(scans + more, lo, net.End(), count, n + 1, scanner)
  {
    SmallPowers();
    hide Tiles, ReportSound, Sound, Net.First, Net.End, Pow2, OutputBase;
    TilesJoin(Nets(scans), Nets(more), lo, net.First(), net.End());
    assert Nets(scans) + Nets(more) == Nets(scans + more);
    ReportStaysSound(scans, more, count, n, scanner);
  }

  lemma {:induction false} ReportTiles(nets: seq<Net>, lo: nat, hi: nat, n: nat, scanner: Scanner)
    requires n <= |nets| && Tiles(nets, lo, hi) && forall i | 0 <= i < |nets| :: nets[i].Valid()
    ensures
      var scans := ReportScans(nets, n, scanner);
      scans.Some? ==> ReportComplete(scans.value, lo, if n == 0 then lo else nets[n - 1].End(), |nets|, n, scanner)
  {
    if n > 0 && ReportScans(nets, n, scanner).Some? {
      ReportTiles(nets, lo, hi, n - 1, scanner);
      TilesAt(nets, lo, hi, n - 1);
      if n > 1 {
        TilesAt(nets, lo, hi, n - 2);
      }
      TargetCompletes(nets[n - 1], OutputBase(|nets|, n - 1), scanner);
      NextTarget(nets, n - 1, scanner);
      hide ReportScans, TargetScans, Complete, ReportComplete, Tiles, Net.First, Net.End;
      ReportStaysComplete(ReportScans(nets, n - 1, scanner).value,
                          TargetScans(nets[n - 1], OutputBase(|nets|, n - 1), scanner).value,
                          nets[n - 1], lo, |nets|, n - 1, scanner);
    }
  }

  /**
   A report whose scans complete has scanned each address its plan holds exactly once, whatever timed out
   and was split on the way; every scan succeeded, and no two wrote the same file.
   */
  lemma ReportCovers(net: Net, chunked: bool, scanner: Scanner)
    requires net.Valid()
    ensures
      var nets := Planned(PlanTargets(Some(net), chunked).0, net);
      && (forall i | 0 <= i < |nets| :: nets[i].Valid())
      && var scans := ReportScans(nets, |nets|, scanner);
         scans.Some? ==> ReportComplete(scans.value, net.First(), net.First() + PlanHolds(net, chunked), |nets|, |nets|, scanner)
  {
    PlanTiles(net, chunked);
    hide PlanTargets, PlanHolds, Tiles;
    var nets := Planned(PlanTargets(Some(net), chunked).0, net);
    var lo, hi := net.First(), net.First() + PlanHolds(net, chunked);
    TilesPartition(nets, lo, hi, lo);
    ReportTiles(nets, lo, hi, |nets|, scanner);
    TilesAt(nets, lo, hi, |nets| - 1);
  }

  // ---------------------------------------------------------------- what is planned, and when a report fails

  /**
   A plan: one target unless chunks were asked for, or the network is an IPv4 one shorter than /24, which is
   cut into all its /24 networks; chunks are the first 2048 /29 networks, of a network of more than eight.
   */
  lemma PlanMeans(net: Net, chunked: bool)
    requires net.Valid()
    ensures
      var (targets, chunking) := PlanTargets(Some(net), chunked);
      if !chunked && !net.v6 && net.prefix < 24 then
        chunking && |targets| == Pow2(24 - net.prefix) && AllOf(targets, 24)
      else if chunked && net.Size() > 8 && net.prefix <= 29 then
        chunking && |targets| == Min(Pow2(29 - net.prefix), 2048) && AllOf(targets, 29)
      else chunking == chunked && targets == [Original]
    ensures PlanTargets(None, chunked) == ([Original], chunked)
  {
    if !net.v6 && net.prefix < 24 {
      ManyAddresses(net);
    }
  }

  predicate AllOf(targets: seq<Target>, prefix: nat) {
    forall i | 0 <= i < |targets| :: targets[i].Chunk? && targets[i].net.prefix == prefix
  }

  lemma ManyAddresses(net: Net)
    requires net.Valid() && !net.v6 && net.prefix < 24
    ensures net.Size() > 8
  {
    SmallPowers();
    hide Pow2;
    Pow2Grows(4, 32 - net.prefix);
  }

  /** The target's own scan fails, or it times out, and the fallback from depth 1 to 4 gives up. */
  ghost predicate GivesUp(net: Net, name: string, scanner: Scanner)
    requires net.Valid()
  {
    || scanner.outcome(name) == Failure
    || (scanner.outcome(name) == Timeout &&
        (SplitOnce(net).None?
         || StopsSomewhere(SplitOnce(net).value[0], name + "_sub_1_1", 1, 4, scanner)
         || StopsSomewhere(SplitOnce(net).value[1], name + "_sub_1_2", 1, 4, scanner)))
  }

  lemma TargetMeans(net: Net, name: string, scanner: Scanner)
    requires net.Valid()
    ensures TargetScans(net, name, scanner).None? <==> GivesUp(net, name, scanner)
    ensures scanner.outcome(name) == Success ==> TargetScans(net, name, scanner) == Some([Scan(net, name)])
  {
    assert Decimal(1) == "1" && Decimal(2) == "2";
    assert SubName(name, 1, 1) == name + "_sub_1_1" && SubName(name, 1, 2) == name + "_sub_1_2";
    hide ScanHalves, StopsSomewhere, SubName;
    FallbackFailsIff(net, name, 1, 4, scanner);
  }

  lemma {:induction false} ReportNeedsAll(nets: seq<Net>, n: nat, scanner: Scanner)
    requires n <= |nets| && forall i | 0 <= i < |nets| :: nets[i].Valid()
    ensures ReportScans(nets, n, scanner).None? <==>
      exists i: nat :: i < n && TargetScans(nets[i], OutputBase(|nets|, i), scanner).None?
  {
    hide TargetScans, OutputBase;
    if n > 0 {
      ReportNeedsAll(nets, n - 1, scanner);
      assert n - 1 < n;
    }
  }

  /** A report fails exactly if one of its targets gives up; its scans are written to `scan`, or `scan_chunk_0` and on. */
  lemma ReportFailsIff(nets: seq<Net>, scanner: Scanner)
    requires forall i | 0 <= i < |nets| :: nets[i].Valid()
    ensures ReportScans(nets, |nets|, scanner).None? <==>
      exists i: nat :: i < |nets| && GivesUp(nets[i], if |nets| == 1 then "scan" else "scan_chunk_" + Decimal(i), scanner)
  {
    ReportNeedsAll(nets, |nets|, scanner);
    hide TargetScans, GivesUp, ReportScans;
    forall i: nat | i < |nets|
      ensures TargetScans(nets[i], OutputBase(|nets|, i), scanner).None? <==>
        GivesUp(nets[i], if |nets| == 1 then "scan" else "scan_chunk_" + Decimal(i), scanner)
    {
      TargetMeans(nets[i], OutputBase(|nets|, i), scanner);
    }
  }
}
