/**
 Comparing two scans: hosts that came, went or changed, and the ports and vulnerabilities gained and lost.
 An asset carries its names already stripped and lowered, the label it is shown by, and its ports and
 vulnerabilities as sets.
 */
module AssetDiff {
  datatype Asset = Asset(ip: string, hostname: string, mac: string, name: string, ports: set<string>, vulns: set<string>)

  datatype Identity = Ip(text: string) | Hostname(text: string) | Mac(text: string)

  /** `_asset_identity` */
  function IdentityOf(a: Asset): Identity {
    if a.ip != "" then Ip(a.ip) else if a.hostname != "" then Hostname(a.hostname) else Mac(a.mac)
  }

  type Hosts = map<Identity, Asset>

  /** The assets by identity: of several with the same one, the last. */
  function ById(assets: seq<Asset>): Hosts {
    if assets == [] then map[]
    else ById(assets[..|assets| - 1])[IdentityOf(assets[|assets| - 1]) := assets[|assets| - 1]]
  }

  /** The identities in the order in which they first occur. */
  function Keys(assets: seq<Asset>): seq<Identity> {
    if assets == [] then []
    else
      var before, id := Keys(assets[..|assets| - 1]), IdentityOf(assets[|assets| - 1]);
      if id in before then before else before + [id]
  }

  method IndexAssets(assets: seq<Asset>) returns (keys: seq<Identity>, byId: Hosts)
    ensures keys == Keys(assets) && byId == ById(assets)
  {
    keys, byId := [], map[];
    for i := 0 to |assets|
      invariant keys == Keys(assets[..i]) && byId == ById(assets[..i])
    {
      assert assets[..i + 1][..i] == assets[..i];
      var id := IdentityOf(assets[i]);
      if id !in keys {
        keys := keys + [id];
      }
      byId := byId[id := assets[i]];
    }
    assert assets[..|assets|] == assets;
  }

  lemma {:induction false} KeysAreIds(assets: seq<Asset>)
    ensures forall id :: id in Keys(assets) <==> id in ById(assets)
    ensures forall i, j | 0 <= i < j < |Keys(assets)| :: Keys(assets)[i] != Keys(assets)[j]
    decreases |assets|
  {
    if assets != [] {
      KeysAreIds(assets[..|assets| - 1]);
    }
  }

  // ---------------------------------------------------------------- what the comparison means

  /** The ports, or the vulnerabilities, of each host. */
  type Traits = map<Identity, set<string>>

  function PortsOn(a: Hosts): Traits {
    map id | id in a :: a[id].ports
  }

  function VulnsOn(a: Hosts): Traits {
    map id | id in a :: a[id].vulns
  }

  /** What hosts of `ids` have in `x`, and the same host in `y` has not. */
  function Gained(ids: seq<Identity>, x: Traits, y: Traits): set<string> {
    set id, t | id in ids && id in x && t in x[id] && !(id in y && t in y[id]) :: t
  }

  function PortsGained(ids: seq<Identity>, a: Hosts, b: Hosts): set<string> {
    Gained(ids, PortsOn(a), PortsOn(b))
  }

  function VulnsGained(ids: seq<Identity>, a: Hosts, b: Hosts): set<string> {
    Gained(ids, VulnsOn(a), VulnsOn(b))
  }

  /** The labels of the hosts of `a` that `b` has not. */
  function HostsGained(ids: seq<Identity>, a: Hosts, b: Hosts): multiset<string> {
    if ids == [] then multiset{}
    else
      var before, id := HostsGained(ids[..|ids| - 1], a, b), ids[|ids| - 1];
      if id in a && id !in b then before + multiset{a[id].name} else before
  }

  datatype Change = Change(
    host: string, newPorts: set<string>, removedPorts: set<string>, newVulns: set<string>, removedVulns: set<string>)
  {
    function Swapped(): Change {
      Change(host, removedPorts, newPorts, removedVulns, newVulns)
    }
  }

  function ChangeOf(a: Asset, b: Asset): Change {
    Change(a.name, a.ports - b.ports, b.ports - a.ports, a.vulns - b.vulns, b.vulns - a.vulns)
  }

  predicate Differs(id: Identity, a: Hosts, b: Hosts) {
    id in a && id in b && (a[id].ports != b[id].ports || a[id].vulns != b[id].vulns)
  }

  /** The changes of the hosts in both scans, in order. */
  function Changes(ids: seq<Identity>, a: Hosts, b: Hosts): seq<Change> {
    if ids == [] then []
    else
      var before, id := Changes(ids[..|ids| - 1], a, b), ids[|ids| - 1];
      if Differs(id, a, b) then before + [ChangeOf(a[id], b[id])] else before
  }

  /** No host came or went, and each has the ports and vulnerabilities it had. */
  predicate Unchanged(a: Hosts, b: Hosts) {
    && (forall id | id in a :: id in b) && (forall id | id in b :: id in a)
    && (forall id | id in a && id in b :: a[id].ports == b[id].ports && a[id].vulns == b[id].vulns)
  }

  datatype Summary = Summary(
    hasChanges: bool, addedHosts: multiset<string>, removedHosts: multiset<string>, changedHosts: seq<Change>,
    newPorts: set<string>, removedPorts: set<string>, newVulns: set<string>, removedVulns: set<string>)

  /** What two scans differ in. The program sorts the labels, and drops empty ones; here they form multisets. */
  function Difference(current: seq<Asset>, previous: seq<Asset>): Summary {
    var a, b, m, n := ById(current), ById(previous), Keys(current), Keys(previous);
    Summary(!Unchanged(a, b), HostsGained(m, a, b)["" := 0], HostsGained(n, b, a)["" := 0], Changes(m, a, b),
            PortsGained(m, a, b), PortsGained(n, b, a), VulnsGained(m, a, b), VulnsGained(n, b, a))
  }

  // ---------------------------------------------------------------- the two loops

  function PortsOf(id: Identity, a: Hosts): set<string> {
    if id in a then a[id].ports else {}
  }

  function VulnsOf(id: Identity, a: Hosts): set<string> {
    if id in a then a[id].vulns else {}
  }

  lemma GainedNext(ids: seq<Identity>, id: Identity, x: Traits, y: Traits)
    ensures Gained(ids + [id], x, y) ==
      Gained(ids, x, y) + ((if id in x then x[id] else {}) - (if id in y then y[id] else {}))
  {
    forall t
      ensures t in Gained(ids, x, y) ==> t in Gained(ids + [id], x, y)
    {
      if t in Gained(ids, x, y) {
        var h :| h in ids && h in x && t in x[h] && !(h in y && t in y[h]);
        assert h in ids + [id];
      }
    }
    assert id in ids + [id];
  }

  lemma BothGainedNext(ids: seq<Identity>, id: Identity, a: Hosts, b: Hosts)
    ensures PortsGained(ids + [id], a, b) == PortsGained(ids, a, b) + (PortsOf(id, a) - PortsOf(id, b))
    ensures VulnsGained(ids + [id], a, b) == VulnsGained(ids, a, b) + (VulnsOf(id, a) - VulnsOf(id, b))
  {
    hide Gained;
    GainedNext(ids, id, PortsOn(a), PortsOn(b));
    GainedNext(ids, id, VulnsOn(a), VulnsOn(b));
  }

  lemma GainedByAll(m: seq<Identity>, n: seq<Identity>, a: Hosts, b: Hosts)
    requires forall id | id in b :: id in n
    ensures PortsGained(m + n, b, a) == PortsGained(n, b, a) && VulnsGained(m + n, b, a) == VulnsGained(n, b, a)
  {
    assert forall id | id in b :: id in m + n;
    assert forall id | id in n :: id in m + n;
  }

  lemma ListsNext(ids: seq<Identity>, i: nat, a: Hosts, b: Hosts)
    requires i < |ids|
    ensures
      var id := ids[i];
      && HostsGained(ids[..i + 1], a, b) ==
         (if id in a && id !in b then HostsGained(ids[..i], a, b) + multiset{a[id].name} else HostsGained(ids[..i], a, b))
      && Changes(ids[..i + 1], a, b) ==
         (if Differs(id, a, b) then Changes(ids[..i], a, b) + [ChangeOf(a[id], b[id])] else Changes(ids[..i], a, b))
  {
    assert ids[..i + 1][..i] == ids[..i];
  }

  lemma {:induction false} NoHostsGainedIff(ids: seq<Identity>, a: Hosts, b: Hosts)
    ensures HostsGained(ids, a, b) == multiset{} <==> forall id | id in ids && id in a :: id in b
    ensures Changes(ids, a, b) == [] <==> forall id | id in ids :: !Differs(id, a, b)
    decreases |ids|
  {
    if ids != [] {
      NoHostsGainedIff(ids[..|ids| - 1], a, b);
      assert ids == ids[..|ids| - 1] + [ids[|ids| - 1]];
      hide Differs;
    }
  }

  lemma NothingGained(m: seq<Identity>, n: seq<Identity>, a: Hosts, b: Hosts)
    requires (forall id :: id in a <==> id in m) && (forall id :: id in b <==> id in n)
    ensures Unchanged(a, b) <==>
      HostsGained(m, a, b) == multiset{} && HostsGained(n, b, a) == multiset{} && Changes(m, a, b) == []
    ensures Unchanged(a, b) ==>
      PortsGained(m, a, b) == {} && PortsGained(n, b, a) == {} && VulnsGained(m, a, b) == {} && VulnsGained(n, b, a) == {}
  {
    NoHostsGainedIff(m, a, b);
    NoHostsGainedIff(n, b, a);
  }

  /** What the loops have gathered so far. */
  datatype Gathered = Gathered(
    added: multiset<string>, removed: multiset<string>, changed: seq<Change>,
    newPorts: set<string>, removedPorts: set<string>, newVulns: set<string>, removedVulns: set<string>)

  /** What the current hosts `ids` give. */
  function FromCurrent(ids: seq<Identity>, a: Hosts, b: Hosts): Gathered {
    Gathered(HostsGained(ids, a, b), multiset{}, Changes(ids, a, b), PortsGained(ids, a, b), PortsGained(ids, b, a),
             VulnsGained(ids, a, b), VulnsGained(ids, b, a))
  }

  lemma FromNone(a: Hosts, b: Hosts)
    ensures FromCurrent([], a, b) == Gathered(multiset{}, multiset{}, [], {}, {}, {}, {})
  {
  }

  lemma FromNext(m: seq<Identity>, i: nat, a: Hosts, b: Hosts)
    requires i < |m| && m[i] in a
    ensures
      var id := m[i];
      var g, h := FromCurrent(m[..i], a, b), FromCurrent(m[..i + 1], a, b);
      if id !in b then
        h == g.(added := g.added + multiset{a[id].name}, newPorts := g.newPorts + a[id].ports, newVulns := g.newVulns + a[id].vulns)
      else
        var c := ChangeOf(a[id], b[id]);
        h == g.(changed := if Differs(id, a, b) then g.changed + [c] else g.changed,
                newPorts := g.newPorts + c.newPorts, removedPorts := g.removedPorts + c.removedPorts,
                newVulns := g.newVulns + c.newVulns, removedVulns := g.removedVulns + c.removedVulns)
  {
    hide HostsGained, Changes, PortsGained, VulnsGained;
    ListsNext(m, i, a, b);
    BothGainedNext(m[..i], m[i], a, b);
    BothGainedNext(m[..i], m[i], b, a);
    assert m[..i + 1] == m[..i] + [m[i]];
  }

  /** The loop over the current hosts. */
  method GatherCurrent(m: seq<Identity>, a: Hosts, b: Hosts) returns (g: Gathered)
    requires forall id | id in m :: id in a
    ensures g == FromCurrent(m, a, b)
  {
    hide FromCurrent;
    g := Gathered(multiset{}, multiset{}, [], {}, {}, {}, {});
    FromNone(a, b);
    assert m[..0] == [];
    for i := 0 to |m|
      invariant g == FromCurrent(m[..i], a, b)
    {
      var id := m[i];
      FromNext(m, i, a, b);
      var asset := a[id];
      if id !in b {
        g := g.(added := g.added + multiset{asset.name}, newPorts := g.newPorts + asset.ports, newVulns := g.newVulns + asset.vulns);
        continue;
      }
      var c := ChangeOf(asset, b[id]);
      if c.newPorts != {} || c.removedPorts != {} || c.newVulns != {} || c.removedVulns != {} {
        g := g.(changed := g.changed + [c]);
      }
      g := g.(newPorts := g.newPorts + c.newPorts, removedPorts := g.removedPorts + c.removedPorts,
              newVulns := g.newVulns + c.newVulns, removedVulns := g.removedVulns + c.removedVulns);
    }
    assert m[..|m|] == m;
  }

  /** What the previous hosts `ids` add to that, the current hosts being `m`. */
  function FromPrevious(g: Gathered, m: seq<Identity>, ids: seq<Identity>, a: Hosts, b: Hosts): Gathered {
    g.(removed := HostsGained(ids, b, a), removedPorts := PortsGained(m + ids, b, a), removedVulns := VulnsGained(m + ids, b, a))
  }

  lemma FromPreviousNone(g: Gathered, m: seq<Identity>, a: Hosts, b: Hosts)
    requires g.removed == multiset{} && g.removedPorts == PortsGained(m, b, a) && g.removedVulns == VulnsGained(m, b, a)
    ensures FromPrevious(g, m, [], a, b) == g
  {
    assert m + [] == m;
  }

  lemma FromPreviousNext(g: Gathered, m: seq<Identity>, n: seq<Identity>, j: nat, a: Hosts, b: Hosts)
    requires j < |n| && n[j] in b && forall id :: id in a <==> id in m
    ensures
      var id := n[j];
      var r, s := FromPrevious(g, m, n[..j], a, b), FromPrevious(g, m, n[..j + 1], a, b);
      s == if id in a then r
           else r.(removed := r.removed + multiset{b[id].name}, removedPorts := r.removedPorts + b[id].ports,
                   removedVulns := r.removedVulns + b[id].vulns)
  {
    hide HostsGained, PortsGained, VulnsGained, Changes;
    ListsNext(n, j, b, a);
    BothGainedNext(m + n[..j], n[j], b, a);
    assert m + n[..j + 1] == m + n[..j] + [n[j]];
    if n[j] in a {
      AlreadyGained(m + n[..j], n[j], a, b);
    }
  }

  /** The loop over the previous hosts. */
  method GatherPrevious(g: Gathered, m: seq<Identity>, n: seq<Identity>, a: Hosts, b: Hosts) returns (r: Gathered)
    requires (forall id :: id in a <==> id in m) && (forall id :: id in b <==> id in n)
    requires g.removed == multiset{} && g.removedPorts == PortsGained(m, b, a) && g.removedVulns == VulnsGained(m, b, a)
    ensures r == g.(removed := HostsGained(n, b, a), removedPorts := PortsGained(n, b, a), removedVulns := VulnsGained(n, b, a))
  {
    hide HostsGained, PortsGained, VulnsGained;
    r := g;
    FromPreviousNone(g, m, a, b);
    assert n[..0] == [];
    for j := 0 to |n|
      invariant r == FromPrevious(g, m, n[..j], a, b)
    {
      var id := n[j];
      FromPreviousNext(g, m, n, j, a, b);
      if id !in a {
        r := r.(removed := r.removed + multiset{b[id].name}, removedPorts := r.removedPorts + b[id].ports,
                removedVulns := r.removedVulns + b[id].vulns);
      }
    }
    assert n[..|n|] == n;
    GainedByAll(m, n, a, b);
  }

  lemma HostGained(ids: seq<Identity>, id: Identity, x: Traits, y: Traits)
    requires id in ids && id in x
    ensures x[id] - (if id in y then y[id] else {}) <= Gained(ids, x, y)
  {
  }

  lemma AlreadyGained(ids: seq<Identity>, id: Identity, a: Hosts, b: Hosts)
    requires id in ids
    ensures PortsOf(id, b) - PortsOf(id, a) <= PortsGained(ids, b, a)
    ensures VulnsOf(id, b) - VulnsOf(id, a) <= VulnsGained(ids, b, a)
  {
    if id in b {
      hide Gained;
      HostGained(ids, id, PortsOn(b), PortsOn(a));
      HostGained(ids, id, VulnsOn(b), VulnsOn(a));
    }
  }

  /** `summarize_asset_differences` */
  method SummarizeAssetDifferences(current: seq<Asset>, previous: seq<Asset>) returns (s: Summary)
    ensures s == Difference(current, previous)
  {
    var m, a := IndexAssets(current);
    var n, b := IndexAssets(previous);
    KeysAreIds(current);
    KeysAreIds(previous);
    NothingGained(m, n, a, b);
    hide Unchanged, HostsGained, Changes, PortsGained, VulnsGained;
    var g := GatherCurrent(m, a, b);
    g := GatherPrevious(g, m, n, a, b);
    var hasChanges :=
      || g.added != multiset{} || g.removed != multiset{} || g.changed != []
      || g.newPorts != {} || g.removedPorts != {} || g.newVulns != {} || g.removedVulns != {};
    s := Summary(hasChanges, g.added["" := 0], g.removed["" := 0], g.changed, g.newPorts, g.removedPorts, g.newVulns, g.removedVulns);
  }

  // ---------------------------------------------------------------- swapping the two scans

  lemma {:induction false} ChangesAre(ids: seq<Identity>, a: Hosts, b: Hosts, c: Change)
    ensures c in Changes(ids, a, b) <==> exists id :: id in ids && Differs(id, a, b) && c == ChangeOf(a[id], b[id])
    decreases |ids|
  {
    if ids != [] {
      var n := |ids| - 1;
      ChangesAre(ids[..n], a, b, c);
      assert ids == ids[..n] + [ids[n]];
      hide Differs;
    }
  }

  /** Hosts found in both scans are shown by the same label, as hosts identified by address are. */
  ghost predicate SameLabels(a: Hosts, b: Hosts) {
    forall id | id in a && id in b :: a[id].name == b[id].name
  }

  lemma {:induction false} ByIdHolds(assets: seq<Asset>, id: Identity)
    ensures id in ById(assets) ==> ById(assets)[id] in assets && IdentityOf(ById(assets)[id]) == id
    decreases |assets|
  {
    if assets != [] {
      ByIdHolds(assets[..|assets| - 1], id);
    }
  }

  lemma AddressesAreLabels(current: seq<Asset>, previous: seq<Asset>)
    requires forall x | x in current || x in previous :: x.ip != "" && x.name == x.ip
    ensures SameLabels(ById(current), ById(previous))
  {
    forall id | id in ById(current) && id in ById(previous)
      ensures ById(current)[id].name == ById(previous)[id].name
    {
      ByIdHolds(current, id);
      ByIdHolds(previous, id);
    }
  }

  lemma ChangesSwap(m: seq<Identity>, n: seq<Identity>, a: Hosts, b: Hosts, c: Change)
    requires (forall id :: id in a <==> id in m) && (forall id :: id in b <==> id in n) && SameLabels(a, b)
    requires c in Changes(m, a, b)
    ensures c.Swapped() in Changes(n, b, a)
  {
    ChangesAre(m, a, b, c);
    var id :| id in m && Differs(id, a, b) && c == ChangeOf(a[id], b[id]);
    ChangesAre(n, b, a, c.Swapped());
    assert id in n && Differs(id, b, a) && c.Swapped() == ChangeOf(b[id], a[id]);
  }

  /**
   Swapping the scans swaps what came and what went, hosts, ports and vulnerabilities alike, and turns
   each changed host round.
   */
  lemma SwapSwaps(current: seq<Asset>, previous: seq<Asset>)
    ensures
      var d, e := Difference(current, previous), Difference(previous, current);
      && d.hasChanges == e.hasChanges
      && d.addedHosts == e.removedHosts && d.removedHosts == e.addedHosts
      && d.newPorts == e.removedPorts && d.removedPorts == e.newPorts
      && d.newVulns == e.removedVulns && d.removedVulns == e.newVulns
      && (SameLabels(ById(current), ById(previous)) ==>
            forall c :: c in d.changedHosts <==> c.Swapped() in e.changedHosts)
  {
    var a, b := ById(current), ById(previous);
    KeysAreIds(current);
    KeysAreIds(previous);
    hide Changes, Keys, ById;
    if SameLabels(a, b) {
      forall c
        ensures c in Changes(Keys(current), a, b) <==> c.Swapped() in Changes(Keys(previous), b, a)
      {
        if c in Changes(Keys(current), a, b) {
          ChangesSwap(Keys(current), Keys(previous), a, b, c);
        }
        if c.Swapped() in Changes(Keys(previous), b, a) {
          ChangesSwap(Keys(previous), Keys(current), b, a, c.Swapped());
          assert c.Swapped().Swapped() == c;
        }
      }
    }
  }

  // ---------------------------------------------------------------- what is reported, in terms of the two scans

  /** The same host: by address, or by host name when neither has an address, or by MAC when neither has either. */
  predicate SameHost(x: Asset, y: Asset) {
    if x.ip != "" || y.ip != "" then x.ip == y.ip
    else if x.hostname != "" || y.hostname != "" then x.hostname == y.hostname
    else x.mac == y.mac
  }

  lemma SameHostIff(x: Asset, y: Asset)
    ensures SameHost(x, y) <==> IdentityOf(x) == IdentityOf(y)
  {
  }

  /** The record of a scan that stands for its host: the last one of it. */
  predicate Stands(assets: seq<Asset>, i: nat) {
    i < |assets| && forall j | i < j < |assets| :: !SameHost(assets[i], assets[j])
  }

  lemma {:induction false} StandsFor(assets: seq<Asset>, i: nat)
    requires Stands(assets, i)
    ensures IdentityOf(assets[i]) in ById(assets) && ById(assets)[IdentityOf(assets[i])] == assets[i]
    decreases |assets|
  {
    if i < |assets| - 1 {
      assert Stands(assets[..|assets| - 1], i) by {
        assert forall j | i < j < |assets| - 1 :: assets[..|assets| - 1][j] == assets[j];
      }
      StandsFor(assets[..|assets| - 1], i);
      SameHostIff(assets[i], assets[|assets| - 1]);
    }
  }

  lemma {:induction false} StandIn(assets: seq<Asset>, id: Identity) returns (i: nat)
    requires id in ById(assets)
    ensures Stands(assets, i) && ById(assets)[id] == assets[i] && IdentityOf(assets[i]) == id
    decreases |assets|
  {
    var n := |assets| - 1;
    if IdentityOf(assets[n]) == id {
      i := n;
    } else {
      i := StandIn(assets[..n], id);
      SameHostIff(assets[i], assets[n]);
      assert forall j | i < j < n :: assets[..n][j] == assets[j];
    }
  }

  /** No record of the scan is of the host of `x`. */
  predicate Absent(x: Asset, assets: seq<Asset>) {
    forall y | y in assets :: !SameHost(x, y)
  }

  lemma {:induction false} AbsentIff(x: Asset, assets: seq<Asset>)
    ensures Absent(x, assets) <==> IdentityOf(x) !in ById(assets)
    decreases |assets|
  {
    if assets != [] {
      var n := |assets| - 1;
      AbsentIff(x, assets[..n]);
      SameHostIff(x, assets[n]);
      assert assets == assets[..n] + [assets[n]];
    }
  }

  lemma {:induction false} HostsGainedAre(ids: seq<Identity>, a: Hosts, b: Hosts, shown: string)
    ensures shown in HostsGained(ids, a, b) <==> exists id :: id in ids && id in a && id !in b && a[id].name == shown
    decreases |ids|
  {
    if ids != [] {
      var n := |ids| - 1;
      HostsGainedAre(ids[..n], a, b, shown);
      assert ids == ids[..n] + [ids[n]];
    }
  }

  /** The labels of hosts that `x` has and `y` has not are those of records without a counterpart. */
  lemma GainedHosts(x: seq<Asset>, y: seq<Asset>, shown: string)
    ensures shown in HostsGained(Keys(x), ById(x), ById(y)) <==>
      exists i: nat :: Stands(x, i) && x[i].name == shown && Absent(x[i], y)
  {
    var a, b := ById(x), ById(y);
    HostsGainedAre(Keys(x), a, b, shown);
    KeysAreIds(x);
    hide HostsGained, Keys, ById, Absent;
    if id :| id in Keys(x) && id in a && id !in b && a[id].name == shown {
      var i := StandIn(x, id);
      AbsentIff(x[i], y);
    }
    if i: nat :| Stands(x, i) && x[i].name == shown && Absent(x[i], y) {
      StandsFor(x, i);
      AbsentIff(x[i], y);
      assert IdentityOf(x[i]) in Keys(x);
    }
  }

  /** A host is reported as added exactly if it is in the current scan only, and as removed if in the previous only. */
  lemma HostsReported(current: seq<Asset>, previous: seq<Asset>, shown: string)
    ensures
      var d := Difference(current, previous);
      && (shown in d.addedHosts <==>
            shown != "" && exists i: nat :: Stands(current, i) && current[i].name == shown && Absent(current[i], previous))
      && (shown in d.removedHosts <==>
            shown != "" && exists i: nat :: Stands(previous, i) && previous[i].name == shown && Absent(previous[i], current))
  {
    hide HostsGained, Keys, ById, Absent, PortsGained, VulnsGained, Changes, Unchanged;
    GainedHosts(current, previous, shown);
    GainedHosts(previous, current, shown);
  }

  /** A trait a host of `x` has, and its counterpart in `y`, if there is one, has not. */
  ghost predicate OnlyOn(x: seq<Asset>, i: nat, y: seq<Asset>, t: string, traits: Asset -> set<string>) {
    && Stands(x, i) && t in traits(x[i])
    && forall k: nat | Stands(y, k) && SameHost(x[i], y[k]) :: t !in traits(y[k])
  }

  /** The traits, ports or vulnerabilities, of the hosts by identity. */
  ghost predicate TraitsAre(a: Hosts, x: Traits, traits: Asset -> set<string>) {
    forall id :: (id in x <==> id in a) && (id in x ==> x[id] == traits(a[id]))
  }

  lemma GainedTraits(x: seq<Asset>, y: seq<Asset>, t: string, a: Traits, b: Traits, traits: Asset -> set<string>)
    requires TraitsAre(ById(x), a, traits) && TraitsAre(ById(y), b, traits)
    ensures t in Gained(Keys(x), a, b) <==> exists i: nat :: OnlyOn(x, i, y, t, traits)
  {
    KeysAreIds(x);
    hide Keys, ById, SameHost;
    if t in Gained(Keys(x), a, b) {
      var id :| id in Keys(x) && id in a && t in a[id] && !(id in b && t in b[id]);
      var i := StandIn(x, id);
      forall k: nat | Stands(y, k) && SameHost(x[i], y[k])
        ensures t !in traits(y[k])
      {
        StandsFor(y, k);
        SameHostIff(x[i], y[k]);
      }
      assert OnlyOn(x, i, y, t, traits);
    }
    if i: nat :| OnlyOn(x, i, y, t, traits) {
      var id := IdentityOf(x[i]);
      StandsFor(x, i);
      if id in b {
        var k := StandIn(y, id);
        SameHostIff(x[i], y[k]);
      }
      assert id in Keys(x) && id in a && t in a[id];
    }
  }

  /** A port, or a vulnerability, is new if a current host has it and had not, and removed if one had it and has not. */
  lemma TraitsReported(current: seq<Asset>, previous: seq<Asset>, t: string)
    ensures
      var d, ports, vulns := Difference(current, previous), (x: Asset) => x.ports, (x: Asset) => x.vulns;
      && (t in d.newPorts <==> exists i: nat :: OnlyOn(current, i, previous, t, ports))
      && (t in d.removedPorts <==> exists i: nat :: OnlyOn(previous, i, current, t, ports))
      && (t in d.newVulns <==> exists i: nat :: OnlyOn(current, i, previous, t, vulns))
      && (t in d.removedVulns <==> exists i: nat :: OnlyOn(previous, i, current, t, vulns))
  {
    hide Gained, Keys, ById, OnlyOn, HostsGained, Changes, Unchanged;
    var ports, vulns := (x: Asset) => x.ports, (x: Asset) => x.vulns;
    var a, b := ById(current), ById(previous);
    assert TraitsAre(a, PortsOn(a), ports) && TraitsAre(b, PortsOn(b), ports);
    assert TraitsAre(a, VulnsOn(a), vulns) && TraitsAre(b, VulnsOn(b), vulns);
    GainedTraits(current, previous, t, PortsOn(a), PortsOn(b), ports);
    GainedTraits(previous, current, t, PortsOn(b), PortsOn(a), ports);
    GainedTraits(current, previous, t, VulnsOn(a), VulnsOn(b), vulns);
    GainedTraits(previous, current, t, VulnsOn(b), VulnsOn(a), vulns);
  }

  /** Two records of one host, of which one has a port or a vulnerability the other has not. */
  predicate Changed(current: seq<Asset>, i: nat, previous: seq<Asset>, k: nat) {
    && Stands(current, i) && Stands(previous, k) && SameHost(current[i], previous[k])
    && (current[i].ports != previous[k].ports || current[i].vulns != previous[k].vulns)
  }

  lemma ChangedDiffers(current: seq<Asset>, i: nat, previous: seq<Asset>, k: nat)
    requires Changed(current, i, previous, k)
    ensures
      var id, a, b := IdentityOf(current[i]), ById(current), ById(previous);
      id in Keys(current) && Differs(id, a, b) && a[id] == current[i] && b[id] == previous[k]
  {
    KeysAreIds(current);
    hide Keys, ById;
    StandsFor(current, i);
    StandsFor(previous, k);
    SameHostIff(current[i], previous[k]);
  }

  lemma DiffersChanged(current: seq<Asset>, previous: seq<Asset>, id: Identity) returns (i: nat, k: nat)
    requires Differs(id, ById(current), ById(previous))
    ensures Changed(current, i, previous, k)
    ensures ById(current)[id] == current[i] && ById(previous)[id] == previous[k]
  {
    hide ById;
    i := StandIn(current, id);
    k := StandIn(previous, id);
    SameHostIff(current[i], previous[k]);
  }

  /** The changed hosts are those in both scans whose ports or vulnerabilities differ, each with its four lists. */
  lemma ChangesReported(current: seq<Asset>, previous: seq<Asset>, c: Change)
    ensures c in Difference(current, previous).changedHosts <==>
      exists i: nat, k: nat :: Changed(current, i, previous, k) && IsChange(c, current[i], previous[k])
  {
    hide Keys, ById, HostsGained, PortsGained, VulnsGained, Changes, Unchanged;
    var a, b := ById(current), ById(previous);
    ChangesAre(Keys(current), a, b, c);
    if id :| id in Keys(current) && Differs(id, a, b) && c == ChangeOf(a[id], b[id]) {
      var i, k := DiffersChanged(current, previous, id);
      assert Changed(current, i, previous, k) && IsChange(c, current[i], previous[k]);
    }
    if i: nat, k: nat :| Changed(current, i, previous, k) && IsChange(c, current[i], previous[k]) {
      ChangedDiffers(current, i, previous, k);
    }
  }

  predicate IsChange(c: Change, now: Asset, before: Asset) {
    && c.host == now.name
    && c.newPorts == now.ports - before.ports && c.removedPorts == before.ports - now.ports
    && c.newVulns == now.vulns - before.vulns && c.removedVulns == before.vulns - now.vulns
  }

  /** There are changes exactly if a host came, went, or changed. */
  lemma HasChangesIff(current: seq<Asset>, previous: seq<Asset>)
    ensures Difference(current, previous).hasChanges <==>
      || (exists i: nat :: Stands(current, i) && Absent(current[i], previous))
      || (exists i: nat :: Stands(previous, i) && Absent(previous[i], current))
      || exists i: nat, k: nat :: Changed(current, i, previous, k)
  {
    hide Keys, ById, Changed, HostsGained, PortsGained, VulnsGained, Changes, Absent;
    var a, b := ById(current), ById(previous);
    if !Unchanged(a, b) {
      if id :| id in a && id !in b {
        var i := StandIn(current, id);
        AbsentIff(current[i], previous);
      } else if id :| id in b && id !in a {
        var i := StandIn(previous, id);
        AbsentIff(previous[i], current);
      } else {
        var id :| id in a && id in b && (a[id].ports != b[id].ports || a[id].vulns != b[id].vulns);
        var i, k := DiffersChanged(current, previous, id);
      }
    } else {
      forall i: nat | Stands(current, i)
        ensures !Absent(current[i], previous)
      {
        StandsFor(current, i);
        AbsentIff(current[i], previous);
      }
      forall i: nat | Stands(previous, i)
        ensures !Absent(previous[i], current)
      {
        StandsFor(previous, i);
        AbsentIff(previous[i], current);
      }
      forall i: nat, k: nat
        ensures !Changed(current, i, previous, k)
      {
        if Changed(current, i, previous, k) {
          ChangedDiffers(current, i, previous, k);
        }
      }
    }
  }

  ghost predicate Distinct(ids: seq<Identity>) {
    forall i, j | 0 <= i < j < |ids| :: ids[i] != ids[j]
  }

  ghost function Among(ids: seq<Identity>, chosen: Identity -> bool): set<Identity> {
    set id | id in ids && chosen(id)
  }

  lemma AmongNext(ids: seq<Identity>, n: nat, chosen: Identity -> bool)
    requires Distinct(ids) && n + 1 == |ids|
    ensures Distinct(ids[..n])
    ensures |Among(ids, chosen)| == |Among(ids[..n], chosen)| + if chosen(ids[n]) then 1 else 0
  {
    var before, id := Among(ids[..n], chosen), ids[n];
    assert ids == ids[..n] + [id];
    assert id !in ids[..n] && id !in before;
    assert Among(ids, chosen) == if chosen(id) then before + {id} else before;
  }

  lemma {:induction false} GainedOnce(ids: seq<Identity>, a: Hosts, b: Hosts, shown: string)
    requires Distinct(ids)
    ensures HostsGained(ids, a, b)[shown] == |Among(ids, id => id in a && id !in b && a[id].name == shown)|
    decreases |ids|
  {
    hide Among, Distinct;
    var chosen := (id: Identity) => id in a && id !in b && a[id].name == shown;
    if ids != [] {
      AmongNext(ids, |ids| - 1, chosen);
      GainedOnce(ids[..|ids| - 1], a, b, shown);
    } else {
      AmongNone(chosen);
    }
  }

  lemma AmongNone(chosen: Identity -> bool)
    ensures |Among([], chosen)| == 0
  {
  }

  lemma {:induction false} ChangedOnce(ids: seq<Identity>, a: Hosts, b: Hosts)
    requires Distinct(ids)
    ensures |Changes(ids, a, b)| == |Among(ids, id => Differs(id, a, b))|
    decreases |ids|
  {
    hide Among, Distinct, Differs;
    var chosen := (id: Identity) => Differs(id, a, b);
    if ids != [] {
      AmongNext(ids, |ids| - 1, chosen);
      ChangedOnce(ids[..|ids| - 1], a, b);
    } else {
      AmongNone(chosen);
    }
  }

  lemma AmongAll(ids: seq<Identity>, a: Hosts, chosen: Identity -> bool)
    requires (forall id :: id in ids <==> id in a) && forall id | chosen(id) :: id in a
    ensures Among(ids, chosen) == set id | id in a && chosen(id)
  {
  }

  /** Each host counts once: an added or removed one under its label, a changed one in the list of changes. */
  lemma HostsCountOnce(current: seq<Asset>, previous: seq<Asset>, shown: string)
    requires shown != ""
    ensures
      var d, a, b := Difference(current, previous), ById(current), ById(previous);
      && d.addedHosts[shown] == |set id | id in a && id !in b && a[id].name == shown|
      && d.removedHosts[shown] == |set id | id in b && id !in a && b[id].name == shown|
      && |d.changedHosts| == |set id | id in a && id in b && (a[id].ports != b[id].ports || a[id].vulns != b[id].vulns)|
  {
    hide Keys, ById, HostsGained, Changes, PortsGained, VulnsGained, Unchanged, Among;
    var a, b, m, n := ById(current), ById(previous), Keys(current), Keys(previous);
    var added := (id: Identity) => id in a && id !in b && a[id].name == shown;
    var removed := (id: Identity) => id in b && id !in a && b[id].name == shown;
    var changed := (id: Identity) => Differs(id, a, b);
    KeysAreIds(current);
    KeysAreIds(previous);
    GainedOnce(m, a, b, shown);
    GainedOnce(n, b, a, shown);
    ChangedOnce(m, a, b);
    AmongAll(m, a, added);
    AmongAll(n, b, removed);
    AmongAll(m, a, changed);
    assert Among(m, added) == set id | id in a && id !in b && a[id].name == shown;
    assert Among(n, removed) == set id | id in b && id !in a && b[id].name == shown;
    assert Among(m, changed) ==
      set id | id in a && id in b && (a[id].ports != b[id].ports || a[id].vulns != b[id].vulns);
  }
}
