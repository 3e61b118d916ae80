/**
 Networks as `ipaddress` has them, by family, prefix length and position: the network with position
 `index` holds the addresses from `index * size` on. Parsing and printing addresses is not modelled.
 */
module Networks {

  function Pow2(k: nat): (p: nat)
    ensures p > 0
  {
    if k == 0 then 1 else 2 * Pow2(k - 1)
  }

  lemma Regroup(a: int, b: int)
    ensures 2 * (a * b) == (2 * a) * b
  {
  }

  lemma {:induction false} Pow2Sum(a: nat, b: nat)
    ensures Pow2(a + b) == Pow2(a) * Pow2(b)
  {
    if a > 0 {
      Pow2Sum(a - 1, b);
      Regroup(Pow2(a - 1), Pow2(b));
    }
  }

  lemma {:induction false} Pow2Grows(a: nat, b: nat)
    requires a <= b
    ensures Pow2(a) <= Pow2(b)
  {
    if a < b {
      Pow2Grows(a, b - 1);
    }
  }

  function Bits(v6: bool): nat {
    if v6 then 128 else 32
  }

  datatype Net = Net(v6: bool, prefix: nat, index: nat) {
    predicate Valid() {
      prefix <= Bits(v6) && index < Pow2(prefix)
    }

    function Size(): nat
      requires Valid()
    {
      Pow2(Bits(v6) - prefix)
    }

    function First(): nat
      requires Valid()
    {
      index * Size()
    }

    function End(): nat
      requires Valid()
    {
      First() + Size()
    }

    predicate Contains(address: nat)
      requires Valid()
    {
      First() <= address < End()
    }

    /** The i-th of the equal parts with a prefix longer by `k`. */
    function Part(k: nat, i: nat): (part: Net)
      requires Valid() && prefix + k <= Bits(v6) && i < Pow2(k)
      ensures part.Valid() && part.v6 == v6 && part.prefix == prefix + k
    {
      PartFits(this, k, i);
      Net(v6, prefix + k, index * Pow2(k) + i)
    }
  }

  lemma Distribute(index: int, parts: int, i: int, size: int)
    ensures (index * parts + i) * size == index * (size * parts) + i * size
  {
    assert (index * parts + i) * size == (index * parts) * size + i * size;
  }

  lemma PositionFits(index: int, positions: int, i: int, parts: int)
    requires index < positions && i < parts && parts > 0
    ensures index * parts + i < positions * parts
  {
    assert (positions - index - 1) * parts >= 0;
    assert positions * parts == index * parts + parts + (positions - index - 1) * parts;
  }

  lemma PartFits(n: Net, k: nat, i: nat)
    requires n.Valid() && i < Pow2(k)
    ensures n.index * Pow2(k) + i < Pow2(n.prefix + k)
  {
    hide Pow2;
    Pow2Sum(n.prefix, k);
    PositionFits(n.index, Pow2(n.prefix), i, Pow2(k));
  }

  lemma PartPlace(n: Net, k: nat, i: nat)
    requires n.Valid() && n.prefix + k <= Bits(n.v6) && i < Pow2(k)
    ensures n.Part(k, i).Size() * Pow2(k) == n.Size()
    ensures n.Part(k, i).First() == n.First() + i * n.Part(k, i).Size()
  {
    hide Pow2, Bits;
    Pow2Sum(Bits(n.v6) - n.prefix - k, k);
    Distribute(n.index, Pow2(k), i, n.Part(k, i).Size());
  }

  /** The networks follow each other without gap or overlap, from address `lo` up to `hi`. */
  ghost predicate Tiles(nets: seq<Net>, lo: nat, hi: nat) {
    if nets == [] then lo == hi
    else nets[0].Valid() && nets[0].First() == lo && Tiles(nets[1..], nets[0].End(), hi)
  }

  lemma {:induction false} TilesJoin(a: seq<Net>, b: seq<Net>, lo: nat, mid: nat, hi: nat)
    requires Tiles(a, lo, mid) && Tiles(b, mid, hi)
    ensures Tiles(a + b, lo, hi)
  {
    if a == [] {
      assert a + b == b;
    } else {
      TilesJoin(a[1..], b, a[0].End(), mid, hi);
      assert (a + b)[1..] == a[1..] + b;
    }
  }

  /** Tiling is a partition: an address of the range lies in exactly one of the networks, any other in none. */
  lemma {:induction false} TilesPartition(nets: seq<Net>, lo: nat, hi: nat, address: nat)
    requires Tiles(nets, lo, hi)
    ensures forall i | 0 <= i < |nets| :: nets[i].Valid()
    ensures lo <= hi
    ensures lo <= address < hi <==> exists i :: 0 <= i < |nets| && nets[i].Contains(address)
    ensures forall i, j | 0 <= i < j < |nets| :: !(nets[i].Contains(address) && nets[j].Contains(address))
  {
    if nets != [] {
      var rest := nets[1..];
      TilesPartition(rest, nets[0].End(), hi, address);
      assert forall i | 0 < i < |nets| :: nets[i] == rest[i - 1];
      if i :| 0 <= i < |rest| && rest[i].Contains(address) {
        assert nets[i + 1].Contains(address);
      }
    }
  }

  /** The first `count` parts of a network, in order, as `subnets` yields them. */
  function Parts(n: Net, k: nat, count: nat): (parts: seq<Net>)
    requires n.Valid() && n.prefix + k <= Bits(n.v6) && count <= Pow2(k)
    ensures |parts| == count && forall i | 0 <= i < count :: parts[i] == n.Part(k, i)
  {
    seq(count, i requires 0 <= i < count => n.Part(k, i))
  }

  lemma {:induction false} PartsTile(n: Net, k: nat, count: nat)
    requires n.Valid() && n.prefix + k <= Bits(n.v6) && count <= Pow2(k)
    ensures Tiles(Parts(n, k, count), n.First(), n.First() + count * Pow2(Bits(n.v6) - n.prefix - k))
  {
    if count > 0 {
      hide Pow2, Bits, Net.First, Net.Size, Net.End;
      var last := n.Part(k, count - 1);
      var size := Pow2(Bits(n.v6) - n.prefix - k);
      PartsTile(n, k, count - 1);
      PartEnds(n, k, count - 1);
      assert Parts(n, k, count - 1) + [last] == Parts(n, k, count);
      TilesJoin(Parts(n, k, count - 1), [last], n.First(), last.First(), last.End());
    }
  }

  lemma PartEnds(n: Net, k: nat, i: nat)
    requires n.Valid() && n.prefix + k <= Bits(n.v6) && i < Pow2(k)
    ensures
      var size := Pow2(Bits(n.v6) - n.prefix - k);
      n.Part(k, i).First() == n.First() + i * size && n.Part(k, i).End() == n.First() + (i + 1) * size
  {
    hide Pow2, Bits;
    PartPlace(n, k, i);
    var size := n.Part(k, i).Size();
    assert (i + 1) * size == i * size + size;
  }

  lemma AllPartsTile(n: Net, k: nat)
    requires n.Valid() && n.prefix + k <= Bits(n.v6)
    ensures Tiles(Parts(n, k, Pow2(k)), n.First(), n.End())
  {
    hide Pow2, Bits, Tiles, Net.First, Net.End;
    PartsTile(n, k, Pow2(k));
    AllPartsFill(n, k);
  }

  lemma AllPartsFill(n: Net, k: nat)
    requires n.Valid() && n.prefix + k <= Bits(n.v6)
    ensures n.End() == n.First() + Pow2(k) * Pow2(Bits(n.v6) - n.prefix - k)
  {
    hide Pow2, Bits, Net.First;
    Pow2Sum(k, Bits(n.v6) - n.prefix - k);
  }
}
