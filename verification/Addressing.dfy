/** IPv4 arithmetic on bytes, and the address a bridge gives to a VMID. */
module Addressing {
  import opened Records

  const SPACE := 0x1_0000_0000

  function Pow256(k: nat): (p: int)
    ensures p >= 1
  {
    if k == 0 then 1 else 256 * Pow256(k - 1)
  }

  /** The big-endian number written by `s[i..]`. */
  function Tail(s: seq<Byte>, i: nat): (v: int)
    requires i <= |s|
    ensures 0 <= v < Pow256(|s| - i)
    decreases |s| - i
  {
    if i == |s| then 0
    else
      TailBound(s[i], Tail(s, i + 1), Pow256(|s| - i - 1));
      s[i] * Pow256(|s| - i - 1) + Tail(s, i + 1)
  }

  lemma TailBound(b: Byte, t: int, p: int)
    requires 0 <= t < p
    ensures 0 <= b * p + t < 256 * p
  {
    assert b * p <= 255 * p;
  }

  function Value(s: seq<Byte>): (v: int)
    requires |s| == 4
    ensures 0 <= v < SPACE
  {
    assert Pow256(4) == SPACE by { assert Pow256(1) == 256; assert Pow256(2) == 0x1_0000; assert Pow256(3) == 0x100_0000; }
    Tail(s, 0)
  }

  lemma TailOfEqual(s: seq<Byte>, t: seq<Byte>, i: nat)
    requires |s| == |t| && i <= |s| && s[i..] == t[i..]
    ensures Tail(s, i) == Tail(t, i)
    decreases |s| - i
  {
    if i < |s| {
      assert s[i + 1..] == s[i..][1..] == t[i + 1..];
      assert s[i] == s[i..][0] == t[i];
      TailOfEqual(s, t, i + 1);
    }
  }

  lemma CarryStep(b: Byte, carry: int, p: int)
    ensures var sum := b + carry % 256;
            (sum % 256) * p + (carry / 256 + sum / 256) * (256 * p) == b * p + carry * p
  {
    var sum := b + carry % 256;
    var low, high := sum % 256, carry / 256 + sum / 256;
    assert low + 256 * high == b + carry;
    calc {
      low * p + high * (256 * p);
      (low + 256 * high) * p;
      (b + carry) * p;
      b * p + carry * p;
    }
  }

  /** One byte of the carry loop: Go's `& 0xff` and `>> 8` on a signed carry are the Euclidean remainder and quotient. */
  lemma CarryLoop(base: seq<Byte>, before: seq<Byte>, i: nat, carry: int, offset: int)
    requires |base| == 4 && |before| == 4 && i < 4 && before[i] == base[i]
    requires Tail(before, i + 1) + carry * Pow256(3 - i) == Tail(base, i + 1) + offset
    ensures var sum := base[i] + carry % 256;
            Tail(before[i := sum % 256], i) + (carry / 256 + sum / 256) * Pow256(4 - i) == Tail(base, i) + offset
  {
    var p := Pow256(3 - i);
    var sum := base[i] + carry % 256;
    var after := before[i := sum % 256];
    assert after[i + 1..] == before[i + 1..];
    TailOfEqual(before, after, i + 1);
    CarryStep(base[i], carry, p);
    assert Pow256(4 - i) == 256 * p;
    assert Tail(after, i) == (sum % 256) * p + Tail(after, i + 1);
    assert Tail(base, i) == base[i] * p + Tail(base, i + 1);
  }

  lemma RestOfSpace(v: int, carry: int, total: int)
    requires 0 <= v < SPACE && v + carry * SPACE == total
    ensures carry == 0 <==> 0 <= total < SPACE
    ensures carry == 0 ==> v == total
  {
    if carry >= 1 { assert carry * SPACE >= SPACE; }
    if carry <= -1 { assert carry * SPACE <= -SPACE; }
  }

  /** addIPv4: exact signed addition on 32-bit addresses, for every offset. */
  method AddIPv4(base: seq<Byte>, offset: int) returns (r: Result<seq<Byte>>)
    ensures |base| != 4 ==> r.Err?
    ensures |base| == 4 ==> (r.Ok? <==> 0 <= Value(base) + offset < SPACE)
    ensures |base| == 4 && r.Ok? ==> |r.value| == 4 && Value(r.value) == Value(base) + offset
  {
    if |base| != 4 {
      return Err("base IP must be IPv4");
    }
    var out := new Byte[4];
    forall k | 0 <= k < 4 {
      out[k] := base[k];
    }
    var carry := offset;
    var i := 3;
    while i >= 0
      invariant -1 <= i <= 3
      invariant out[..i + 1] == base[..i + 1]
      invariant Tail(out[..], i + 1) + carry * Pow256(3 - i) == Tail(base, i + 1) + offset
    {
      ghost var before := out[..];
      assert before[i] == out[..i + 1][i];
      CarryLoop(base, before, i, carry, offset);
      var sum := out[i] + carry % 256;
      out[i] := sum % 256;
      carry := carry / 256 + sum / 256;
      assert out[..] == before[i := sum % 256];
      i := i - 1;
    }
    RestOfSpace(Value(out[..]), carry, Value(base) + offset);
    if carry != 0 {
      return Err("ipv4 offset overflow");
    }
    return Ok(out[..]);
  }

  /** What deriveIPv4 computes, on address numbers. */
  function DeriveIPv4(cluster: Cluster, bridgeKey: string, vmid: int): Result<Cidr> {
    if bridgeKey !in cluster.bridges then Err("unknown bridge")
    else
      var bridge := cluster.bridges[bridgeKey];
      if bridge.base == None then Err("bridge has invalid ipv4 start_ip")
      else
        var address := Value(bridge.base.value) + (vmid - cluster.startVmid);
        if 0 <= address < SPACE then Ok(Cidr(address, bridge.prefix)) else Err("ipv4 offset overflow")
  }

  /** The first VMID of the cluster gets the bridge's start address, and every other one the address as far from it as the VMID
      is from the first; there is none exactly if the bridge is unknown, has no start address, or that address does not exist. */
  lemma DerivedAddressIs(cluster: Cluster, bridgeKey: string, vmid: int)
    ensures DeriveIPv4(cluster, bridgeKey, vmid).Ok? <==>
              && bridgeKey in cluster.bridges && cluster.bridges[bridgeKey].base.Some?
              && 0 <= Value(cluster.bridges[bridgeKey].base.value) + vmid - cluster.startVmid < 0x1_0000_0000
    ensures DeriveIPv4(cluster, bridgeKey, vmid).Ok? ==>
              && DeriveIPv4(cluster, bridgeKey, cluster.startVmid) == Ok(Cidr(Value(cluster.bridges[bridgeKey].base.value), cluster.bridges[bridgeKey].prefix))
              && var first, ip := DeriveIPv4(cluster, bridgeKey, cluster.startVmid).value, DeriveIPv4(cluster, bridgeKey, vmid).value;
              ip.address - first.address == vmid - cluster.startVmid && ip.prefix == first.prefix
  {
  }

  /** Value reads the four bytes as an unsigned big-endian number. */
  lemma ValueMeans(s: seq<Byte>)
    requires |s| == 4
    ensures Value(s) == s[0] as int * 0x100_0000 + s[1] as int * 0x1_0000 + s[2] as int * 0x100 + s[3] as int
  {
    assert Pow256(0) == 1 && Pow256(1) == 256 && Pow256(2) == 0x1_0000 && Pow256(3) == 0x100_0000;
    assert Tail(s, 4) == 0 && Tail(s, 3) == s[3] && Tail(s, 2) == s[2] as int * 256 + s[3] as int;
    assert Tail(s, 1) == s[1] as int * 0x1_0000 + Tail(s, 2) && Tail(s, 0) == s[0] as int * 0x100_0000 + Tail(s, 1);
  }

  method DeriveAddress(cluster: Cluster, bridgeKey: string, vmid: int) returns (r: Result<Cidr>)
    ensures r == DeriveIPv4(cluster, bridgeKey, vmid)
  {
    if bridgeKey !in cluster.bridges {
      return Err("unknown bridge");
    }
    var bridge := cluster.bridges[bridgeKey];
    if bridge.base == None {
      return Err("bridge has invalid ipv4 start_ip");
    }
    var sum := AddIPv4(bridge.base.value, vmid - cluster.startVmid);
    match sum
    case Ok(out) => r := Ok(Cidr(Value(out), bridge.prefix));
    case Err(_) => r := Err("ipv4 offset overflow");
  }

  /** On one bridge, different VMIDs get different addresses. */
  lemma DeriveIsInjective(cluster: Cluster, bridgeKey: string, x: int, y: int)
    requires DeriveIPv4(cluster, bridgeKey, x).Ok? && DeriveIPv4(cluster, bridgeKey, x) == DeriveIPv4(cluster, bridgeKey, y)
    ensures x == y
  {
  }

  /** Address numbers stand for addresses: no two byte strings have the same one. */
  lemma {:induction false} TailIsInjective(s: seq<Byte>, t: seq<Byte>, i: nat)
    requires |s| == |t| && i <= |s| && Tail(s, i) == Tail(t, i)
    ensures s[i..] == t[i..]
    decreases |s| - i
  {
    if i < |s| {
      var p := Pow256(|s| - i - 1);
      assert s[i] * p + Tail(s, i + 1) == t[i] * p + Tail(t, i + 1);
      LeadingDigit(s[i], Tail(s, i + 1), t[i], Tail(t, i + 1), p);
      TailIsInjective(s, t, i + 1);
      assert s[i..] == [s[i]] + s[i + 1..];
      assert t[i..] == [t[i]] + t[i + 1..];
    }
  }

  lemma LeadingDigit(a: Byte, x: int, b: Byte, y: int, p: int)
    requires 0 <= x < p && 0 <= y < p && a * p + x == b * p + y
    ensures a == b && x == y
  {
    assert (a - b) * p == y - x;
    if a != b {
      AtLeast(if a < b then b - a else a - b, p);
      assert false;
    }
  }

  lemma AtLeast(k: int, p: int)
    requires k >= 1 && p >= 1
    ensures k * p >= p
    ensures (-k) * p <= -p
  {
    assert (k - 1) * p >= 0;
    assert (-k) * p == -(k * p);
  }
}
