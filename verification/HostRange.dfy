/** The host addresses of a prefix (section 3.1 of RFC 4632), enumerated with a delay of one so
    that the last address is never sent. `bits` is the width of an address: 32 for IPv4, 128
    for IPv6. */
module HostRange {

  function Pow2(n: nat): (p: nat)
    ensures p >= 1
  {
    if n == 0 then 1 else 2 * Pow2(n - 1)
  }

  function BlockIndex(size: nat, x: nat): nat
    requires size >= 1
  {
    x / size
  }

  /** Addresses that share the first n bits. */
  function BlockSize(bits: nat, n: nat): nat
    requires n <= bits
  {
    Pow2(bits - n)
  }

  /** IPPrefix.Contains: a valid address with the same first n bits. */
  predicate Contains(bits: nat, ip: nat, n: nat, x: nat)
    requires n <= bits
  {
    x < Pow2(bits) && BlockIndex(BlockSize(bits, n), x) == BlockIndex(BlockSize(bits, n), ip)
  }

  function Network(bits: nat, ip: nat, n: nat): nat
    requires n <= bits
  {
    BlockIndex(BlockSize(bits, n), ip) * BlockSize(bits, n)
  }

  function Broadcast(bits: nat, ip: nat, n: nat): nat
    requires n <= bits
  {
    Network(bits, ip, n) + BlockSize(bits, n) - 1
  }

  datatype Last = NoAddress | Address(ip: nat)

  lemma BlockOf(size: nat, a: nat, x: nat)
    requires size >= 1
    ensures BlockIndex(size, x) == a <==> a * size <= x < a * size + size
  {
    assert x == x / size * size + x % size;
    if x / size < a {
      assert (x / size + 1) * size <= a * size;
    } else if x / size > a {
      assert (a + 1) * size <= x / size * size;
    }
  }

  lemma {:induction false} BlocksFillTheSpace(bits: nat, n: nat)
    requires n <= bits
    ensures Pow2(bits - n) * Pow2(n) == Pow2(bits)
  {
    if n > 0 {
      BlocksFillTheSpace(bits, n - 1);
      assert Pow2(bits - (n - 1)) == 2 * Pow2(bits - n) && Pow2(n) == 2 * Pow2(n - 1);
      Double(Pow2(bits - n), Pow2(n - 1));
    }
  }

  lemma Double(a: nat, b: nat)
    ensures 2 * a * b == a * (2 * b)
  {
  }

  /** Membership by bits is membership in the block from network to broadcast address. */
  lemma ContainsIsBlock(bits: nat, ip: nat, n: nat, x: nat)
    requires ip < Pow2(bits) && n <= bits
    ensures Contains(bits, ip, n, x) <==> Network(bits, ip, n) <= x <= Broadcast(bits, ip, n)
    ensures Network(bits, ip, n) <= ip <= Broadcast(bits, ip, n) < Pow2(bits)
  {
    hide BlockIndex, Pow2;
    var size := BlockSize(bits, n);
    var a := BlockIndex(size, ip);
    BlockOf(size, a, x);
    BlockOf(size, a, ip);
    BlocksFillTheSpace(bits, n);
    BlockFits(size, Pow2(n), a, ip);
  }

  lemma BlockFits(size: nat, blocks: nat, a: nat, ip: nat)
    requires size >= 1 && a * size <= ip < size * blocks
    ensures a * size + size <= size * blocks
  {
    if a >= blocks {
      MulGrows(blocks, a, size);
      assert false;
    }
    MulGrows(a + 1, blocks, size);
  }

  lemma MulGrows(a: nat, b: nat, size: nat)
    requires a <= b
    ensures a * size <= b * size
  {
  }

  /** The addresses strictly between the given one and the broadcast address, in order. */
  function HostList(bits: nat, ip: nat, n: nat): seq<nat>
    requires n <= bits
  {
    var last := Broadcast(bits, ip, n);
    seq(if ip + 1 < last then last - ip - 1 else 0, i => ip + 1 + i)
  }

  /** hosts sends exactly those. */
  method Hosts(bits: nat, ip: nat, n: nat) returns (sent: seq<nat>)
    requires ip < Pow2(bits) && n <= bits
    ensures sent == HostList(bits, ip, n)
  {
    hide BlockIndex, Pow2;
    sent := [];
    var last := NoAddress;
    var next := ip + 1;
    ContainsIsBlock(bits, ip, n, next);
    while Contains(bits, ip, n, next)
      invariant ip + 1 <= next <= Broadcast(bits, ip, n) + 1
      invariant Contains(bits, ip, n, next) <==> next <= Broadcast(bits, ip, n)
      invariant last == if next == ip + 1 then NoAddress else Address(next - 1)
      invariant |sent| == if next <= ip + 2 then 0 else next - ip - 2
      invariant forall i | 0 <= i < |sent| :: sent[i] == ip + 1 + i
      decreases Broadcast(bits, ip, n) + 1 - next
    {
      if last.Address? {
        sent := sent + [last.ip];
      }
      last := Address(next);
      next := next + 1;
      ContainsIsBlock(bits, ip, n, next);
    }
  }

  /** An address of the prefix that is neither its network nor its broadcast address. */
  predicate IsHost(bits: nat, ip: nat, n: nat, x: nat)
    requires n <= bits
  {
    Contains(bits, ip, n, x) && x != Network(bits, ip, n) && x != Broadcast(bits, ip, n)
  }

  /** For a prefix with zero host bits, at least two of them, the list has every host once,
      2^(bits-n) - 2 in all. */
  lemma EveryHostOnce(bits: nat, ip: nat, n: nat)
    requires ip < Pow2(bits) && n + 2 <= bits && ip % BlockSize(bits, n) == 0
    ensures var hosts := HostList(bits, ip, n);
            && |hosts| == Pow2(bits - n) - 2
            && (forall i, j | 0 <= i < j < |hosts| :: hosts[i] != hosts[j])
            && forall x: nat :: x in hosts <==> IsHost(bits, ip, n, x)
  {
    AtLeastFour(bits - n);
    NetworkOf(bits, ip, n);
    hide BlockIndex, Pow2, Contains;
    var hosts := HostList(bits, ip, n);
    forall x: nat ensures x in hosts <==> IsHost(bits, ip, n, x) {
      ContainsIsBlock(bits, ip, n, x);
      if ip < x < Broadcast(bits, ip, n) {
        assert hosts[x - ip - 1] == x;
      }
    }
  }

  /** For every address and prefix length: the addresses after the given one and before the
      broadcast address, in order. */
  lemma ListedAreLater(bits: nat, ip: nat, n: nat)
    requires ip < Pow2(bits) && n <= bits
    ensures var hosts := HostList(bits, ip, n);
            && (forall i, j | 0 <= i < j < |hosts| :: hosts[i] < hosts[j])
            && forall x: nat :: x in hosts <==> ip < x < Broadcast(bits, ip, n)
  {
    hide BlockIndex, Pow2, Network;
    var hosts := HostList(bits, ip, n);
    forall x: nat | ip < x < Broadcast(bits, ip, n) ensures x in hosts {
      assert hosts[x - ip - 1] == x;
    }
  }

  /** So every host is listed, and nothing else, exactly when the host bits are zero or there are
      fewer than two of them, and with that no host: an address with host bits set hides the hosts
      up to itself. */
  lemma ListsEveryHostIff(bits: nat, ip: nat, n: nat)
    requires ip < Pow2(bits) && n <= bits
    ensures (forall x: nat :: x in HostList(bits, ip, n) <==> IsHost(bits, ip, n, x))
       <==> n + 2 > bits || ip % BlockSize(bits, n) == 0
  {
    ListedAreLater(bits, ip, n);
    NetworkOf(bits, ip, n);
    ContainsIsBlock(bits, ip, n, ip);
    var network, broadcast := Network(bits, ip, n), Broadcast(bits, ip, n);
    if n + 2 > bits {
      assert BlockSize(bits, n) <= 2 by {
        assert bits - n == 0 || (bits - n == 1 && Pow2(1) == 2 * Pow2(0));
      }
    } else {
      AtLeastFour(bits - n);
      ContainsIsBlock(bits, ip, n, network + 1);
    }
    hide BlockIndex, Pow2, Contains, HostList, Network;
    forall x: nat ensures IsHost(bits, ip, n, x) <==> network < x < broadcast {
      ContainsIsBlock(bits, ip, n, x);
    }
    if ip != network && n + 2 <= bits {
      assert IsHost(bits, ip, n, network + 1) && network + 1 !in HostList(bits, ip, n);
    }
  }

  lemma AtLeastFour(m: nat)
    requires m >= 2
    ensures Pow2(m) >= 4
  {
  }

  /** With no host bits set the address is its own network address. */
  lemma NetworkOf(bits: nat, ip: nat, n: nat)
    requires n <= bits
    ensures Network(bits, ip, n) == ip <==> ip % BlockSize(bits, n) == 0
  {
    hide Pow2;
    var size := BlockSize(bits, n);
    assert ip == ip / size * size + ip % size;
  }
}
