/** Ethernet addresses: `ether_addr_equal` and `ether_addr_to_u64` of utils.c. */
module EtherAddr {
  import opened MrpTypes

  /** The big-endian number that the bytes of an address spell. */
  function Spelled(m: seq<u8>): nat {
    if m == [] then 0 else Spelled(m[..|m| - 1]) * 0x100 + m[|m| - 1]
  }

  function ToU64(m: Mac): nat { Spelled(m) }

  /** Addresses are compared as three 16-bit words. */
  predicate MacEqual(m: Mac, m': Mac) {
    && Be16(m[1], m[0]) == Be16(m'[1], m'[0])
    && Be16(m[3], m[2]) == Be16(m'[3], m'[2])
    && Be16(m[5], m[4]) == Be16(m'[5], m'[4])
  }

  /** The word-wise comparison is equality of addresses. */
  lemma MacEqualIsEquality(m: Mac, m': Mac)
    ensures MacEqual(m, m') <==> m == m'
  {
    if MacEqual(m, m') {
      assert forall k :: 0 <= k < 6 ==> m[k] == m'[k];
    }
  }

  lemma SameDigits(a: nat, x: u8, b: nat, y: u8)
    requires a * 0x100 + x == b * 0x100 + y
    ensures a == b && x == y
  {
  }

  /** Two byte strings of the same length spell the same number only if they are the same. */
  lemma {:induction false} SpelledInjective(m: seq<u8>, m': seq<u8>)
    requires |m| == |m'| && Spelled(m) == Spelled(m')
    ensures m == m'
  {
    if m != [] {
      var k := |m| - 1;
      SameDigits(Spelled(m[..k]), m[k], Spelled(m'[..k]), m'[k]);
      SpelledInjective(m[..k], m'[..k]);
      assert m == m[..k] + [m[k]] && m' == m'[..k] + [m'[k]];
    }
  }

  /** At the first byte in which they differ, `m` has the smaller one. */
  ghost predicate Lower(m: seq<u8>, m': seq<u8>)
    requires |m| == |m'|
  {
    exists k: nat :: LowerAt(m, m', k)
  }

  ghost predicate LowerAt(m: seq<u8>, m': seq<u8>, k: nat)
    requires |m| == |m'|
  {
    k < |m| && m[k] < m'[k] && forall i :: 0 <= i < k ==> m[i] == m'[i]
  }

  lemma LowerByLast(m: seq<u8>, m': seq<u8>)
    requires |m| == |m'| > 0
    ensures var k := |m| - 1; Lower(m, m') <==> Lower(m[..k], m'[..k]) || (m[..k] == m'[..k] && m[k] < m'[k])
  {
    var k := |m| - 1;
    if Lower(m, m') {
      var j: nat :| LowerAt(m, m', j);
      if j < k {
        assert LowerAt(m[..k], m'[..k], j);
      }
    }
    if Lower(m[..k], m'[..k]) {
      var j: nat :| LowerAt(m[..k], m'[..k], j);
      assert forall i :: 0 <= i <= j ==> m[..k][i] == m[i] && m'[..k][i] == m'[i];
      assert LowerAt(m, m', j);
    }
    if m[..k] == m'[..k] && m[k] < m'[k] {
      assert forall i :: 0 <= i < k ==> m[i] == m[..k][i] && m'[i] == m'[..k][i];
      assert LowerAt(m, m', k);
    }
  }

  /** The order of the numbers is the order of the bytes, the first byte counting most. */
  lemma {:induction false} SpelledOrder(m: seq<u8>, m': seq<u8>)
    requires |m| == |m'|
    ensures Spelled(m) < Spelled(m') <==> Lower(m, m')
  {
    if m != [] {
      var k := |m| - 1;
      LowerByLast(m, m');
      SpelledOrder(m[..k], m'[..k]);
      if Spelled(m[..k]) == Spelled(m'[..k]) {
        SpelledInjective(m[..k], m'[..k]);
      }
    }
  }

  lemma {:induction false} SpelledBound(m: seq<u8>)
    requires |m| <= 8
    ensures Spelled(m) < Power256(|m|)
  {
    if m != [] { SpelledBound(m[..|m| - 1]); }
  }

  function Power256(k: nat): nat { if k == 0 then 1 else 0x100 * Power256(k - 1) }

  /** The loop of `ether_addr_to_u64`; the accumulator never leaves 48 bits. */
  method EtherAddrToU64(addr: Mac) returns (u: nat)
    ensures u == ToU64(addr) < 0x1_0000_0000_0000
  {
    u := 0;
    var i := 0;
    while i < 6
      invariant 0 <= i <= 6
      invariant u == Spelled(addr[..i])
    {
      assert addr[..i + 1][..i] == addr[..i];
      u := u * 0x100 + addr[i];
      i := i + 1;
    }
    assert addr[..6] == addr;
    SpelledBound(addr);
    assert Power256(6) == 0x100 * (0x100 * (0x100 * (0x100 * (0x100 * (0x100 * Power256(0))))));
  }
}
