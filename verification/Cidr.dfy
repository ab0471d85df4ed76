/**
 The masked address comparisons of src/auth/spf/checker.cpp against a bit-by-bit reading of a CIDR block.
 Words are naturals.  Both masks of the source, ~((1u << k) - 1u) on 32 bits and 0xFF << k on 8 bits, have ones
 exactly from bit k up, so masking a word clears its k low bits; ClearLow is that operation by division.
 */
module Cidr {
  import opened Bits

  function ClearLow(x: nat, k: nat): nat { Shr(x, k) * Pow2(k) }

  /** Bit k of a word, from the least significant one. */
  predicate Bit(x: nat, k: nat) { Shr(x, k) % 2 == 1 }

  /** The p most significant bits of two w-bit words agree. */
  ghost predicate Agree(x: nat, y: nat, w: nat, p: nat)
    requires p <= w
  {
    forall k: nat :: w - p <= k < w ==> Bit(x, k) == Bit(y, k)
  }

  lemma ClearedEqual(x: nat, y: nat, k: nat)
    ensures ClearLow(x, k) == ClearLow(y, k) <==> Shr(x, k) == Shr(y, k)
  {
    Cancel(Shr(x, k), Shr(y, k), Pow2(k));
  }

  lemma Cancel(a: nat, b: nat, m: nat)
    requires m > 0
    ensures a * m == b * m <==> a == b
  {
  }

  /** Words of w bits are equal after clearing all but p bits exactly when those p bits agree one by one. */
  lemma {:induction false} MaskIsBitwise(x: nat, y: nat, w: nat, p: nat)
    requires x < Pow2(w) && y < Pow2(w) && p <= w
    ensures ClearLow(x, w - p) == ClearLow(y, w - p) <==> Agree(x, y, w, p)
  {
    ClearedEqual(x, y, w - p);
    if p == 0 {
      ShrSmall(x, w);
      ShrSmall(y, w);
    } else {
      MaskIsBitwise(x, y, w, p - 1);
      ClearedEqual(x, y, w - p + 1);
      ShrNext(x, w - p);
      ShrNext(y, w - p);
      AgreeGrows(x, y, w, p);
    }
  }

  lemma AgreeGrows(x: nat, y: nat, w: nat, p: nat)
    requires 0 < p <= w
    ensures Agree(x, y, w, p) <==> Agree(x, y, w, p - 1) && Bit(x, w - p) == Bit(y, w - p)
  {
  }

  // ----- IPv4: addresses in host order

  type Address4 = x: int | 0 <= x < 0x1_0000_0000

  predicate Matches4(client: Address4, base: Address4, prefix: nat) {
    if prefix == 0 then true
    else if prefix > 32 then false
    else ClearLow(client, 32 - prefix) == ClearLow(base, 32 - prefix)
  }

  lemma Pow2Values()
    ensures Pow2(8) == 0x100 && Pow2(32) == 0x1_0000_0000
  {
    assert Pow2(8) == 2 * Pow2(7) == 4 * Pow2(6) == 8 * Pow2(5) == 16 * Pow2(4) == 32 * Pow2(3);
    assert Pow2(16) == 2 * Pow2(15) == 4 * Pow2(14) == 8 * Pow2(13) == 16 * Pow2(12) == 32 * Pow2(11) == 64 * Pow2(10) == 128 * Pow2(9);
    assert Pow2(24) == 2 * Pow2(23) == 4 * Pow2(22) == 8 * Pow2(21) == 16 * Pow2(20) == 32 * Pow2(19) == 64 * Pow2(18) == 128 * Pow2(17);
    assert Pow2(32) == 2 * Pow2(31) == 4 * Pow2(30) == 8 * Pow2(29) == 16 * Pow2(28) == 32 * Pow2(27) == 64 * Pow2(26) == 128 * Pow2(25);
  }

  /** For every prefix length up to 32 the test accepts exactly when the first `prefix` bits agree; a longer one never matches. */
  lemma Matches4IsBitwise(client: Address4, base: Address4, prefix: nat)
    ensures Matches4(client, base, prefix) <==> prefix <= 32 && Agree(client, base, 32, prefix)
    ensures Matches4(client, base, prefix) ==> forall shorter: nat :: shorter <= prefix ==> Matches4(client, base, shorter)
  {
    Pow2Values();
    forall p: nat | p <= 32 ensures Matches4(client, base, p) <==> Agree(client, base, 32, p) {
      MaskIsBitwise(client, base, 32, p);
    }
  }

  // ----- IPv6: sixteen octets, compared by whole bytes and one masked byte

  type Octet = x: int | 0 <= x < 256
  type Address6 = a: seq<Octet> | |a| == 16 witness seq(16, i => 0)

  predicate Matches6(client: Address6, base: Address6, prefix: nat)
    requires prefix <= 128
  {
    var full, rem := prefix / 8, prefix % 8;
    client[..full] == base[..full] && (rem == 0 || ClearLow(client[full], 8 - rem) == ClearLow(base[full], 8 - rem))
  }

  /** Bit i of an address, counted from the first bit of the first octet. */
  predicate Bit6(a: Address6, i: nat)
    requires i < 128
  {
    Bit(a[i / 8], 7 - i % 8)
  }

  ghost predicate Agree6(client: Address6, base: Address6, prefix: nat)
    requires prefix <= 128
  {
    forall i: nat :: i < prefix ==> Bit6(client, i) == Bit6(base, i)
  }

  /** Bits of octet n join the agreement of all octets before it. */
  lemma NextOctet(client: Address6, base: Address6, n: nat, bits: nat)
    requires n < 16 && bits <= 8
    ensures Agree6(client, base, 8 * n + bits) <==> Agree6(client, base, 8 * n) && Agree(client[n], base[n], 8, bits)
  {
    forall k: nat | 8 - bits <= k < 8
      ensures Bit6(client, 8 * n + 7 - k) == Bit(client[n], k) && Bit6(base, 8 * n + 7 - k) == Bit(base[n], k)
    {
      assert (8 * n + 7 - k) / 8 == n && (8 * n + 7 - k) % 8 == 7 - k;
    }
    if Agree6(client, base, 8 * n) && Agree(client[n], base[n], 8, bits) {
      forall i: nat | i < 8 * n + bits ensures Bit6(client, i) == Bit6(base, i) {
        if i >= 8 * n { var k := 8 * n + 7 - i; assert 8 - bits <= k < 8 && i == 8 * n + 7 - k; }
      }
    }
  }

  lemma SameOctet(x: int, y: int)
    requires 0 <= x < 256 && 0 <= y < 256
    ensures x == y <==> Agree(x, y, 8, 8)
  {
    Pow2Values();
    MaskIsBitwise(x, y, 8, 8);
  }

  lemma OneMoreOctet(client: Address6, base: Address6, n: nat)
    requires n < 16
    ensures client[..n + 1] == base[..n + 1] <==> client[..n] == base[..n] && client[n] == base[n]
  {
    assert client[..n + 1] == client[..n] + [client[n]] && base[..n + 1] == base[..n] + [base[n]];
  }

  lemma {:induction false} WholeOctets(client: Address6, base: Address6, n: nat)
    requires n <= 16
    ensures client[..n] == base[..n] <==> Agree6(client, base, 8 * n)
  {
    if n > 0 {
      WholeOctets(client, base, n - 1);
      SameOctet(client[n - 1], base[n - 1]);
      OneMoreOctet(client, base, n - 1);
      NextOctet(client, base, n - 1, 8);
    }
  }

  /** For every prefix length up to 128 the test accepts exactly when the first `prefix` bits agree. */
  lemma Matches6IsBitwise(client: Address6, base: Address6, prefix: nat)
    requires prefix <= 128
    ensures Matches6(client, base, prefix) <==> Agree6(client, base, prefix)
  {
    var full, rem := prefix / 8, prefix % 8;
    WholeOctets(client, base, full);
    if rem > 0 {
      Pow2Values();
      MaskIsBitwise(client[full], base[full], 8, rem);
      NextOctet(client, base, full, rem);
    }
  }

  lemma ShorterPrefix6(client: Address6, base: Address6, prefix: nat, shorter: nat)
    requires shorter <= prefix <= 128 && Matches6(client, base, prefix)
    ensures Matches6(client, base, shorter)
  {
    Matches6IsBitwise(client, base, prefix);
    Matches6IsBitwise(client, base, shorter);
  }
}
