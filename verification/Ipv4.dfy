/**
IPv4 address blocks as `ipaddress.IPv4Network` sees them: addresses are the integers below 2^32,
a block is a base address and a prefix length, and membership masks the host bits away.
*/
module Ipv4 {

  const ADDRESS_SPACE := 0x1_0000_0000

  datatype Cidr = Cidr(base: nat, prefixLen: nat)

  function Pow2(k: nat): (r: nat)
    ensures r > 0
  {
    if k == 0 then 1 else 2 * Pow2(k - 1)
  }

  function Size(c: Cidr): (r: nat)
    requires c.prefixLen <= 32
    ensures r > 0
  {
    Pow2(32 - c.prefixLen)
  }

  /** What the constructor accepts: a prefix of at most 32 bits and no host bit set. */
  predicate Valid(c: Cidr) {
    c.prefixLen <= 32 && c.base < ADDRESS_SPACE && c.base % Size(c) == 0
  }

  /** One past the broadcast address. */
  function Stop(c: Cidr): nat
    requires c.prefixLen <= 32
  {
    c.base + Size(c)
  }

  /** `address in network`: the address with its host bits cleared is the network address. */
  predicate Contains(c: Cidr, a: nat)
    requires c.prefixLen <= 32
  {
    a - a % Size(c) == c.base
  }

  lemma MulMono(x: int, y: int, s: nat)
    requires x <= y
    ensures x * s <= y * s
  {
    assert (y - x) * s >= 0;
    assert (y - x) * s == y * s - x * s;
  }

  lemma QuotientRemainder(q: nat, s: nat, r: nat)
    requires r < s
    ensures (q * s + r) % s == r
    ensures (q * s + r) / s == q
  {
    var x := q * s + r;
    assert x == s * (x / s) + x % s;
    if x / s > q { MulMono(q + 1, x / s, s); }
    if x / s < q { MulMono(x / s + 1, q, s); }
  }

  /** Masking agrees with the interval from the network address up to the broadcast address. */
  lemma ContainsIsInterval(c: Cidr, a: nat)
    requires Valid(c)
    ensures Contains(c, a) <==> c.base <= a < Stop(c)
  {
    var s := Size(c);
    if c.base <= a < Stop(c) {
      var q := c.base / s;
      assert q * s == c.base;
      QuotientRemainder(q, s, a - c.base);
      assert a == q * s + (a - c.base);
    }
  }

  lemma Pow2Add(i: nat, j: nat)
    ensures Pow2(i + j) == Pow2(i) * Pow2(j)
  {
    if j == 0 {
    } else {
      Pow2Add(i, j - 1);
      calc {
        Pow2(i + j);
        2 * Pow2(i + (j - 1));
        2 * (Pow2(i) * Pow2(j - 1));
        Pow2(i) * (2 * Pow2(j - 1));
      }
    }
  }

  /** A block with the shorter prefix is a whole number of blocks of the longer one. */
  lemma SizeDivides(wide: Cidr, narrow: Cidr) returns (t: nat)
    requires wide.prefixLen <= narrow.prefixLen <= 32
    ensures t > 0 && Size(wide) == t * Size(narrow)
  {
    var i, j := 32 - narrow.prefixLen, narrow.prefixLen - wide.prefixLen;
    t := Pow2(j);
    Pow2Add(j, i);
    assert j + i == 32 - wide.prefixLen;
  }

  /** On a grid of step `s`, a cell [k*s, (k+1)*s) that meets [m*s, n*s) lies inside it. */
  lemma CellInsideRange(k: nat, m: nat, n: nat, s: nat, x: nat)
    requires s > 0
    requires k * s <= x < (k + 1) * s && m * s <= x < n * s
    ensures m * s <= k * s && (k + 1) * s <= n * s
  {
    if k < m { MulMono(k + 1, m, s); }
    if n < k + 1 { MulMono(n, k, s); }
    MulMono(m, k, s);
    MulMono(k + 1, n, s);
  }

  lemma BlocksOnGrid(wide: nat, narrow: nat, s: nat, t: nat, x: nat)
    requires s > 0 && t > 0 && t * s > 0 && wide % (t * s) == 0 && narrow % s == 0
    requires wide <= x < wide + t * s && narrow <= x < narrow + s
    ensures wide <= narrow && narrow + s <= wide + t * s
  {
    var kw, kn := wide / (t * s), narrow / s;
    var m := kw * t;
    assert wide == m * s by {
      assert wide == kw * (t * s);
      assert kw * (t * s) == (kw * t) * s;
    }
    assert (m + t) * s == m * s + t * s;
    assert (kn + 1) * s == kn * s + s;
    CellInsideRange(kn, m, m + t, s, x);
  }

  /**
  Two blocks that share an address are nested, and the one with the longer prefix is inside.
  The block structure behind longest-match forwarding in section 5.1 of RFC 4632.
  */
  lemma NestedOrDisjoint(wide: Cidr, narrow: Cidr, shared: nat)
    requires Valid(wide) && Valid(narrow) && wide.prefixLen <= narrow.prefixLen
    requires Contains(wide, shared) && Contains(narrow, shared)
    ensures wide.base <= narrow.base && Stop(narrow) <= Stop(wide)
    ensures forall a: nat :: Contains(narrow, a) ==> Contains(wide, a)
  {
    var t := SizeDivides(wide, narrow);
    ContainsIsInterval(wide, shared);
    ContainsIsInterval(narrow, shared);
    BlocksOnGrid(wide.base, narrow.base, Size(narrow), t, shared);
    forall a: nat | Contains(narrow, a)
      ensures Contains(wide, a)
    {
      ContainsIsInterval(narrow, a);
      ContainsIsInterval(wide, a);
    }
  }

  lemma Pow2Of32()
    ensures Pow2(32) == ADDRESS_SPACE
  {
    assert Pow2(4) == 16;
    Pow2Add(4, 4);
    Pow2Add(8, 8);
    Pow2Add(16, 16);
  }

  /** No block reaches past the address space. */
  lemma StopInSpace(c: Cidr)
    requires Valid(c)
    ensures Stop(c) <= ADDRESS_SPACE
  {
    var all := Cidr(0, 0);
    Pow2Of32();
    ContainsIsInterval(all, c.base);
    assert Contains(all, c.base);
    ContainsIsInterval(c, c.base);
    NestedOrDisjoint(all, c, c.base);
  }

  // ----- blocks as shared leading bits

  /** Bit `i` of an address, counted from the most significant one. */
  function Bit(a: nat, i: nat): (b: nat)
    requires i < 32
    ensures b < 2
  {
    a / Pow2(31 - i) % 2
  }

  /** The address begins with the block's prefix. */
  predicate SharesPrefix(c: Cidr, a: nat)
    requires c.prefixLen <= 32
  {
    a < 0x1_0000_0000 && forall i :: 0 <= i < c.prefixLen ==> Bit(a, i) == Bit(c.base, i)
  }

  /** A prefix of `p` bits leaves a 2^p-th part of the address space. */
  lemma SizeIsExact(c: Cidr)
    requires c.prefixLen <= 32
    ensures Size(c) * Pow2(c.prefixLen) == 0x1_0000_0000
  {
    Pow2Add(32 - c.prefixLen, c.prefixLen);
    Pow2Of32();
  }

  lemma DivTwice(a: nat, s: nat)
    requires s > 0
    ensures a / s / 2 == a / (2 * s)
  {
    var q := a / s;
    assert a == q * s + a % s;
    var h, b := q / 2, q % 2;
    assert q * s == h * (2 * s) + b * s by {
      assert q == 2 * h + b;
      assert (2 * h + b) * s == h * (2 * s) + b * s;
    }
    assert b * s + a % s < 2 * s by {
      MulMono(b, 1, s);
    }
    QuotientRemainder(h, 2 * s, b * s + a % s);
  }

  /** Cutting off one bit less keeps one bit more. */
  lemma NextBit(a: nat, p: nat)
    requires 0 < p <= 32
    ensures a / Pow2(32 - p) == 2 * (a / Pow2(33 - p)) + Bit(a, p - 1)
  {
    DivTwice(a, Pow2(32 - p));
    assert Pow2(33 - p) == 2 * Pow2(32 - p);
  }

  /** Addresses have the same first `p` bits exactly when they are the same with the others cut off. */
  lemma {:induction false} SameBitsIff(a: nat, b: nat, p: nat)
    requires a < ADDRESS_SPACE && b < ADDRESS_SPACE && p <= 32
    ensures a / Pow2(32 - p) == b / Pow2(32 - p) <==> forall i :: 0 <= i < p ==> Bit(a, i) == Bit(b, i)
  {
    if p == 0 {
      Pow2Of32();
    } else {
      SameBitsIff(a, b, p - 1);
      NextBit(a, p);
      NextBit(b, p);
    }
  }

  /** On a multiple of `s`, masking compares quotients. */
  lemma MaskedIff(a: nat, base: nat, s: nat)
    requires s > 0 && base % s == 0
    ensures a - a % s == base <==> a / s == base / s
  {
    assert a == a / s * s + a % s && base == base / s * s;
    if a - a % s == base {
      QuotientRemainder(base / s, s, a % s);
    }
  }

  /** An address lies in a block exactly when it begins with the block's prefix. */
  lemma ContainsIsPrefix(c: Cidr, a: nat)
    requires Valid(c) && a < ADDRESS_SPACE
    ensures Contains(c, a) <==> SharesPrefix(c, a)
  {
    SameBitsIff(a, c.base, c.prefixLen);
    MaskedIff(a, c.base, Size(c));
  }

  /** No address outside the address space lies in a block. */
  lemma ContainsInSpace(c: Cidr, a: nat)
    requires Valid(c) && Contains(c, a)
    ensures a < ADDRESS_SPACE
  {
    ContainsIsInterval(c, a);
    StopInSpace(c);
  }

  lemma ClearMore(a: nat, s: nat)
    requires s > 0
    ensures a % (2 * s) == 0 <==> a % s == 0 && a / s % 2 == 0
  {
    var h, r := a / s / 2, a % s;
    assert a == a / s * s + r;
    if a / s % 2 == 0 {
      assert a / s == 2 * h;
      assert 2 * h * s == h * (2 * s);
      QuotientRemainder(h, 2 * s, r);
    } else {
      assert a / s == 2 * h + 1;
      assert (2 * h + 1) * s == h * (2 * s) + s;
      QuotientRemainder(h, 2 * s, s + r);
    }
  }

  lemma {:induction false} LowBitsClear(a: nat, p: nat)
    requires p <= 32
    ensures a % Pow2(32 - p) == 0 <==> forall i :: p <= i < 32 ==> Bit(a, i) == 0
    decreases 32 - p
  {
    if p < 32 {
      LowBitsClear(a, p + 1);
      ClearMore(a, Pow2(31 - p));
      assert Pow2(32 - p) == 2 * Pow2(31 - p);
      assert Bit(a, p) == 0 <==> a / Pow2(31 - p) % 2 == 0;
    } else {
      assert a % 1 == 0;
    }
  }

  /** What the constructor accepts: at most 32 leading bits, and every bit after them is zero. */
  lemma ValidIff(c: Cidr)
    ensures Valid(c) <==>
      && c.prefixLen <= 32 && c.base < 0x1_0000_0000
      && forall i :: c.prefixLen <= i < 32 ==> Bit(c.base, i) == 0
  {
    if c.prefixLen <= 32 {
      LowBitsClear(c.base, c.prefixLen);
    }
  }
}
