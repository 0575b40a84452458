/** 32-bit words as the source uses them: bitwise and, population count, byte order, and network masks. */
module Words {

  const WORD_LIMIT := 0x1_0000_0000

  const WORD_BITS: nat := 32

  /** Bitwise and. */
  function And(x: nat, y: nat): nat {
    if x == 0 || y == 0 then 0 else (if x % 2 == 1 && y % 2 == 1 then 1 else 0) + 2 * And(x / 2, y / 2)
  }

  /** The number of one bits: `bin(n).count("1")`. */
  function Popcount(n: nat): nat {
    if n == 0 then 0 else n % 2 + Popcount(n / 2)
  }

  /** The word of four bytes, the first one most significant. */
  function BigEndian(a: nat, b: nat, c: nat, d: nat): nat {
    ((a * 256 + b) * 256 + c) * 256 + d
  }

  predicate IsByte(n: nat) {
    n < 256
  }

  /** `unpack(">I", pack("<I", v))`. */
  function SwapBytes(v: nat): (r: nat)
    requires v < WORD_LIMIT
    ensures r < WORD_LIMIT
  {
    BigEndian(v % 256, v / 256 % 256, v / 65536 % 256, v / 16777216)
  }

  /** Some number of ones, then zeros, in `width` bits. */
  predicate IsMask(m: nat, width: nat) {
    if width == 0 then m == 0
    else if m % 2 == 0 then IsMask(m / 2, width - 1)
    else m == Ones(width)
  }

  /** `width` one bits. */
  function Ones(width: nat): nat {
    if width == 0 then 0 else 2 * Ones(width - 1) + 1
  }

  // ---- Byte order ----

  /** The word whose bytes are d, c, b, a turns into the word whose bytes are a, b, c, d. */
  lemma SwapReverses(a: nat, b: nat, c: nat, d: nat)
    requires IsByte(a) && IsByte(b) && IsByte(c) && IsByte(d)
    ensures BigEndian(d, c, b, a) < WORD_LIMIT
    ensures SwapBytes(BigEndian(d, c, b, a)) == BigEndian(a, b, c, d)
  {
    var v2 := (d * 256 + c) * 256 + b;
    var v := v2 * 256 + a;
    LastByte(v2, a);
    LastByte(d * 256 + c, b);
    LastByte(d, c);
    DivideTwice(v);
    assert v / 256 == v2 && v / 65536 == d * 256 + c && v / 16777216 == d;
  }

  lemma LastByte(high: nat, low: nat)
    requires IsByte(low)
    ensures (high * 256 + low) % 256 == low && (high * 256 + low) / 256 == high
  {
  }

  lemma DivideTwice(v: nat)
    ensures v / 65536 == v / 256 / 256 && v / 16777216 == v / 256 / 256 / 256
  {
  }

  lemma Bytes(v: nat)
    requires v < WORD_LIMIT
    ensures v == BigEndian(v / 16777216, v / 65536 % 256, v / 256 % 256, v % 256)
    ensures v / 16777216 < 256
  {
    DivideTwice(v);
    var v1, v2 := v / 256, v / 256 / 256;
    assert v == v1 * 256 + v % 256 && v1 == v2 * 256 + v1 % 256 && v2 == v2 / 256 * 256 + v2 % 256;
  }

  /** Swapping twice changes nothing. */
  lemma SwapTwice(v: nat)
    requires v < WORD_LIMIT
    ensures SwapBytes(SwapBytes(v)) == v
  {
    Bytes(v);
    SwapReverses(v / 16777216, v / 65536 % 256, v / 256 % 256, v % 256);
    SwapReverses(v % 256, v / 256 % 256, v / 65536 % 256, v / 16777216);
  }

  /** `x` moved up by `k` bits. */
  function Shifted(x: nat, k: nat): nat {
    if k == 0 then x else 2 * Shifted(x, k - 1)
  }

  /** Bits from position k up and bits below it are counted apart. */
  lemma {:induction false} PopcountSplits(high: nat, low: nat, k: nat)
    requires low < Shifted(1, k)
    ensures Popcount(Shifted(high, k) + low) == Popcount(high) + Popcount(low)
  {
    if k > 0 {
      var n := Shifted(high, k) + low;
      assert n % 2 == low % 2 && n / 2 == Shifted(high, k - 1) + low / 2;
      PopcountSplits(high, low / 2, k - 1);
    }
  }

  lemma ShiftedTwice(x: nat, k: nat)
    ensures Shifted(x, k + 2) == 4 * Shifted(x, k)
  {
    assert Shifted(x, k + 2) == 2 * Shifted(x, k + 1);
  }

  lemma ShiftedByByte(x: nat)
    ensures Shifted(x, 8) == x * 256
  {
    ShiftedTwice(x, 0);
    ShiftedTwice(x, 2);
    ShiftedTwice(x, 4);
    ShiftedTwice(x, 6);
  }

  lemma PopcountOfByte(high: nat, low: nat)
    requires IsByte(low)
    ensures Popcount(high * 256 + low) == Popcount(high) + Popcount(low)
  {
    ShiftedByByte(1);
    ShiftedByByte(high);
    PopcountSplits(high, low, 8);
  }

  lemma PopcountOfBytes(a: nat, b: nat, c: nat, d: nat)
    requires IsByte(b) && IsByte(c) && IsByte(d)
    ensures Popcount(BigEndian(a, b, c, d)) == Popcount(a) + Popcount(b) + Popcount(c) + Popcount(d)
  {
    PopcountOfByte(a, b);
    PopcountOfByte(a * 256 + b, c);
    PopcountOfByte((a * 256 + b) * 256 + c, d);
  }

  /** Reversing the bytes of a mask keeps the number of its ones, which is what the routes are sorted by. */
  lemma SwapKeepsPopcount(v: nat)
    requires v < WORD_LIMIT
    ensures Popcount(SwapBytes(v)) == Popcount(v)
  {
    Bytes(v);
    PopcountOfBytes(v / 16777216, v / 65536 % 256, v / 256 % 256, v % 256);
    PopcountOfBytes(v % 256, v / 256 % 256, v / 65536 % 256, v / 16777216);
  }

  // ---- And, masks ----

  lemma AndHalves(x: nat, y: nat)
    ensures And(x, y) % 2 == (if x % 2 == 1 && y % 2 == 1 then 1 else 0)
    ensures And(x, y) / 2 == And(x / 2, y / 2)
  {
  }

  function Bit(x: nat, i: nat): nat {
    if i == 0 then x % 2 else Bit(x / 2, i - 1)
  }

  /** Each bit of And is the product of the operands' bits. */
  lemma {:induction false} AndIsBitwise(x: nat, y: nat, i: nat)
    ensures Bit(And(x, y), i) == (if Bit(x, i) == 1 && Bit(y, i) == 1 then 1 else 0)
    decreases i
  {
    AndHalves(x, y);
    if i > 0 {
      AndIsBitwise(x / 2, y / 2, i - 1);
    }
  }

  lemma {:induction false} AndAssociates(x: nat, y: nat, z: nat)
    ensures And(And(x, y), z) == And(x, And(y, z))
    decreases x
  {
    if x > 0 {
      AndHalves(x, y);
      AndHalves(y, z);
      AndHalves(And(x, y), z);
      AndHalves(x, And(y, z));
      AndAssociates(x / 2, y / 2, z / 2);
    }
  }

  lemma {:induction false} OnesAreNeutral(m: nat, width: nat)
    requires IsMask(m, width)
    ensures m <= Ones(width) && And(Ones(width), m) == m
    ensures Popcount(m) <= width && (Popcount(m) == width ==> m == Ones(width))
    decreases width
  {
    if width > 0 {
      AndHalves(Ones(width), m);
      assert Ones(width) / 2 == Ones(width - 1) && Ones(width) % 2 == 1 && Popcount(m) == m % 2 + Popcount(m / 2);
      if m % 2 == 0 {
        OnesAreNeutral(m / 2, width - 1);
      } else {
        OnesIsMask(width - 1);
        OnesAreNeutral(Ones(width - 1), width - 1);
      }
    }
  }

  lemma {:induction false} OnesIsMask(width: nat)
    ensures IsMask(Ones(width), width) && Popcount(Ones(width)) == width
  {
    if width > 0 {
      OnesIsMask(width - 1);
    }
  }

  /** Of two contiguous masks the one with at least as many ones has all the ones of the other. */
  lemma {:induction false} MasksNest(m: nat, k: nat, width: nat)
    requires IsMask(m, width) && IsMask(k, width) && Popcount(m) >= Popcount(k)
    ensures And(m, k) == k
    decreases width
  {
    if width > 0 {
      AndHalves(m, k);
      if m % 2 == 1 {
        OnesAreNeutral(k, width);
      } else if k % 2 == 1 {
        OnesIsMask(width);
        OnesAreNeutral(m / 2, width - 1);
        assert false;
      } else {
        MasksNest(m / 2, k / 2, width - 1);
      }
    }
  }

  /** An address lies in the subnet of network word `net` under `mask`. */
  predicate InSubnet(address: nat, net: nat, mask: nat) {
    And(address, mask) == And(net, mask)
  }

  /** If two contiguous subnets share an address, the one with the longer mask lies inside the other. */
  lemma LongerMaskIsInside(address: nat, net1: nat, mask1: nat, net2: nat, mask2: nat, x: nat)
    requires IsMask(mask1, WORD_BITS) && IsMask(mask2, WORD_BITS) && Popcount(mask1) >= Popcount(mask2)
    requires InSubnet(address, net1, mask1) && InSubnet(address, net2, mask2)
    requires InSubnet(x, net1, mask1)
    ensures InSubnet(x, net2, mask2)
  {
    MasksNest(mask1, mask2, WORD_BITS);
    AndAssociates(x, mask1, mask2);
    AndAssociates(net1, mask1, mask2);
    AndAssociates(address, mask1, mask2);
  }

  lemma {:induction false} BitsDetermine(x: nat, y: nat)
    requires forall i: nat :: Bit(x, i) == Bit(y, i)
    ensures x == y
    decreases x + y
  {
    if x > 0 || y > 0 {
      assert Bit(x, 0) == Bit(y, 0);
      forall i: nat
        ensures Bit(x / 2, i) == Bit(y / 2, i)
      {
        assert Bit(x, i + 1) == Bit(y, i + 1);
      }
      BitsDetermine(x / 2, y / 2);
    }
  }

  /** The two words have the same bit wherever the mask has a one. */
  ghost predicate AgreeUnder(mask: nat, x: nat, y: nat) {
    forall i: nat :: Bit(mask, i) == 1 ==> (Bit(x, i) == 1 <==> Bit(y, i) == 1)
  }

  /** An address lies in a subnet exactly if it has the bits of the network word wherever the mask has a one. */
  lemma InSubnetIffBitsAgree(address: nat, net: nat, mask: nat)
    ensures InSubnet(address, net, mask) <==> AgreeUnder(mask, address, net)
  {
    forall i: nat
      ensures Bit(And(address, mask), i) == (if Bit(address, i) == 1 && Bit(mask, i) == 1 then 1 else 0)
      ensures Bit(And(net, mask), i) == (if Bit(net, i) == 1 && Bit(mask, i) == 1 then 1 else 0)
    {
      AndIsBitwise(address, mask, i);
      AndIsBitwise(net, mask, i);
    }
    if AgreeUnder(mask, address, net) {
      BitsDetermine(And(address, mask), And(net, mask));
    }
    if InSubnet(address, net, mask) {
      forall i: nat | Bit(mask, i) == 1
        ensures Bit(address, i) == 1 <==> Bit(net, i) == 1
      {
        assert Bit(And(address, mask), i) == Bit(And(net, mask), i);
      }
    }
  }

  /** A contiguous mask is its ones moved up to the top of the word, and it has as many ones as that. */
  lemma {:induction false} MaskIsShiftedOnes(m: nat, width: nat)
    ensures IsMask(m, width) <==> exists k: nat :: k <= width && m == Shifted(Ones(k), width - k)
    ensures forall k: nat :: k <= width && m == Shifted(Ones(k), width - k) ==> Popcount(m) == k
  {
    forall k: nat | k <= width && m == Shifted(Ones(k), width - k)
      ensures IsMask(m, width) && Popcount(m) == k
    {
      ShiftedOnes(k, width);
    }
    if IsMask(m, width) {
      var k := MaskLength(m, width);
    }
  }

  lemma {:induction false} ShiftedOnes(k: nat, width: nat)
    requires k <= width
    ensures IsMask(Shifted(Ones(k), width - k), width) && Popcount(Shifted(Ones(k), width - k)) == k
    decreases width - k
  {
    if k == width {
      OnesIsMask(width);
    } else {
      ShiftedOnes(k, width - 1);
      assert Shifted(Ones(k), width - k) == 2 * Shifted(Ones(k), width - 1 - k);
    }
  }

  lemma {:induction false} MaskLength(m: nat, width: nat) returns (k: nat)
    requires IsMask(m, width)
    ensures k <= width && m == Shifted(Ones(k), width - k)
    decreases width
  {
    if width == 0 || m % 2 == 1 {
      k := width;
    } else {
      k := MaskLength(m / 2, width - 1);
      assert Shifted(Ones(k), width - k) == 2 * Shifted(Ones(k), width - 1 - k);
    }
  }
}
