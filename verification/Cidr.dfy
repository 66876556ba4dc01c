/** CIDR blocks over byte strings: masks, containment and byte order (net.IPNet, bytes.Compare). */
module Cidr {
  import opened Bytes
  import opened Bits

  // An IP address in its 4-byte or 16-byte form.
  type IP = bytes

  datatype Block = Block(ip: IP, prefix: nat)

  // ---- One byte ----

  // The byte with the k high bits set, ^(0xff >> k).
  function Ones(k: nat): byte
    requires k <= 8
  {
    match k
    case 0 => 0x00 case 1 => 0x80 case 2 => 0xC0 case 3 => 0xE0 case 4 => 0xF0
    case 5 => 0xF8 case 6 => 0xFC case 7 => 0xFE case 8 => 0xFF
  }

  predicate SameUnder(a: byte, b: byte, m: byte) { And(a, m) == And(b, m) }

  lemma {:induction false} AndComplement(a: nat, l: nat, n: nat)
    requires High(a, n) == 0 && High(l, n) == 0 && l < Pow2(n)
    ensures And(a, Pow2(n) - 1 - l) == AndNot(a, l)
    decreases n
  {
    if n > 0 && a > 0 {
      var m := Pow2(n) - 1 - l;
      assert m % 2 == 1 - l % 2 && m / 2 == Pow2(n - 1) - 1 - l / 2;
      AndComplement(a / 2, l / 2, n - 1);
    }
  }

  lemma {:induction false} HighZero(a: nat, n: nat)
    ensures High(a, n) == 0 <==> a < Pow2(n)
    decreases n
  {
    if n > 0 {
      HighZero(a / 2, n - 1);
    }
  }

  lemma {:induction false} Pow2To8()
    ensures Pow2(0) == 1 && Pow2(1) == 2 && Pow2(2) == 4 && Pow2(3) == 8 && Pow2(4) == 16
    ensures Pow2(5) == 32 && Pow2(6) == 64 && Pow2(7) == 128 && Pow2(8) == 256
  {
    assert Pow2(4) == 16;
    assert Pow2(6) == 64;
  }

  lemma {:induction false} OnesValue(k: nat)
    requires k <= 8
    ensures Ones(k) == Pow2(8) - Pow2(8 - k) && Pow2(8 - k) <= Pow2(8) == 256
  {
    Pow2To8();
  }

  // A mask of k high bits compares the digits above the other 8 - k.
  lemma {:induction false} AndOnes(a: byte, k: nat)
    requires k <= 8
    ensures And(a, Ones(k)) == a - Low(a, 8 - k)
  {
    OnesValue(k);
    hide Pow2, Ones;
    var l := Pow2(8 - k) - 1;
    HighZero(a, 8);
    HighZero(l, 8);
    AndComplement(a, l, 8);
    AndNotMask(a, 8 - k);
  }

  lemma {:induction false} SameUnderOnes(a: byte, b: byte, k: nat)
    requires k <= 8
    ensures SameUnder(a, b, Ones(k)) <==> High(a, 8 - k) == High(b, 8 - k)
  {
    AndOnes(a, k);
    AndOnes(b, k);
    Digits(a, 8 - k);
    Digits(b, 8 - k);
    Multiples(Pow2(8 - k), High(a, 8 - k), High(b, 8 - k));
  }

  lemma {:induction false} Multiples(p: nat, x: nat, y: nat)
    requires p > 0
    ensures p * x == p * y <==> x == y
  {
  }

  lemma {:induction false} HighMonotone(a: nat, b: nat, k: nat)
    requires a <= b
    ensures High(a, k) <= High(b, k)
    decreases k
  {
    if k > 0 {
      HighMonotone(a / 2, b / 2, k - 1);
    }
  }

  // ---- Masks ----

  // net.CIDRMask over n bytes.
  function MaskBytes(ones: nat, n: nat): (m: IP)
    ensures |m| == n
    decreases n
  {
    if n == 0 then []
    else if ones >= 8 then [0xFF] + MaskBytes(ones - 8, n - 1)
    else [Ones(ones)] + MaskBytes(0, n - 1)
  }

  // nn[i] & m[i] == ip[i] & m[i] for every byte.
  predicate MaskedEqual(x: IP, y: IP, m: IP) {
    |x| == |y| == |m| && forall i :: 0 <= i < |x| ==> SameUnder(x[i], y[i], m[i])
  }

  // The same with the mask unrolled.
  predicate Agree(x: IP, y: IP, n: nat)
    decreases |x|
  {
    |x| == |y| &&
    (x == [] ||
      if n >= 8 then x[0] == y[0] && Agree(x[1..], y[1..], n - 8)
      else High(x[0], 8 - n) == High(y[0], 8 - n))
  }

  lemma {:induction false} MaskedCons(x: IP, y: IP, m: IP)
    requires x != [] && |x| == |y| == |m|
    ensures MaskedEqual(x, y, m) <==> SameUnder(x[0], y[0], m[0]) && MaskedEqual(x[1..], y[1..], m[1..])
  {
    if MaskedEqual(x[1..], y[1..], m[1..]) && SameUnder(x[0], y[0], m[0]) {
      forall i | 0 <= i < |x| ensures SameUnder(x[i], y[i], m[i]) {
        if i > 0 {
          assert SameUnder(x[1..][i - 1], y[1..][i - 1], m[1..][i - 1]);
        }
      }
    }
    if MaskedEqual(x, y, m) {
      forall i | 0 <= i < |x[1..]| ensures SameUnder(x[1..][i], y[1..][i], m[1..][i]) {
        assert SameUnder(x[i + 1], y[i + 1], m[i + 1]);
      }
    }
  }

  lemma {:induction false} MaskZero(x: IP, y: IP)
    requires |x| == |y|
    ensures MaskedEqual(x, y, MaskBytes(0, |x|))
    decreases |x|
  {
    if x != [] {
      var m := MaskBytes(0, |x|);
      assert m[1..] == MaskBytes(0, |x| - 1);
      MaskZero(x[1..], y[1..]);
      MaskedCons(x, y, m);
    }
  }

  lemma {:induction false} AgreeIsMasked(x: IP, y: IP, n: nat)
    requires |x| == |y|
    ensures Agree(x, y, n) <==> MaskedEqual(x, y, MaskBytes(n, |x|))
    decreases |x|
  {
    if x != [] {
      var m := MaskBytes(n, |x|);
      MaskedCons(x, y, m);
      if n >= 8 {
        assert m[1..] == MaskBytes(n - 8, |x| - 1);
        SameUnderOnes(x[0], y[0], 8);
        AgreeIsMasked(x[1..], y[1..], n - 8);
      } else {
        assert m[1..] == MaskBytes(0, |x| - 1);
        SameUnderOnes(x[0], y[0], n);
        MaskZero(x[1..], y[1..]);
      }
    }
  }

  // ---- Reference: the first n bits agree (section 3.1 of RFC 4632) ----

  // Bit j of a byte, counted from its front.
  function BitOf(a: byte, j: nat): nat
    requires j < 8
  {
    High(a, 7 - j) % 2
  }

  // Bit i of an address, counted from its front.
  function Bit(x: IP, i: nat): nat
    requires i < 8 * |x|
  {
    BitOf(x[i / 8], i % 8)
  }

  predicate SameBits(a: byte, b: byte, k: nat)
    requires k <= 8
  {
    forall j :: 0 <= j < k ==> BitOf(a, j) == BitOf(b, j)
  }

  predicate SamePrefix(x: IP, y: IP, n: nat)
    requires |x| == |y| && n <= 8 * |x|
  {
    forall i :: 0 <= i < n ==> Bit(x, i) == Bit(y, i)
  }

  lemma {:induction false} HighStep(a: byte, b: byte, k: nat)
    requires 1 <= k <= 8
    ensures High(a, 8 - k) == High(b, 8 - k) <==> High(a, 9 - k) == High(b, 9 - k) && BitOf(a, k - 1) == BitOf(b, k - 1)
  {
    HighOfHigh(a, 8 - k, 1);
    HighOfHigh(b, 8 - k, 1);
    HalfOnce(High(a, 8 - k));
    HalfOnce(High(b, 8 - k));
  }

  lemma {:induction false} HalfOnce(h: nat)
    ensures High(h, 1) == h / 2
  {
    assert High(h / 2, 0) == h / 2;
  }

  lemma {:induction false} HighBits(a: byte, b: byte, k: nat)
    requires k <= 8
    ensures High(a, 8 - k) == High(b, 8 - k) <==> SameBits(a, b, k)
  {
    if k == 0 {
      Pow2To8();
      HighZero(a, 8);
      HighZero(b, 8);
    } else {
      HighBits(a, b, k - 1);
      HighStep(a, b, k);
      assert SameBits(a, b, k) <==> SameBits(a, b, k - 1) && BitOf(a, k - 1) == BitOf(b, k - 1);
    }
  }

  lemma {:induction false} BitOfTop(a: byte)
    ensures BitOf(a, 0) == a / 0x80
  {
    Pow2To8();
    LowIsMod(a, 7);
  }

  lemma {:induction false} BitOfTail(x: IP, i: nat)
    requires x != [] && i < 8 * (|x| - 1)
    ensures Bit(x[1..], i) == Bit(x, i + 8)
  {
  }

  lemma {:induction false} SamePrefixCons(x: IP, y: IP, n: nat)
    requires x != [] && |x| == |y| && 8 <= n <= 8 * |x|
    ensures SamePrefix(x, y, n) <==> SameBits(x[0], y[0], 8) && SamePrefix(x[1..], y[1..], n - 8)
  {
    if SamePrefix(x, y, n) {
      forall j | 0 <= j < 8 ensures BitOf(x[0], j) == BitOf(y[0], j) {
        assert Bit(x, j) == Bit(y, j);
      }
      forall i | 0 <= i < n - 8 ensures Bit(x[1..], i) == Bit(y[1..], i) {
        BitOfTail(x, i);
        BitOfTail(y, i);
        assert Bit(x, i + 8) == Bit(y, i + 8);
      }
    }
    if SameBits(x[0], y[0], 8) && SamePrefix(x[1..], y[1..], n - 8) {
      forall i | 0 <= i < n ensures Bit(x, i) == Bit(y, i) {
        if i >= 8 {
          BitOfTail(x, i - 8);
          BitOfTail(y, i - 8);
          assert Bit(x[1..], i - 8) == Bit(y[1..], i - 8);
        } else {
          assert BitOf(x[0], i) == BitOf(y[0], i);
        }
      }
    }
  }

  lemma {:induction false} SamePrefixByte(x: IP, y: IP, n: nat)
    requires x != [] && |x| == |y| && n < 8
    ensures SamePrefix(x, y, n) <==> SameBits(x[0], y[0], n)
  {
    forall j | 0 <= j < n ensures Bit(x, j) == BitOf(x[0], j) && Bit(y, j) == BitOf(y[0], j) {
    }
    if SamePrefix(x, y, n) {
      forall j | 0 <= j < n ensures BitOf(x[0], j) == BitOf(y[0], j) {
        assert Bit(x, j) == Bit(y, j);
      }
    }
    if SameBits(x[0], y[0], n) {
      forall i | 0 <= i < n ensures Bit(x, i) == Bit(y, i) {
        assert BitOf(x[0], i) == BitOf(y[0], i);
      }
    }
  }

  lemma {:induction false} AgreeIsBits(x: IP, y: IP, n: nat)
    requires |x| == |y| && n <= 8 * |x|
    ensures Agree(x, y, n) <==> SamePrefix(x, y, n)
    decreases |x|
  {
    if x != [] {
      if n >= 8 {
        SamePrefixCons(x, y, n);
        AgreeIsBits(x[1..], y[1..], n - 8);
        HighBits(x[0], y[0], 8);
      } else {
        SamePrefixByte(x, y, n);
        HighBits(x[0], y[0], n);
      }
    }
  }

  // ---- bytes.Compare on addresses ----

  // a comes before b.
  predicate Less(a: IP, b: IP)
    decreases |a|
  {
    b != [] && (a == [] || a[0] < b[0] || (a[0] == b[0] && Less(a[1..], b[1..])))
  }

  lemma {:induction false} LessTransitive(a: IP, b: IP, c: IP)
    ensures Less(a, b) && !Less(c, b) ==> Less(a, c)
    ensures !Less(b, a) && Less(b, c) ==> Less(a, c)
    ensures !Less(b, a) && !Less(c, b) ==> !Less(c, a)
    ensures !(Less(a, b) && Less(b, a))
    decreases |a| + |b| + |c|
  {
    if a != [] && b != [] && c != [] {
      LessTransitive(a[1..], b[1..], c[1..]);
    } else if a != [] && b != [] {
      LessTransitive(a[1..], b[1..], c);
    }
  }

  lemma {:induction false} LessTotal(a: IP, b: IP)
    requires |a| == |b|
    ensures !Less(a, b) && !Less(b, a) <==> a == b
    decreases |a|
  {
    if a != [] {
      LessTotal(a[1..], b[1..]);
      assert a == [a[0]] + a[1..] && b == [b[0]] + b[1..];
    }
  }

  // A block is an interval of this order: it holds everything between two of its members.
  lemma {:induction false} BlockConvex(x: IP, y: IP, z: IP, n: nat)
    requires |x| == |y| == |z| && !Less(y, x) && !Less(z, y) && Agree(x, z, n)
    ensures Agree(x, y, n)
    decreases |x|
  {
    if x != [] {
      if n >= 8 {
        BlockConvex(x[1..], y[1..], z[1..], n - 8);
      } else {
        HighMonotone(x[0], y[0], 8 - n);
        HighMonotone(y[0], z[0], 8 - n);
      }
    }
  }

  lemma {:induction false} AgreeEquivalence(x: IP, y: IP, z: IP, n: nat)
    requires |x| == |y| == |z|
    ensures Agree(x, x, n) && (Agree(x, y, n) ==> Agree(y, x, n))
    ensures Agree(x, y, n) && Agree(y, z, n) ==> Agree(x, z, n)
    decreases |x|
  {
    if x != [] && n >= 8 {
      AgreeEquivalence(x[1..], y[1..], z[1..], n - 8);
    }
  }

  // ---- The ends of a block ----

  // The first and the last address of a block: the other digits all zero, or all one.
  function Lowest(x: IP, n: nat): (r: IP)
    ensures |r| == |x|
    decreases |x|
  {
    if x == [] then []
    else if n >= 8 then [x[0]] + Lowest(x[1..], n - 8)
    else LowCut(x[0], 8 - n); [x[0] - Low(x[0], 8 - n)] + Fill(|x| - 1, 0)
  }

  function Highest(x: IP, n: nat): (r: IP)
    ensures |r| == |x|
    decreases |x|
  {
    if x == [] then []
    else if n >= 8 then [x[0]] + Highest(x[1..], n - 8)
    else HighFits(x[0], 8 - n); [x[0] - Low(x[0], 8 - n) + Pow2(8 - n) - 1] + Fill(|x| - 1, 0xFF)
  }

  function Fill(n: nat, a: byte): (r: IP)
    ensures |r| == n
  {
    seq(n, _ => a)
  }

  lemma {:induction false} LowCut(a: nat, k: nat)
    ensures Low(a, k) <= a && High(a - Low(a, k), k) == High(a, k)
    ensures forall b: nat :: High(b, k) == High(a, k) ==> a - Low(a, k) <= b
  {
    hide Low, High;
    var p, h := Pow2(k), High(a, k);
    Digits(a, k);
    assert a - Low(a, k) == p * h;
    LowIsMod(p * h, k);
    DivModUnique(p * h, p, h, 0);
    forall b: nat | High(b, k) == h ensures p * h <= b {
      Digits(b, k);
    }
  }

  lemma {:induction false} HighTop(a: nat, k: nat)
    ensures Low(a, k) <= a && High(a - Low(a, k) + Pow2(k) - 1, k) == High(a, k)
    ensures forall b: nat :: High(b, k) == High(a, k) ==> b <= a - Low(a, k) + Pow2(k) - 1
  {
    hide Low, High;
    var p, h := Pow2(k), High(a, k);
    Digits(a, k);
    assert a - Low(a, k) == p * h;
    var top := p * h + (p - 1);
    LowIsMod(top, k);
    DivModUnique(top, p, h, p - 1);
    forall b: nat | High(b, k) == h ensures b <= top {
      Digits(b, k);
    }
  }

  lemma {:induction false} HighFits(a: byte, k: nat)
    requires 1 <= k <= 8
    ensures 0 <= a - Low(a, k) + Pow2(k) - 1 < 256
  {
    hide Low, High;
    HighTop(a, k);
    var top: nat := a - Low(a, k) + Pow2(k) - 1;
    HighOfHigh(top, k, 8 - k);
    HighOfHigh(a, k, 8 - k);
    HighZero(a, 8);
    HighZero(top, 8);
    Pow2To8();
  }

  lemma {:induction false} FillExtreme(x: IP)
    ensures !Less(x, Fill(|x|, 0)) && !Less(Fill(|x|, 0xFF), x)
    decreases |x|
  {
    if x != [] {
      assert Fill(|x|, 0)[1..] == Fill(|x| - 1, 0);
      assert Fill(|x|, 0xFF)[1..] == Fill(|x| - 1, 0xFF);
      FillExtreme(x[1..]);
    }
  }

  // Both ends are in the block, and the block is between them.
  lemma {:induction false} LowestBounds(x: IP, y: IP, n: nat)
    requires |x| == |y|
    ensures Agree(x, Lowest(x, n), n)
    ensures Agree(x, y, n) ==> !Less(y, Lowest(x, n))
    decreases |x|
  {
    hide High, Low;
    if x != [] {
      var l := Lowest(x, n);
      if n >= 8 {
        assert l[1..] == Lowest(x[1..], n - 8);
        LowestBounds(x[1..], y[1..], n - 8);
      } else {
        LowCut(x[0], 8 - n);
        assert l[0] == x[0] - Low(x[0], 8 - n);
        assert l[1..] == Fill(|x| - 1, 0);
        FillExtreme(y[1..]);
      }
    }
  }

  lemma {:induction false} HighestBounds(x: IP, y: IP, n: nat)
    requires |x| == |y|
    ensures Agree(x, Highest(x, n), n)
    ensures Agree(x, y, n) ==> !Less(Highest(x, n), y)
    decreases |x|
  {
    hide High, Low;
    if x != [] {
      var h := Highest(x, n);
      if n >= 8 {
        assert h[1..] == Highest(x[1..], n - 8);
        HighestBounds(x[1..], y[1..], n - 8);
      } else {
        HighFits(x[0], 8 - n);
        HighTop(x[0], 8 - n);
        assert h[0] == x[0] - Low(x[0], 8 - n) + Pow2(8 - n) - 1;
        assert h[1..] == Fill(|x| - 1, 0xFF);
        FillExtreme(y[1..]);
      }
    }
  }

  // Agreement on more bits is agreement on fewer.
  lemma {:induction false} AgreeLess(x: IP, y: IP, m: nat, n: nat)
    requires Agree(x, y, n) && m <= n
    ensures Agree(x, y, m)
    decreases |x|
  {
    hide High;
    if x != [] {
      if m >= 8 {
        AgreeLess(x[1..], y[1..], m - 8, n - 8);
      } else if n < 8 {
        HighOfHigh(x[0], 8 - n, n - m);
        HighOfHigh(y[0], 8 - n, n - m);
      }
    }
  }

  // A common front decides neither order nor agreement.
  lemma {:induction false} CommonFront(f: IP, x: IP, y: IP, n: nat)
    requires |x| == |y|
    ensures Less(f + x, f + y) <==> Less(x, y)
    ensures Agree(f + x, f + y, 8 * |f| + n) <==> Agree(x, y, n)
    decreases |f|
  {
    if f == [] {
      assert f + x == x && f + y == y;
    } else {
      assert (f + x)[1..] == f[1..] + x && (f + y)[1..] == f[1..] + y;
      CommonFront(f[1..], x, y, n);
    }
  }

  // Between two addresses with a common front there is only that front.
  lemma {:induction false} FrontBetween(f: IP, x: IP, y: IP, z: IP)
    requires |x| == |z| && |y| == |f| + |x| && !Less(y, f + x) && !Less(f + z, y)
    ensures y[..|f|] == f && !Less(y[|f|..], x) && !Less(z, y[|f|..])
    decreases |f|
  {
    if f == [] {
      assert f + x == x && f + z == z && y[0..] == y;
    } else {
      assert (f + x)[1..] == f[1..] + x && (f + z)[1..] == f[1..] + z;
      FrontBetween(f[1..], x, y[1..], z);
      assert y == [y[0]] + y[1..];
      assert y[..|f|] == [y[0]] + y[1..][..|f| - 1] && f == [f[0]] + f[1..];
      assert y[1..][|f| - 1..] == y[|f|..];
    }
  }
}
