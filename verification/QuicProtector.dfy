/** Packet protection (analyzer/udp/internal/quic/packet_protector.go); the ciphers are parameters. */
module QuicProtector {
  import opened Bytes
  import opened Results
  import opened Varints
  import B = Bits
  import PN = PacketNumber

  // Masks have at least five bytes, an IV at least eight.
  type Mask = m: bytes | |m| >= 5 witness [0, 0, 0, 0, 0]
  type Iv = iv: bytes | |iv| >= 8 witness [0, 0, 0, 0, 0, 0, 0, 0]

  function XorByte(a: byte, b: byte): byte {
    B.LowIsMod(a, 8);
    B.LowIsMod(b, 8);
    assert B.Pow2(8) == 0x100 by { PN.WindowIsShift(1); }
    B.XorBelow(a, b, 8);
    B.Digits(B.Xor(a, b), 8);
    B.Xor(a, b)
  }

  predicate IsLongHeader(b: byte) { B.And(b, 0x80) > 0 }

  // The part of the first mask byte that is applied to the first packet byte.
  function FirstMask(first: byte, mask0: byte): (r: byte)
    ensures B.High(r, 5) == 0
  {
    assert B.Pow2(4) == 16 && B.Pow2(5) == 32;
    B.AndMask(mask0, 4);
    B.AndMask(mask0, 5);
    B.LowIsLow(mask0, 4);
    B.LowIsLow(mask0, 5);
    B.HighOfHigh(B.Low(mask0, 4), 4, 1);
    B.Digits(B.Low(mask0, 4), 5);
    B.Digits(mask0, 4);
    B.Digits(mask0, 5);
    if IsLongHeader(first) then B.And(mask0, 0x0f) else B.And(mask0, 0x1f)
  }

  function PnLen(first: byte): (n: nat)
    ensures 1 <= n <= 4
  {
    assert B.Pow2(2) == 4;
    B.AndMask(first, 2);
    B.Digits(first, 2);
    B.And(first, 0x3) + 1
  }

  function Unmasked(first: byte, mask0: byte): byte { XorByte(first, FirstMask(first, mask0)) }

  // The form of the header is not masked.
  lemma {:induction false} LongHeaderKept(first: byte, mask0: byte)
    ensures IsLongHeader(Unmasked(first, mask0)) == IsLongHeader(first)
  {
    var m := FirstMask(first, mask0);
    assert B.Pow2(7) == 0x80 by { assert B.Pow2(5) == 32; }
    B.XorHigh(first, m, 5);
    B.HighOfHigh(first, 5, 2);
    B.HighOfHigh(Unmasked(first, mask0), 5, 2);
    B.AndPow(first, 7);
    B.AndPow(Unmasked(first, mask0), 7);
  }

  lemma {:induction false} UnmaskedTwice(first: byte, mask0: byte)
    ensures Unmasked(Unmasked(first, mask0), mask0) == first
  {
    LongHeaderKept(first, mask0);
    B.XorXor(first, FirstMask(first, mask0));
  }

  // The first byte and n packet-number bytes with the mask applied; every other byte as it was.
  function Masked(p: bytes, off: nat, n: nat, mask: Mask): (r: bytes)
    requires 1 <= off && n <= 4 && off + n <= |p|
    ensures |r| == |p|
  {
    seq(|p|, i requires 0 <= i < |p| =>
      if i == 0 then Unmasked(p[0], mask[0])
      else if off <= i < off + n then XorByte(p[i], mask[1 + i - off])
      else p[i])
  }

  lemma {:induction false} MaskedTwice(p: bytes, off: nat, n: nat, mask: Mask)
    requires 1 <= off && n <= 4 && off + n <= |p|
    ensures Masked(Masked(p, off, n, mask), off, n, mask) == p
  {
    var q := Masked(p, off, n, mask);
    var r := Masked(q, off, n, mask);
    UnmaskedTwice(p[0], mask[0]);
    forall i | 0 <= i < |p| ensures r[i] == p[i] {
      if off <= i < off + n {
        B.XorXor(p[i], mask[1 + i - off]);
      }
    }
  }

  // The keys of one direction.
  datatype Key = Key(headerProtection: bytes -> Mask, open: (bytes, bytes, bytes) -> Option<bytes>, iv: Iv)

  function Sample(p: bytes, off: nat): bytes
    requires off + 20 <= |p|
  {
    p[off + 4..off + 20]
  }

  // Section 5.4.1 of RFC 9001: the mask comes from the sample, the packet-number length from
  // the first byte before masking.
  function Protect(key: Key, p: bytes, off: nat): bytes
    requires 1 <= off && off + 20 <= |p|
  {
    Masked(p, off, PnLen(p[0]), key.headerProtection(Sample(p, off)))
  }

  // The header-protection part of UnProtect: the length is read behind unmasking the first byte.
  function Unprotect(key: Key, p: bytes, off: nat): bytes
    requires 1 <= off && off + 20 <= |p|
  {
    var mask := key.headerProtection(Sample(p, off));
    Masked(p, off, PnLen(Unmasked(p[0], mask[0])), mask)
  }

  // HEADER-PROTECTION INVERSE, for any cipher, with what masking leaves alone.
  lemma {:induction false} UnprotectProtect(key: Key, p: bytes, off: nat)
    requires 1 <= off && off + 20 <= |p|
    ensures Unprotect(key, Protect(key, p, off), off) == p
    ensures var q := Protect(key, p, off);
            && |q| == |p| && IsLongHeader(q[0]) == IsLongHeader(p[0])
            && forall i :: 1 <= i < |p| && !(off <= i < off + PnLen(p[0])) ==> q[i] == p[i]
  {
    var mask := key.headerProtection(Sample(p, off));
    var q := Protect(key, p, off);
    assert Sample(q, off) == Sample(p, off);
    UnmaskedTwice(p[0], mask[0]);
    LongHeaderKept(p[0], mask[0]);
    MaskedTwice(p, off, PnLen(p[0]), mask);
  }

  // The IV with the packet number, left-padded to its length, folded in.
  function Nonce(iv: Iv, pn: nat): (r: bytes)
    ensures |r| == |iv|
  {
    var padded := seq(|iv| - 8, _ => 0) + Digits(pn, 8);
    seq(|iv|, i requires 0 <= i < |iv| => XorByte(padded[i], iv[i]))
  }

  // UnProtect of a packet; spare is what follows it in the same array. Only packets with a long
  // header are checked for being long enough, so the sample of another one is cut from whatever
  // follows, and its packet number can run past its end.
  ghost function Open(key: Key, p: bytes, spare: bytes, off: nat, pnMax: int): Result<bytes>
    requires 1 <= off <= |p| && pnMax >= -1
  {
    if IsLongHeader(p[0]) && |p| < off + 20 then Failed
    else if |p + spare| < off + 20 then Panicked
    else
      var mask := key.headerProtection(Sample(p + spare, off));
      var n := PnLen(Unmasked(p[0], mask[0]));
      if |p| < off + n then Panicked else Decrypt(key, Masked(p, off, n, mask), off, pnMax)
  }

  // Decryption of a packet whose header protection is removed.
  function Decrypt(key: Key, q: bytes, off: nat, pnMax: int): Result<bytes>
    requires 1 <= off < |q| && off + PnLen(q[0]) <= |q| && pnMax >= -1
  {
    var n := PnLen(q[0]);
    var pn := PN.Decode(pnMax, ValueOf(q[off..off + n]), n);
    match key.open(Nonce(key.iv, pn), q[off + n..], q[..off + n])
    case None => Failed
    case Some(plain) => Done(plain)
  }

  // EXACTLY WHEN IT PANICS: the header is not a long one, and there is no room for the sample or
  // for the packet number that the unmasked first byte announces.
  lemma {:induction false} OpenPanics(key: Key, p: bytes, spare: bytes, off: nat, pnMax: int)
    requires 1 <= off <= |p| && pnMax >= -1
    ensures Open(key, p, spare, off, pnMax).Panicked? <==>
              && !IsLongHeader(p[0])
              && (|p| + |spare| < off + 20
                  || |p| < off + PnLen(Unmasked(p[0], key.headerProtection(Sample(p + spare, off))[0])))
  {
  }

  lemma {:induction false} SampleWithin(p: bytes, spare: bytes, off: nat)
    requires off + 20 <= |p|
    ensures Sample(p + spare, off) == Sample(p, off)
  {
  }

  // ---- A packet protected as in section 5 of RFC 9001 ----

  // seal is the inverse of the key's open and adds sixteen bytes.
  ghost predicate Seals(key: Key, seal: (bytes, bytes, bytes) -> bytes) {
    forall nonce, plain, hdr :: |seal(nonce, plain, hdr)| == |plain| + 16
             && key.open(nonce, seal(nonce, plain, hdr), hdr) == Some(plain)
  }

  // Such ciphers exist: one that adds sixteen zeros, say.
  lemma {:induction false} SealsExist() returns (key: Key, seal: (bytes, bytes, bytes) -> bytes)
    ensures Seals(key, seal)
  {
    var tag: bytes := [0, 0, 0, 0, 0, 0, 0, 0, 0, 0, 0, 0, 0, 0, 0, 0];
    seal := (nonce, plain, hdr) => plain + tag;
    key := Key(s => tag, (nonce, c: bytes, hdr) => if |c| >= 16 then Some(c[..|c| - 16]) else None, tag);
    forall nonce: bytes, plain: bytes, hdr: bytes
      ensures |seal(nonce, plain, hdr)| == |plain| + 16 && key.open(nonce, seal(nonce, plain, hdr), hdr) == Some(plain)
    {
      assert (plain + tag)[..|plain|] == plain;
    }
  }

  // The header with an n-byte packet number.
  function FullHeader(hdr: bytes, pn: nat, n: nat): bytes
    requires 1 <= n <= 4
  {
    hdr + Digits(pn % PN.Window(n), n)
  }

  function Sealed(key: Key, seal: (bytes, bytes, bytes) -> bytes, hdr: bytes, pn: nat, plain: bytes): bytes
    requires hdr != []
  {
    var full := FullHeader(hdr, pn, PnLen(hdr[0]));
    full + seal(Nonce(key.iv, pn), plain, full)
  }

  lemma {:induction false} WindowIsPow256(n: nat)
    requires 1 <= n <= 4
    ensures PN.Window(n) == Pow256(n)
  {
    assert Pow256(2) == 0x100 * Pow256(1) && Pow256(3) == 0x100 * Pow256(2) && Pow256(4) == 0x100 * Pow256(3);
  }

  lemma {:induction false} SplitSealed(hdr: bytes, d: bytes, c: bytes)
    ensures var p := hdr + d + c;
            p[|hdr|..|hdr| + |d|] == d && p[..|hdr| + |d|] == hdr + d && p[|hdr| + |d|..] == c
  {
  }

  lemma {:induction false} OpenSealed(key: Key, seal: (bytes, bytes, bytes) -> bytes, hdr: bytes, pn: nat,
                                      plain: bytes, spare: bytes, pnMax: int)
    requires Seals(key, seal) && hdr != [] && PnLen(hdr[0]) + |plain| >= 4
    requires -1 <= pnMax <= PN.MAX62 - 2 && pn < PN.MAX62
    requires PN.Recovered(pnMax + 1, pn, PnLen(hdr[0]))
    ensures var p := Sealed(key, seal, hdr, pn, plain);
            |hdr| + 20 <= |p| && Open(key, Protect(key, p, |hdr|), spare, |hdr|, pnMax) == Done(plain)
  {
    var n := PnLen(hdr[0]);
    var d := Digits(pn % PN.Window(n), n);
    var full := hdr + d;
    var c := seal(Nonce(key.iv, pn), plain, full);
    var p := Sealed(key, seal, hdr, pn, plain);
    assert |c| == |plain| + 16;
    UnprotectProtect(key, p, |hdr|);
    SampleWithin(Protect(key, p, |hdr|), spare, |hdr|);
    SplitSealed(hdr, d, c);
    assert p[0] == hdr[0];
    WindowIsPow256(n);
    ValueOfDigits(pn % PN.Window(n), n);
    PN.DecodeExact(pnMax, pn, n);
  }

  // ---- What is meant: section 5 of RFC 9001, without the functions above ----

  function Folded(a: bytes, b: bytes): (r: bytes)
    requires |a| == |b|
    ensures |r| == |a|
  {
    seq(|a|, i requires 0 <= i < |a| => XorByte(a[i], b[i]))
  }

  // r is the IV with the packet number, big-endian, folded into its last eight bytes.
  predicate IsNonce(iv: Iv, pn: nat, r: bytes) {
    && |r| == |iv| && (forall i :: 0 <= i < |iv| - 8 ==> r[i] == iv[i])
    && ValueOf(Folded(r[|iv| - 8..], iv[|iv| - 8..])) == pn
  }

  // q is p with its header protected: four or five bits of the first byte, and the packet number,
  // whose length the last two bits of the first byte give.
  predicate IsProtected(key: Key, p: bytes, off: nat, q: bytes)
    requires 1 <= off && off + 20 <= |p|
  {
    var mask, n := key.headerProtection(p[off + 4..off + 20]), p[0] % 4 + 1;
    && |q| == |p|
    && q[0] == XorByte(p[0], mask[0] % if p[0] >= 0x80 then 0x10 else 0x20)
    && forall i :: 1 <= i < |p| ==> q[i] == if off <= i < off + n then XorByte(p[i], mask[1 + i - off]) else p[i]
  }

  lemma {:induction false} XorByteTwice(a: byte, b: byte)
    ensures XorByte(XorByte(a, b), b) == a && XorByte(0, b) == b
  {
    B.XorXor(a, b);
    B.XorFromNothing(b);
  }

  lemma {:induction false} Pow256Of8()
    ensures Pow256(8) == 0x1_0000_0000_0000_0000
  {
    assert Pow256(2) == 0x1_0000;
    assert Pow256(4) == 0x1_0000_0000;
    assert Pow256(6) == 0x1_0000_0000_0000;
  }

  lemma {:induction false} NonceMeans(iv: Iv, pn: nat)
    requires pn < 0x1_0000_0000_0000_0000
    ensures IsNonce(iv, pn, Nonce(iv, pn))
  {
    var k, r, d := |iv| - 8, Nonce(iv, pn), Digits(pn, 8);
    Pow256Of8();
    ValueOfDigits(pn, 8);
    hide ValueOf, Digits, XorByte;
    var padded := seq(k, _ => 0) + d;
    forall i | 0 <= i < k ensures r[i] == iv[i] {
      XorByteTwice(0, iv[i]);
    }
    var f := Folded(r[k..], iv[k..]);
    forall i | 0 <= i < 8 ensures f[i] == d[i] {
      assert padded[k + i] == d[i];
      XorByteTwice(d[i], iv[k + i]);
    }
    assert f == d;
  }

  // There is only one such nonce.
  lemma {:induction false} NonceUnique(iv: Iv, pn: nat, a: bytes, b: bytes)
    requires IsNonce(iv, pn, a) && IsNonce(iv, pn, b)
    ensures a == b
  {
    var k := |iv| - 8;
    var f, g := Folded(a[k..], iv[k..]), Folded(b[k..], iv[k..]);
    DigitsOfValue(f);
    DigitsOfValue(g);
    assert f == g;
    hide ValueOf, Digits, XorByte;
    forall i | k <= i < |iv| ensures a[i] == b[i] {
      assert f[i - k] == g[i - k];
      XorByteTwice(a[i], iv[i]);
      XorByteTwice(b[i], iv[i]);
    }
  }

  lemma {:induction false} MaskIsMod(a: nat, k: nat)
    ensures B.And(a, B.Pow2(k) - 1) == a % B.Pow2(k)
  {
    B.AndMask(a, k);
    B.LowIsMod(a, k);
  }

  lemma {:induction false} LengthMeans(first: byte)
    ensures PnLen(first) == first % 4 + 1
  {
    assert B.Pow2(2) == 4;
    MaskIsMod(first, 2);
    hide B.And, B.Pow2;
  }

  lemma {:induction false} LongMeans(first: byte)
    ensures IsLongHeader(first) <==> first >= 0x80
  {
    assert B.Pow2(7) == 0x80 by { assert B.Pow2(5) == 32; }
    B.AndPow(first, 7);
    B.LowIsMod(first, 7);
    hide B.And, B.Pow2, B.High;
    var h := first / 0x80;
    assert B.And(first, 0x80) == 0x80 * (h % 2) && (h == 0 || h == 1);
  }

  lemma {:induction false} FirstByteMeans(first: byte, mask0: byte)
    ensures PnLen(first) == first % 4 + 1
    ensures IsLongHeader(first) <==> first >= 0x80
    ensures FirstMask(first, mask0) == mask0 % if first >= 0x80 then 0x10 else 0x20
  {
    LengthMeans(first);
    LongMeans(first);
    assert B.Pow2(4) == 16 && B.Pow2(5) == 32;
    MaskIsMod(mask0, 4);
    MaskIsMod(mask0, 5);
    hide B.And, B.Pow2, IsLongHeader, PnLen;
  }

  lemma {:induction false} ProtectMeans(key: Key, p: bytes, off: nat, q: bytes)
    requires 1 <= off && off + 20 <= |p|
    ensures IsProtected(key, p, off, q) <==> q == Protect(key, p, off)
  {
    var mask := key.headerProtection(p[off + 4..off + 20]);
    FirstByteMeans(p[0], mask[0]);
    hide PnLen, IsLongHeader, FirstMask, XorByte;
  }

  // PACKET ROUND TRIP. A packet that a sender seals under a nonce and protects as that section
  // says opens to its payload, whenever the packet number is within half a window of the expected
  // one; d is the number, truncated to the length that the first byte gives.
  lemma {:induction false} OpenProtected(key: Key, seal: (bytes, bytes, bytes) -> bytes, hdr: bytes, d: bytes,
                                         nonce: bytes, plain: bytes, q: bytes, pn: nat, spare: bytes, pnMax: int)
    requires Seals(key, seal) && hdr != [] && |d| == hdr[0] % 4 + 1 && |d| + |plain| >= 4
    requires pn < PN.MAX62 && ValueOf(d) == pn % PN.Window(|d|) && IsNonce(key.iv, pn, nonce)
    requires IsProtected(key, hdr + d + seal(nonce, plain, hdr + d), |hdr|, q)
    requires -1 <= pnMax <= PN.MAX62 - 2
    requires PN.Recovered(pnMax + 1, pn, |d|)
    ensures Open(key, q, spare, |hdr|, pnMax) == Done(plain)
  {
    FirstByteMeans(hdr[0], 0);
    NonceMeans(key.iv, pn);
    NonceUnique(key.iv, pn, nonce, Nonce(key.iv, pn));
    DigitsOfValue(d);
    hide ValueOf, Digits, PnLen, IsNonce, Open, Nonce;
    assert d == Digits(pn % PN.Window(|d|), |d|);
    ProtectMeans(key, hdr + d + seal(nonce, plain, hdr + d), |hdr|, q);
    OpenSealed(key, seal, hdr, pn, plain, spare, pnMax);
  }

  // ---- The in-place form ----

  // The nonce loop.
  method MakeNonce(iv: Iv, pn: nat) returns (r: bytes)
    ensures r == Nonce(iv, pn)
    ensures pn < 0x1_0000_0000_0000_0000 ==> IsNonce(iv, pn, r)
  {
    if pn < 0x1_0000_0000_0000_0000 {
      NonceMeans(iv, pn);
    }
    var padded := seq(|iv| - 8, _ => 0) + Digits(pn, 8);
    var nonce := new byte[|iv|](i requires 0 <= i < |iv| => padded[i]);
    for i := 0 to |iv|
      invariant forall k :: i <= k < |iv| ==> nonce[k] == padded[k]
      invariant forall k :: 0 <= k < i ==> nonce[k] == XorByte(padded[k], iv[k])
    {
      nonce[i] := XorByte(nonce[i], iv[i]);
    }
    return nonce[..];
  }

  // The loop over the packet-number bytes.
  method UnmaskNumber(packet: array<byte>, off: nat, n: nat, mask: Mask) returns (pn: nat)
    requires n <= 4 && off + n <= packet.Length
    modifies packet
    ensures forall k :: 0 <= k < packet.Length ==>
              packet[k] == if off <= k < off + n then XorByte(old(packet[k]), mask[1 + k - off]) else old(packet[k])
    ensures pn == ValueOf(packet[off..off + n])
  {
    pn := 0;
    assert packet[off..off] == [];
    for i := 0 to n
      invariant forall k :: 0 <= k < packet.Length ==>
                  packet[k] == if off <= k < off + i then XorByte(old(packet[k]), mask[1 + k - off]) else old(packet[k])
      invariant pn == ValueOf(packet[off..off + i])
    {
      ghost var done := packet[off..off + i];
      packet[off + i] := XorByte(packet[off + i], mask[1 + i]);
      assert packet[off..off + i + 1] == done + [packet[off + i]];
      pn := pn * 0x100 + packet[off + i] as nat;
    }
  }

  // The header-protection part of UnProtect on the first `end` bytes of the array. Without room
  // for the packet number the loop of UnmaskNumber would run past the packet and panic.
  method UnprotectHeader(key: Key, packet: array<byte>, end: nat, off: nat) returns (pn: nat, n: nat, ok: bool)
    requires 1 <= off <= end && off + 20 <= packet.Length && end <= packet.Length
    modifies packet
    ensures packet[end..] == old(packet[end..])
    ensures var mask := key.headerProtection(Sample(old(packet[..]), off));
            && n == PnLen(Unmasked(old(packet[0]), mask[0])) && ok == (off + n <= end)
            && (ok ==> packet[..end] == Masked(old(packet[..end]), off, n, mask)
                       && n == PnLen(packet[0]) && pn == ValueOf(packet[off..off + n]))
  {
    hide ValueOf, PnLen, Unmasked;
    ghost var p := packet[..end];
    var sample := packet[off + 4..off + 20];
    assert sample == Sample(packet[..], off);
    var mask := key.headerProtection(sample);
    packet[0] := Unmasked(packet[0], mask[0]);
    n := PnLen(packet[0]);
    pn, ok := 0, off + n <= end;
    if ok {
      pn := UnmaskNumber(packet, off, n, mask);
      ghost var q := Masked(p, off, n, mask);
      forall k | 0 <= k < end ensures packet[k] == q[k] {
      }
      assert packet[..end] == q;
    }
  }

  // UnProtect on the first `end` bytes of the array, whose length stands for the capacity of the
  // packet slice. The header of a long enough packet is left unprotected and nothing behind the
  // packet is written; what becomes of the payload, into which the cipher decrypts, is left open.
  method UnProtect(key: Key, packet: array<byte>, end: nat, pnOffset: nat, pnMax: int) returns (dec: Result<bytes>)
    requires 1 <= pnOffset <= end <= packet.Length && pnMax >= -1
    modifies packet
    ensures dec == Open(key, old(packet[..end]), old(packet[end..]), pnOffset, pnMax)
    ensures packet[end..] == old(packet[end..])
    ensures pnOffset + 20 <= end ==>
              var q := Unprotect(key, old(packet[..end]), pnOffset);
              packet[..pnOffset + PnLen(q[0])] == q[..pnOffset + PnLen(q[0])]
  {
    ghost var p, spare := packet[..end], packet[end..];
    assert p + spare == packet[..];
    if pnOffset + 20 <= end {
      SampleWithin(p, spare, pnOffset);
    }
    if IsLongHeader(packet[0]) && end < pnOffset + 20 {
      return Failed;
    }
    if packet.Length < pnOffset + 20 {
      return Panicked;
    }
    var pn, pnLen, ok := UnprotectHeader(key, packet, end, pnOffset);
    if !ok {
      return Panicked;
    }
    dec := DecryptFrom(key, packet, end, pnOffset, pn, pnLen, pnMax);
  }

  lemma {:induction false} Slice(a: array<byte>, end: nat, i: nat, j: nat)
    requires i <= j <= end <= a.Length
    ensures a[..end][i..j] == a[i..j]
  {
  }

  // The rest of UnProtect.
  method DecryptFrom(key: Key, packet: array<byte>, end: nat, off: nat, pn: nat, pnLen: nat, pnMax: int)
    returns (dec: Result<bytes>)
    requires 1 <= off < end <= packet.Length && pnMax >= -1
    requires pnLen == PnLen(packet[0]) && off + pnLen <= end && pn == ValueOf(packet[off..off + pnLen])
    ensures dec == Decrypt(key, packet[..end], off, pnMax)
  {
    ghost var q := packet[..end];
    var n := off + pnLen;
    Slice(packet, end, off, n);
    Slice(packet, end, 0, n);
    Slice(packet, end, n, end);
    var nonce := MakeNonce(key.iv, PN.Decode(pnMax, pn, pnLen));
    var plain := key.open(nonce, packet[n..end], packet[..n]);
    dec := if plain.Some? then Done(plain.value) else Failed;
  }
}
