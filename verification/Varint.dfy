/** A byte reader and the variable-length integers of section 16 of RFC 9000. */
module Varints {
  import opened Bytes

  // ---- Big-endian numbers of any length ----

  function ValueOf(d: bytes): nat {
    if d == [] then 0 else ValueOf(d[..|d| - 1]) * 0x100 + d[|d| - 1]
  }

  function Digits(v: nat, n: nat): (d: bytes)
    ensures |d| == n
  {
    if n == 0 then [] else Digits(v / 0x100, n - 1) + [v % 0x100]
  }

  function Pow256(n: nat): (p: nat)
    ensures p > 0
  {
    if n == 0 then 1 else 0x100 * Pow256(n - 1)
  }

  lemma {:induction false} ValueOfDigits(v: nat, n: nat)
    requires v < Pow256(n)
    ensures ValueOf(Digits(v, n)) == v
    decreases n
  {
    if n > 0 {
      ValueOfDigits(v / 0x100, n - 1);
      var d := Digits(v, n);
      assert d[..|d| - 1] == Digits(v / 0x100, n - 1);
    }
  }

  lemma {:induction false} DigitsOfValue(d: bytes)
    ensures ValueOf(d) < Pow256(|d|) && Digits(ValueOf(d), |d|) == d
    decreases |d|
  {
    if d != [] {
      DigitsOfValue(d[..|d| - 1]);
      assert d == d[..|d| - 1] + [d[|d| - 1]];
    }
  }

  // The first digit of a number below a quarter of the range leaves room for the length tag.
  lemma {:induction false} FirstDigit(v: nat, n: nat)
    requires n > 0
    ensures v < 64 * Pow256(n - 1) ==> Digits(v, n)[0] < 64
    ensures v < Pow256(n) && Digits(v, n)[0] < 64 ==> v < 64 * Pow256(n - 1)
    decreases n
  {
    if n > 1 {
      FirstDigit(v / 0x100, n - 1);
    } else {
      assert Digits(v / 0x100, 0) == [];
    }
  }

  // ---- Variable-length integers ----

  datatype Width = W1 | W2 | W4 | W8
  {
    function Len(): (n: nat)
      ensures n > 0
    {
      match this case W1 => 1 case W2 => 2 case W4 => 4 case W8 => 8
    }

    function Tag(): nat { match this case W1 => 0 case W2 => 1 case W4 => 2 case W8 => 3 }

    // v can be written with this width.
    predicate Holds(v: nat) { v < 64 * Pow256(Len() - 1) }
  }

  function WidthOf(tag: nat): Width {
    if tag == 0 then W1 else if tag == 1 then W2 else if tag == 2 then W4 else W8
  }

  function Put(v: nat, w: Width): (b: bytes)
    requires w.Holds(v)
    ensures |b| == w.Len()
  {
    var d := Digits(v, w.Len());
    FirstDigit(v, w.Len());
    [64 * w.Tag() + d[0]] + d[1..]
  }

  // quicvarint.Read.
  function Read(b: bytes): (r: Option<(nat, bytes)>)
    ensures r.Some? ==> |r.value.1| < |b|
  {
    if |b| < 1 then None
    else
      var n := WidthOf(b[0] / 64).Len();
      if |b| < n then None else Some((ValueOf([b[0] % 64] + b[1..n]), b[n..]))
  }

  lemma {:induction false} ReadPut(v: nat, w: Width, x: bytes)
    requires w.Holds(v)
    ensures Read(Put(v, w) + x) == Some((v, x))
  {
    var n := w.Len();
    var d := Digits(v, n);
    var b := Put(v, w) + x;
    FirstDigit(v, n);
    assert b[0] / 64 == w.Tag() && b[0] % 64 == d[0];
    assert WidthOf(b[0] / 64) == w;
    assert b[1..n] == d[1..];
    assert [d[0]] + d[1..] == d;
    assert b[n..] == x;
    assert Pow256(n) == 0x100 * Pow256(n - 1);
    ValueOfDigits(v, n);
  }

  // Numbers below 64 are their own encoding.
  lemma {:induction false} SmallPut(v: nat)
    requires v < 64
    ensures W1.Holds(v) && Put(v, W1) == [v]
  {
    assert Digits(v, 1) == Digits(v / 0x100, 0) + [v];
  }

  // The largest number that can be written.
  lemma {:induction false} LongestLength()
    ensures W8.Holds(0x3FFF_FFFF_FFFF_FFFF)
    ensures Put(0x3FFF_FFFF_FFFF_FFFF, W8) == [0xFF, 0xFF, 0xFF, 0xFF, 0xFF, 0xFF, 0xFF, 0xFF]
  {
    hide Put;
    Pow256To7();
    DigitsOfLongest();
    FirstDigit(0x3FFF_FFFF_FFFF_FFFF, 8);
    PutParts(0x3FFF_FFFF_FFFF_FFFF, W8);
  }

  lemma {:induction false} PutParts(v: nat, w: Width)
    requires w.Holds(v)
    ensures var d := Digits(v, w.Len()); d[0] < 64 && Put(v, w) == [64 * w.Tag() + d[0]] + d[1..]
  {
    FirstDigit(v, w.Len());
  }

  lemma {:induction false} Pow256To7()
    ensures Pow256(7) == 0x100_0000_0000_0000
  {
    assert Pow256(2) == 0x1_0000;
    assert Pow256(4) == 0x1_0000_0000;
    assert Pow256(6) == 0x1_0000_0000_0000;
  }

  lemma {:induction false} DigitsOfLongest()
    ensures Digits(0x3FFF_FFFF_FFFF_FFFF, 8) == [0x3F, 0xFF, 0xFF, 0xFF, 0xFF, 0xFF, 0xFF, 0xFF]
  {
    assert Digits(0x3F, 1) == [0x3F];
    assert Digits(0x3FFF, 2) == [0x3F, 0xFF];
    assert Digits(0x3F_FFFF, 3) == [0x3F, 0xFF, 0xFF];
    assert Digits(0x3FFF_FFFF, 4) == [0x3F, 0xFF, 0xFF, 0xFF];
    assert Digits(0x3F_FFFF_FFFF, 5) == [0x3F, 0xFF, 0xFF, 0xFF, 0xFF];
    assert Digits(0x3FFF_FFFF_FFFF, 6) == [0x3F, 0xFF, 0xFF, 0xFF, 0xFF, 0xFF];
    assert Digits(0x3F_FFFF_FFFF_FFFF, 7) == [0x3F, 0xFF, 0xFF, 0xFF, 0xFF, 0xFF, 0xFF];
  }

  // Whatever is read was written with some width.
  lemma {:induction false} ReadSound(b: bytes) returns (w: Width)
    requires Read(b).Some?
    ensures var (v, x) := Read(b).value; w.Holds(v) && b == Put(v, w) + x
  {
    w := WidthOf(b[0] / 64);
    var n := w.Len();
    var d := [b[0] % 64] + b[1..n];
    DigitsOfValue(d);
    FirstDigit(ValueOf(d), n);
    assert w.Tag() == b[0] / 64;
    assert d[1..] == b[1..n];
    assert b == [b[0]] + b[1..n] + b[n..];
  }

  // ---- On the wire ----

  lemma {:induction false} ValueSnoc(d: bytes, c: byte)
    ensures ValueOf(d + [c]) == 0x100 * ValueOf(d) + c as nat
  {
    assert (d + [c])[..|d|] == d;
  }

  // A number of n bytes, the first one the highest.
  function BigEndian(b: bytes, n: nat): nat
    requires n <= |b|
  {
    if n == 0 then 0 else 0x100 * BigEndian(b, n - 1) + b[n - 1] as nat
  }

  lemma {:induction false} ValueIsBigEndian(d: bytes, n: nat)
    requires n <= |d|
    ensures ValueOf(d[..n]) == BigEndian(d, n)
    decreases n
  {
    if n > 0 {
      ValueIsBigEndian(d, n - 1);
      assert d[..n] == d[..n - 1] + [d[n - 1]];
      ValueSnoc(d[..n - 1], d[n - 1]);
    }
  }

  lemma {:induction false} ReadTagged(b: bytes, n: nat)
    requires 1 <= n <= |b| && n == WidthOf(b[0] / 64).Len()
    ensures Read(b) == Some((BigEndian([b[0] % 64] + b[1..], n), b[n..]))
  {
    var d := [b[0] % 64] + b[1..];
    assert d[..n] == [b[0] % 64] + b[1..n];
    ValueIsBigEndian(d, n);
  }

  // Variable-length integers, byte by byte: the first two bits give the length, 1, 2, 4 or 8, and
  // the others are the number, highest byte first.
  lemma {:induction false} ReadWire(b: bytes)
    ensures var n := if b == [] then 1 else if b[0] < 0x40 then 1 else if b[0] < 0x80 then 2
                     else if b[0] < 0xC0 then 4 else 8;
            Read(b) == if |b| < n then None else Some((BigEndian([b[0] % 0x40] + b[1..], n), b[n..]))
  {
    if b != [] {
      var n := WidthOf(b[0] / 64).Len();
      if n <= |b| {
        ReadTagged(b, n);
      }
    }
  }

  // ---- bytes.Reader ----

  class Reader {
    const data: bytes
    var pos: nat

    ghost predicate Valid()
      reads `pos
    {
      pos <= |data|
    }

    ghost function Rest(): bytes
      requires Valid()
      reads `pos
    {
      data[pos..]
    }

    constructor (data: bytes)
      ensures Valid() && this.data == data && pos == 0
    {
      this.data := data;
      pos := 0;
    }

    method Len() returns (n: nat)
      requires Valid()
      ensures n == |Rest()|
    {
      return |data| - pos;
    }

    method ReadByte() returns (c: byte, ok: bool)
      requires Valid()
      modifies `pos
      ensures Valid()
      ensures ok == (|old(Rest())| >= 1)
      ensures ok ==> c == old(Rest())[0] && Rest() == old(Rest())[1..] && pos == old(pos) + 1
      ensures !ok ==> Rest() == old(Rest())
    {
      if pos == |data| { return 0, false; }
      c, ok := data[pos], true;
      pos := pos + 1;
    }

    // io.ReadFull into a buffer of n bytes. At the end of the data it takes what there is;
    // `eof` when there was nothing at all to take.
    method ReadFull(n: nat) returns (d: bytes, ok: bool, eof: bool)
      requires Valid()
      modifies `pos
      ensures Valid()
      ensures ok == (n <= |old(Rest())|) && eof == (!ok && old(Rest()) == [])
      ensures ok ==> d == old(Rest())[..n] && Rest() == old(Rest())[n..]
      ensures ok ==> pos == old(pos) + n && d == data[old(pos)..pos]
      ensures !ok ==> d == [] && Rest() == []
    {
      if |data| - pos < n {
        eof := pos == |data|;
        pos := |data|;
        return [], false, eof;
      }
      d, ok, eof := data[pos..pos + n], true, false;
      pos := pos + n;
    }

    method ReadVarint() returns (v: nat, ok: bool)
      requires Valid()
      modifies `pos
      ensures Valid()
      ensures ok == Read(old(Rest())).Some?
      ensures ok ==> Read(old(Rest())) == Some((v, Rest()))
      ensures !ok ==> |Rest()| <= |old(Rest())|
    {
      ghost var b := Rest();
      var first: byte;
      first, ok := ReadByte();
      if !ok { return 0, false; }
      var n := WidthOf(first / 64).Len();
      var more: bytes, eof: bool;
      more, ok, eof := ReadFull(n - 1);
      if !ok { return 0, false; }
      assert more == b[1..n];
      v := ValueOf([first % 64] + more);
      assert Rest() == b[n..];
    }
  }
}
