/** Byte strings, big-endian integers and the first occurrence of a separator. */
module Bytes {
  type byte = x: int | 0 <= x < 256
  type bytes = seq<byte>
  type u16 = n: int | 0 <= n < 0x1_0000

  datatype Option<+T> = None | Some(value: T)

  // The first n bytes and the rest, or None when there are fewer than n.
  datatype Split = Short | Cut(front: bytes, back: bytes)

  function Take(b: bytes, n: nat): (s: Split)
    ensures s.Cut? <==> n <= |b|
    ensures s.Cut? ==> |s.front| == n && s.front + s.back == b
  {
    if n <= |b| then Cut(b[..n], b[n..]) else Short
  }

  lemma {:induction false} TakeAppend(b: bytes, n: nat, x: bytes)
    requires n <= |b|
    ensures Take(b + x, n) == Cut(b[..n], b[n..] + x)
  {
    assert (b + x)[..n] == b[..n];
    assert (b + x)[n..] == b[n..] + x;
  }

  // Concatenation is associative.
  lemma {:induction false} Assoc<T>(a: seq<T>, b: seq<T>, c: seq<T>)
    ensures a + (b + c) == a + b + c
  {
  }

  function Flatten(bs: seq<bytes>): bytes {
    if bs == [] then [] else bs[0] + Flatten(bs[1..])
  }

  lemma {:induction false} FlattenAppend(a: seq<bytes>, b: seq<bytes>)
    ensures Flatten(a + b) == Flatten(a) + Flatten(b)
  {
    if a == [] {
      assert a + b == b;
    } else {
      assert (a + b)[1..] == a[1..] + b;
      FlattenAppend(a[1..], b);
    }
  }

  // Big-endian integers.
  function U16(hi: byte, lo: byte): (n: nat)
    ensures n < 0x1_0000
  {
    hi * 0x100 + lo
  }

  function Put16(n: nat): (b: bytes)
    requires n < 0x1_0000
    ensures |b| == 2 && U16(b[0], b[1]) == n
    ensures 0x100 * (b[0] as nat) + b[1] as nat == n
  {
    [n / 0x100, n % 0x100]
  }

  lemma {:induction false} ReadPut16(n: nat, x: bytes)
    requires n < 0x1_0000
    ensures var b := Put16(n) + x; |b| == 2 + |x| && U16(b[0], b[1]) == n && b[2..] == x
  {
  }

  // A length byte, that many bytes and the rest.
  lemma {:induction false} ReadCounted(a: bytes, x: bytes)
    requires |a| < 0x100
    ensures var b := [|a|] + a + x;
            |b| == 1 + |a| + |x| && b[0] == |a| && b[1..1 + |a|] == a && b[1 + |a|..] == x
  {
  }

  lemma {:induction false} SplitCounted(b: bytes)
    requires |b| >= 1 && |b| - 1 >= b[0]
    ensures var n := b[0] as nat + 1; |b[1..n]| == b[0] && b == [b[0]] + b[1..n] + b[n..]
  {
  }

  lemma {:induction false} Put16Unique(hi: byte, lo: byte)
    ensures Put16(U16(hi, lo)) == [hi, lo]
  {
  }

  function U24(b0: byte, b1: byte, b2: byte): (n: nat)
    ensures n < 0x100_0000
  {
    b0 * 0x1_0000 + b1 * 0x100 + b2
  }

  function Put24(n: nat): (b: bytes)
    requires n < 0x100_0000
    ensures |b| == 3 && U24(b[0], b[1], b[2]) == n
    ensures 0x1_0000 * (b[0] as nat) + 0x100 * (b[1] as nat) + b[2] as nat == n
  {
    var h := n / 0x100;
    assert n == h * 0x100 + n % 0x100 && h == h / 0x100 * 0x100 + h % 0x100;
    [h / 0x100, h % 0x100, n % 0x100]
  }

  // sep occurs in b at position i.
  predicate OccursAt(b: bytes, sep: bytes, i: nat) {
    i + |sep| <= |b| && b[i..i + |sep|] == sep
  }

  // bytes.Index: the first position of sep at or after `from`, or None.
  function IndexFrom(b: bytes, sep: bytes, from: nat): (r: Option<nat>)
    requires from <= |b|
    ensures r.Some? ==> from <= r.value && OccursAt(b, sep, r.value)
    ensures r.Some? ==> forall j :: from <= j < r.value ==> !OccursAt(b, sep, j)
    ensures r.None? ==> forall j :: from <= j ==> !OccursAt(b, sep, j)
    decreases |b| - from
  {
    if OccursAt(b, sep, from) then Some(from)
    else if from == |b| then None
    else IndexFrom(b, sep, from + 1)
  }

  function Index(b: bytes, sep: bytes): (r: Option<nat>)
    ensures r.Some? <==> exists i :: OccursAt(b, sep, i)
    ensures r.Some? ==> OccursAt(b, sep, r.value) && forall j :: 0 <= j < r.value ==> !OccursAt(b, sep, j)
  {
    IndexFrom(b, sep, 0)
  }

  lemma {:induction false} OccursAppend(b: bytes, sep: bytes, x: bytes, i: nat)
    requires i + |sep| <= |b|
    ensures OccursAt(b + x, sep, i) <==> OccursAt(b, sep, i)
  {
    assert (b + x)[i..i + |sep|] == b[i..i + |sep|];
  }

  // The first occurrence does not move when bytes arrive behind it.
  lemma {:induction false} IndexAppend(b: bytes, sep: bytes, x: bytes)
    requires Index(b, sep).Some?
    ensures Index(b + x, sep) == Index(b, sep)
  {
    var i := Index(b, sep).value;
    OccursAppend(b, sep, x, i);
    var k := Index(b + x, sep).value;
    if k < i {
      OccursAppend(b, sep, x, k);
    }
  }

  lemma {:induction false} IndexIs(b: bytes, sep: bytes, i: nat)
    requires OccursAt(b, sep, i) && forall j :: 0 <= j < i ==> !OccursAt(b, sep, j)
    ensures Index(b, sep) == Some(i)
  {
  }

  // In front of the first byte that can start a separator there is none.
  lemma {:induction false} OccursShift(a: bytes, x: bytes, sep: bytes, j: nat)
    requires sep != [] && sep[0] !in a
    ensures OccursAt(a + x, sep, j) <==> j >= |a| && OccursAt(x, sep, j - |a|)
  {
    var b := a + x;
    if j + |sep| <= |b| {
      assert b[j..j + |sep|][0] == b[j];
      if j < |a| {
        assert b[j] == a[j] && a[j] in a;
      } else {
        assert b[j..j + |sep|] == x[j - |a|..j - |a| + |sep|];
      }
    }
  }

  lemma {:induction false} IndexShift(a: bytes, x: bytes, sep: bytes)
    requires sep != [] && sep[0] !in a
    ensures Index(x, sep).None? ==> Index(a + x, sep).None?
    ensures Index(x, sep).Some? ==> Index(a + x, sep) == Some(|a| + Index(x, sep).value)
  {
    if Index(x, sep).Some? {
      var i := Index(x, sep).value;
      OccursShift(a, x, sep, |a| + i);
      forall j | 0 <= j < |a| + i ensures !OccursAt(a + x, sep, j) {
        OccursShift(a, x, sep, j);
      }
      IndexIs(a + x, sep, |a| + i);
    } else if Index(a + x, sep).Some? {
      OccursShift(a, x, sep, Index(a + x, sep).value);
    }
  }

  // A separator behind a prefix that holds no byte of it is found right there.
  lemma {:induction false} IndexOfFirst(a: bytes, sep: bytes, x: bytes)
    requires sep != [] && sep[0] !in a
    ensures Index(a + sep + x, sep) == Some(|a|)
    ensures (a + sep + x)[..|a|] == a && (a + sep + x)[|a| + |sep|..] == x
  {
    assert (sep + x)[0..|sep|] == sep;
    IndexIs(sep + x, sep, 0);
    IndexShift(a, sep + x, sep);
    assert a + sep + x == a + (sep + x);
  }
}
