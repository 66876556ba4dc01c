/** When the binary search over blocks is right, as a condition on the ends of the blocks
    (ruleset/builtins/geo/matchers_v2geo.go:24-94). */
module GeoOrder {
  import opened Bytes
  import opened Bits
  import opened Cidr
  import opened GeoIp

  // ---- Blocks that contain something ----

  // A block that can contain a looked-up address at all; its stored address may have host bits.
  predicate Proper(b: Block, len: nat) {
    (len == 4 || len == 16) && |b.ip| == len && b.prefix <= 8 * len && Lookup(b.ip, len)
  }

  lemma {:induction false} ProperContains(b: Block, x: IP, len: nat)
    requires Proper(b, len) && Lookup(x, len)
    ensures Contains(b, x) <==> Agree(b.ip, x, b.prefix)
    ensures Contains(b, x) <==> SamePrefix(b.ip, x, b.prefix)
  {
    AgreeIsMasked(b.ip, x, b.prefix);
    AgreeIsBits(b.ip, x, b.prefix);
  }

  // What a list of the matcher holds: addresses of one of the two lengths.
  predicate Stored(b: Block, len: nat) { (len == 4 || len == 16) && |b.ip| == len }

  // A stored block that is not proper contains none of the addresses looked up.
  lemma {:induction false} OnlyProperContain(b: Block, x: IP, len: nat)
    requires Stored(b, len) && Lookup(x, len) && Contains(b, x)
    ensures Proper(b, len)
  {
  }

  lemma {:induction false} ConvexContains(b: Block, x: IP, y: IP, z: IP, len: nat)
    requires Proper(b, len) && Lookup(x, len) && Lookup(y, len) && Lookup(z, len)
    requires Contains(b, x) && Contains(b, z) && !Less(y, x) && !Less(z, y)
    ensures Contains(b, y)
  {
    ProperContains(b, x, len);
    ProperContains(b, y, len);
    ProperContains(b, z, len);
    AgreeEquivalence(b.ip, x, x, b.prefix);
    AgreeEquivalence(x, b.ip, z, b.prefix);
    BlockConvex(x, y, z, b.prefix);
    AgreeEquivalence(b.ip, x, y, b.prefix);
  }

  lemma {:induction false} OwnAddress(b: Block, len: nat)
    requires Proper(b, len)
    ensures Contains(b, b.ip)
  {
    ProperContains(b, b.ip, len);
    AgreeEquivalence(b.ip, b.ip, b.ip, b.prefix);
  }

  // ---- The first and the last address a block is looked up for ----

  function First(b: Block): IP { Lowest(b.ip, b.prefix) }

  // The last address in front of the IPv4-mapped ones, ::fffe:ffff:ffff.
  const BeforeMapped: IP := Fill(10, 0) + [0xFF] + [0xFE, 0xFF, 0xFF, 0xFF, 0xFF]

  const FirstMapped: IP := Fill(10, 0) + [0xFF] + [0xFF, 0, 0, 0, 0]

  function Last(b: Block): IP {
    var h := Highest(b.ip, b.prefix);
    if Mapped(h) then BeforeMapped else h
  }

  lemma {:induction false} AgreeFront(x: IP, y: IP, k: nat)
    requires k <= |x| == |y|
    ensures Agree(x, y, 8 * k) <==> x[..k] == y[..k]
    decreases k
  {
    if k > 0 {
      AgreeFront(x[1..], y[1..], k - 1);
      assert x[..k] == [x[0]] + x[1..][..k - 1] && y[..k] == [y[0]] + y[1..][..k - 1];
    } else if x != [] {
      Pow2To8();
      HighZero(x[0], 8);
      HighZero(y[0], 8);
    }
  }

  lemma {:induction false} MappedFront(x: IP)
    requires |x| == 16
    ensures Mapped(x) <==> x[..12] == FirstMapped[..12]
  {
    if x[..12] == FirstMapped[..12] {
      assert forall i :: 0 <= i < 12 ==> x[i] == x[..12][i];
    }
  }

  // The IPv4 form of an address: its own four bytes, or the last four behind ::ffff:0:0/96.
  lemma {:induction false} To4Means(x: IP)
    ensures To4(x) == if |x| == 4 then Some(x)
                      else if |x| == 16 && x[..12] == [0, 0, 0, 0, 0, 0, 0, 0, 0, 0, 0xFF, 0xFF] then Some(x[12..])
                      else None
  {
    if |x| == 16 {
      MappedFront(x);
      assert FirstMapped[..12] == [0, 0, 0, 0, 0, 0, 0, 0, 0, 0, 0xFF, 0xFF];
    }
  }

  // A block across the beginning of the mapped addresses has their neighbour.
  lemma {:induction false} AcrossMapped(x: IP, y: IP, n: nat)
    requires |x| == |y| == 16 && !Mapped(x) && Mapped(y) && Agree(x, y, n)
    ensures Agree(x, BeforeMapped, n)
  {
    MappedFront(x);
    MappedFront(y);
    if n >= 96 {
      AgreeLess(x, y, 96, n);
      AgreeFront(x, y, 12);
    } else {
      MappedFront(FirstMapped);
      AgreeFront(y, FirstMapped, 12);
      AgreeLess(y, FirstMapped, n, 96);
      NeighboursAgree();
      AgreeLess(FirstMapped, BeforeMapped, n, 95);
      AgreeEquivalence(x, y, FirstMapped, n);
      AgreeEquivalence(x, FirstMapped, BeforeMapped, n);
    }
  }

  lemma {:induction false} NeighboursAgree()
    ensures Agree(FirstMapped, BeforeMapped, 95)
    ensures !Mapped(BeforeMapped) && Less(BeforeMapped, FirstMapped)
  {
    var x, y: IP := [0xFF, 0, 0, 0, 0], [0xFE, 0xFF, 0xFF, 0xFF, 0xFF];
    assert High(0xFF, 1) == High(0xFE, 1) by {
      LowIsMod(0xFF, 1);
      LowIsMod(0xFE, 1);
    }
    assert Agree(x, y, 7);
    CommonFront(Fill(10, 0) + [0xFF], x, y, 7);
    CommonFront(Fill(10, 0) + [0xFF], y, x, 7);
  }

  // Nothing but mapped addresses lies between the neighbour and a mapped address.
  lemma {:induction false} NothingBetween(y: IP, h: IP)
    requires |y| == 16 && !Mapped(y) && Mapped(h) && !Less(h, y)
    ensures !Less(BeforeMapped, y)
  {
    var f := Fill(10, 0) + [0xFF];
    if Less(BeforeMapped, y) {
      var t := y[11..];
      assert h == f + h[11..];
      LessTransitive(BeforeMapped, y, BeforeMapped);
      FrontBetween(f, [0xFE, 0xFF, 0xFF, 0xFF, 0xFF], y, h[11..]);
      assert h[11..][0] == 0xFF;
      assert forall i :: 0 <= i < 11 ==> y[i] == y[..11][i];
      assert t[0] == y[11] == 0xFE;
      var u: IP := [0xFE, 0xFF, 0xFF, 0xFF, 0xFF];
      assert u[1..] == Fill(4, 0xFF);
      FillExtreme(t[1..]);
      assert !Less(u, t);
      assert y == f + t;
      CommonFront(f, u, t, 0);
    }
  }

  // First and Last are looked up and contained, and everything contained is between them.
  lemma {:induction false} FirstIsFirst(b: Block, x: IP, len: nat)
    requires Proper(b, len)
    ensures Lookup(First(b), len) && Contains(b, First(b))
    ensures Lookup(x, len) && Contains(b, x) ==> !Less(x, First(b))
  {
    hide Agree, Lowest, Contains;
    var f := First(b);
    LowestBounds(b.ip, f, b.prefix);
    if len == 16 && Mapped(f) {
      AcrossMapped(b.ip, f, b.prefix);
      LowestBounds(b.ip, BeforeMapped, b.prefix);
      NeighboursAgree();
      FirstOfMapped(f);
      LessTransitive(BeforeMapped, FirstMapped, f);
    }
    ProperContains(b, f, len);
    if Lookup(x, len) && Contains(b, x) {
      ProperContains(b, x, len);
      LowestBounds(b.ip, x, b.prefix);
    }
  }

  lemma {:induction false} FirstOfMapped(h: IP)
    requires Mapped(h)
    ensures !Less(h, FirstMapped)
  {
    var f := Fill(10, 0) + [0xFF];
    var z: IP := [0xFF, 0, 0, 0, 0];
    assert h == f + h[11..];
    assert z[1..] == Fill(4, 0);
    FillExtreme(h[11..][1..]);
    assert !Less(h[11..], z);
    CommonFront(f, h[11..], z, 0);
  }

  lemma {:induction false} LastIsLast(b: Block, x: IP, len: nat)
    requires Proper(b, len)
    ensures Lookup(Last(b), len) && Contains(b, Last(b))
    ensures Lookup(x, len) && Contains(b, x) ==> !Less(Last(b), x)
  {
    hide Agree, Highest, Contains;
    var h := Highest(b.ip, b.prefix);
    HighestBounds(b.ip, h, b.prefix);
    if Mapped(h) {
      AcrossMapped(b.ip, h, b.prefix);
      NeighboursAgree();
    }
    ProperContains(b, Last(b), len);
    if Lookup(x, len) && Contains(b, x) {
      ProperContains(b, x, len);
      HighestBounds(b.ip, x, b.prefix);
      if Mapped(h) {
        NothingBetween(x, h);
      }
    }
  }

  // ---- The condition ----

  // What two stored blocks, the first not behind the second, must satisfy: when the second
  // contains anything, its first address is in the first block or behind the stored address of
  // that; when the first contains anything, its last address is in the second block or not behind
  // the stored address of that.
  predicate Ordered(a: Block, b: Block, len: nat) {
    && (Proper(b, len) ==> Contains(a, First(b)) || Less(a.ip, First(b)))
    && (Proper(a, len) ==> Contains(b, Last(a)) || !Less(b.ip, Last(a)))
  }

  // Looking at two addresses settles all of them.
  lemma {:induction false} OrderedIffCompatible(a: Block, b: Block, len: nat)
    requires Stored(a, len) && Stored(b, len)
    ensures Ordered(a, b, len) <==> Compatible(a, b, len)
  {
    hide Contains, Lookup, Less, First, Last;
    if Compatible(a, b, len) {
      if Proper(b, len) {
        FirstIsFirst(b, First(b), len);
      }
      if Proper(a, len) {
        LastIsLast(a, Last(a), len);
      }
    }
    if Ordered(a, b, len) {
      forall x | Lookup(x, len)
        ensures Contains(b, x) && !Contains(a, x) ==> Less(a.ip, x)
        ensures Contains(a, x) && !Contains(b, x) ==> !Less(b.ip, x)
      {
        if Contains(b, x) && !Contains(a, x) {
          OrderedBelow(a, b, x, len);
        }
        if Contains(a, x) && !Contains(b, x) {
          OrderedAbove(a, b, x, len);
        }
      }
    }
  }

  lemma {:induction false} OrderedBelow(a: Block, b: Block, x: IP, len: nat)
    requires Stored(a, len) && Stored(b, len) && Ordered(a, b, len)
    requires Lookup(x, len) && Contains(b, x) && !Contains(a, x)
    ensures Less(a.ip, x)
  {
    hide Contains, Less, First, Last;
    OnlyProperContain(b, x, len);
    FirstIsFirst(b, x, len);
    if Contains(a, First(b)) {
      OnlyProperContain(a, First(b), len);
      OwnAddress(a, len);
      if !Less(a.ip, x) {
        ConvexContains(a, First(b), x, a.ip, len);
      }
    } else {
      LessTransitive(a.ip, First(b), x);
    }
  }

  lemma {:induction false} OrderedAbove(a: Block, b: Block, x: IP, len: nat)
    requires Stored(a, len) && Stored(b, len) && Ordered(a, b, len)
    requires Lookup(x, len) && Contains(a, x) && !Contains(b, x)
    ensures !Less(b.ip, x)
  {
    hide Contains, Less, First, Last;
    OnlyProperContain(a, x, len);
    LastIsLast(a, x, len);
    if Contains(b, Last(a)) {
      OnlyProperContain(b, Last(a), len);
      OwnAddress(b, len);
      if Less(b.ip, x) {
        LessTransitive(b.ip, x, b.ip);
        ConvexContains(b, b.ip, x, Last(a), len);
      }
    } else {
      LessTransitive(x, Last(a), b.ip);
    }
  }

  function Members(n: seq<Block>): set<Block> { set b | b in n }

  // A family in which the search is always right, decided pair by pair.
  predicate PairwiseOrdered(family: set<Block>, len: nat) {
    forall a, b :: a in family && b in family && !Less(b.ip, a.ip) ==> Ordered(a, b, len)
  }

  // BINARY SEARCH = LINEAR SCAN, for every list over a family of stored blocks and every address,
  // if and only if the family passes a finite check.
  lemma {:induction false} SearchableIffOrdered(family: set<Block>, len: nat)
    requires forall b :: b in family ==> Stored(b, len)
    ensures Searchable(family, len) <==> PairwiseOrdered(family, len)
  {
    hide Ordered, Compatible, Searchable, Less;
    SearchableIffCompatible(family, len);
    forall a, b | a in family && b in family ensures Ordered(a, b, len) <==> Compatible(a, b, len) {
      OrderedIffCompatible(a, b, len);
    }
  }

  // ---- What the condition means for proper blocks ----

  ghost predicate Disjoint(a: Block, b: Block, len: nat) {
    forall x :: Lookup(x, len) ==> !(Contains(a, x) && Contains(b, x))
  }

  ghost predicate SameSet(a: Block, b: Block, len: nat) {
    forall x :: Lookup(x, len) ==> (Contains(a, x) <==> Contains(b, x))
  }

  predicate Inside(a: Block, b: Block) { a.prefix >= b.prefix && Contains(b, a.ip) }

  ghost predicate Subset(a: Block, b: Block, len: nat) {
    forall x :: Lookup(x, len) && Contains(a, x) ==> Contains(b, x)
  }

  lemma {:induction false} InsideSubset(a: Block, b: Block, len: nat)
    requires Proper(a, len) && Proper(b, len) && Inside(a, b)
    ensures Subset(a, b, len)
  {
    hide Contains, Agree;
    ProperContains(b, a.ip, len);
    forall x | Lookup(x, len) && Contains(a, x) ensures Contains(b, x) {
      ProperContains(a, x, len);
      ProperContains(b, x, len);
      AgreeLess(a.ip, x, b.prefix, a.prefix);
      AgreeEquivalence(b.ip, a.ip, x, b.prefix);
    }
  }

  // Blocks are disjoint or one is inside the other.
  lemma {:induction false} NestedOrDisjoint(a: Block, b: Block, len: nat)
    requires Proper(a, len) && Proper(b, len) && a.prefix >= b.prefix
    ensures Inside(a, b) || Disjoint(a, b, len)
  {
    hide Contains, Agree;
    if !Disjoint(a, b, len) {
      var x :| Lookup(x, len) && Contains(a, x) && Contains(b, x);
      ProperContains(a, x, len);
      ProperContains(b, x, len);
      ProperContains(b, a.ip, len);
      AgreeLess(a.ip, x, b.prefix, a.prefix);
      AgreeEquivalence(a.ip, x, b.ip, b.prefix);
      AgreeEquivalence(b.ip, x, b.ip, b.prefix);
      AgreeEquivalence(b.ip, x, a.ip, b.prefix);
    }
  }

  // IN GEOMETRY: two proper blocks guide the search if and only if they are disjoint, or nested
  // with a common end, the last address when the later one is inside, the first one when the
  // earlier one is.
  lemma {:induction false} OrderedMeans(a: Block, b: Block, len: nat)
    requires Proper(a, len) && Proper(b, len) && !Less(b.ip, a.ip)
    ensures Ordered(a, b, len) <==>
              || Disjoint(a, b, len)
              || (Subset(b, a, len) && Contains(b, Last(a)))
              || (Subset(a, b, len) && Contains(a, First(b)))
  {
    hide Contains, Less, First, Last, Inside;
    FirstIsFirst(b, a.ip, len);
    LastIsLast(a, b.ip, len);
    OwnAddress(a, len);
    OwnAddress(b, len);
    if a.prefix >= b.prefix {
      NestedOrDisjoint(a, b, len);
      if Inside(a, b) {
        InsideSubset(a, b, len);
      }
    } else {
      NestedOrDisjoint(b, a, len);
      if Inside(b, a) {
        InsideSubset(b, a, len);
      }
    }
    if Disjoint(a, b, len) {
      DisjointCompatible(a, b, len);
      OrderedIffCompatible(a, b, len);
    }
    if Contains(b, Last(a)) {
      LessTransitive(b.ip, Last(a), b.ip);
    }
    LessTotal(b.ip, Last(a));
  }

  lemma {:induction false} DisjointCompatible(a: Block, b: Block, len: nat)
    requires Proper(a, len) && Proper(b, len) && !Less(b.ip, a.ip)
    requires Disjoint(a, b, len) || SameSet(a, b, len)
    ensures Compatible(a, b, len)
  {
    OwnAddress(a, len);
    OwnAddress(b, len);
    forall x | Lookup(x, len)
      ensures Contains(b, x) && !Contains(a, x) ==> Less(a.ip, x)
      ensures Contains(a, x) && !Contains(b, x) ==> !Less(b.ip, x)
    {
      if Contains(b, x) && !Contains(a, x) && !Less(a.ip, x) {
        ConvexContains(b, x, a.ip, b.ip, len);
      }
      if Contains(a, x) && !Contains(b, x) && Less(b.ip, x) {
        LessTransitive(b.ip, x, b.ip);
        ConvexContains(a, a.ip, b.ip, x, len);
      }
    }
  }

  ghost predicate DisjointFamily(n: seq<Block>, len: nat) {
    && (forall b :: b in n ==> Proper(b, len))
    && forall a, b :: a in n && b in n ==> Disjoint(a, b, len) || SameSet(a, b, len)
  }

  // Sorted proper blocks that are pairwise equal or disjoint are searched correctly.
  lemma {:induction false} DisjointSearch(n: seq<Block>, ip: IP, len: nat)
    requires Sorted(n) && DisjointFamily(n, len) && Lookup(ip, len)
    ensures BinarySearch(n, ip) <==> Linear(n, ip)
  {
    forall i, j ensures CompatibleAt(n, i, j, len) {
      if 0 <= i < j < |n| {
        assert n[i] in n && n[j] in n;
        DisjointCompatible(n[i], n[j], len);
      }
    }
    SearchIsLinear(n, ip, len);
  }

  lemma {:induction false} DisjointOrdered(n: seq<Block>, len: nat)
    requires DisjointFamily(n, len)
    ensures PairwiseOrdered(Members(n), len)
  {
    hide Contains, Ordered, Disjoint, SameSet, Less;
    forall a, b | a in n && b in n && !Less(b.ip, a.ip) ensures Ordered(a, b, len) {
      DisjointCompatible(a, b, len);
      OrderedIffCompatible(a, b, len);
    }
  }

  // A block in the middle of another breaks the search: the outer one ends elsewhere.
  lemma {:induction false} NestedNotSearchable()
    ensures !Searchable({Block([0, 0, 0, 0], 0), Block([64, 0, 0, 0], 2)}, 4)
  {
    var outer, inner, x: IP := Block([0, 0, 0, 0], 0), Block([64, 0, 0, 0], 2), [200, 0, 0, 0];
    ProperContains(outer, x, 4);
    ProperContains(inner, x, 4);
    assert Bit(inner.ip, 0) == 0 && Bit(x, 0) == 1 by {
      Cidr.BitOfTop(64);
      Cidr.BitOfTop(200);
    }
    assert Contains(outer, x) && !Contains(inner, x) && Less(inner.ip, x);
    SearchableIffCompatible({outer, inner}, 4);
    assert !Compatible(outer, inner, 4);
  }
}
