/** The GeoIP matcher (ruleset/builtins/geo/matchers_v2geo.go): binary search over CIDR blocks. */
module GeoIp {
  import opened Bytes
  import opened Cidr

  // ---- net.IP.To4 and net.IPNet.Contains ----

  predicate Mapped(ip: IP) {
    |ip| == 16 && (forall i :: 0 <= i < 10 ==> ip[i] == 0) && ip[10] == 0xFF && ip[11] == 0xFF
  }

  function To4(ip: IP): Option<IP> {
    if |ip| == 4 then Some(ip) else if Mapped(ip) then Some(ip[12..]) else None
  }

  // networkNumberAndMask; a nil mask or network is empty.
  function NetworkAndMask(b: Block): (IP, IP) {
    var m := if (|b.ip| == 4 || |b.ip| == 16) && b.prefix <= 8 * |b.ip| then MaskBytes(b.prefix, |b.ip|) else [];
    var nn := if To4(b.ip).Some? then To4(b.ip).value else if |b.ip| == 16 then b.ip else [];
    if nn == [] || m == [] then ([], [])
    else if |m| == 4 then (if |nn| == 4 then (nn, m) else ([], []))
    else if |nn| == 4 then (nn, m[12..])
    else (nn, m)
  }

  predicate Contains(b: Block, ip: IP) {
    var (nn, m) := NetworkAndMask(b);
    var x := if To4(ip).Some? then To4(ip).value else ip;
    |x| == |nn| == |m| && MaskedEqual(nn, x, m)
  }

  // ---- Searching ----

  // The search over the answers alone: hit[i] when block i contains the address, less[i] when its
  // stored address is in front of it.
  predicate Probe(hit: seq<bool>, less: seq<bool>, left: int, right: int)
    requires 0 <= left && right < |hit| == |less|
    decreases right - left
  {
    if left > right then false
    else
      var mid := (left + right) / 2;
      if hit[mid] then true
      else if less[mid] then Probe(hit, less, mid + 1, right)
      else Probe(hit, less, left, mid - 1)
  }

  function Hits(n: seq<Block>, ip: IP): (r: seq<bool>)
    ensures |r| == |n|
  {
    if n == [] then [] else [Contains(n[0], ip)] + Hits(n[1..], ip)
  }

  function Lesses(n: seq<Block>, ip: IP): (r: seq<bool>)
    ensures |r| == |n|
  {
    if n == [] then [] else [Less(n[0].ip, ip)] + Lesses(n[1..], ip)
  }

  lemma {:induction false} AnswersAt(n: seq<Block>, ip: IP, i: nat)
    requires i < |n|
    ensures Hits(n, ip)[i] == Contains(n[i], ip) && Lesses(n, ip)[i] == Less(n[i].ip, ip)
  {
    if i > 0 {
      AnswersAt(n[1..], ip, i - 1);
    }
  }

  predicate BinarySearch(n: seq<Block>, ip: IP) { Probe(Hits(n, ip), Lesses(n, ip), 0, |n| - 1) }

  // A scan of the whole list.
  predicate Linear(n: seq<Block>, ip: IP) { n != [] && (Contains(n[0], ip) || Linear(n[1..], ip)) }

  predicate AnyTrue(hit: seq<bool>) { exists i :: 0 <= i < |hit| && hit[i] }

  lemma {:induction false} LinearIsHit(n: seq<Block>, ip: IP)
    ensures Linear(n, ip) <==> AnyTrue(Hits(n, ip))
  {
    if n != [] {
      LinearIsHit(n[1..], ip);
      var hit := Hits(n, ip);
      assert hit[0] == Contains(n[0], ip) && hit[1..] == Hits(n[1..], ip);
      AnyTrueCons(hit);
    }
  }

  lemma {:induction false} AnyTrueCons(hit: seq<bool>)
    requires hit != []
    ensures AnyTrue(hit) <==> hit[0] || AnyTrue(hit[1..])
  {
    if AnyTrue(hit[1..]) {
      var i :| 0 <= i < |hit[1..]| && hit[1..][i];
      assert hit[i + 1];
    }
    if AnyTrue(hit) && !hit[0] {
      var i :| 0 <= i < |hit| && hit[i];
      assert hit[1..][i - 1];
    }
  }

  lemma {:induction false} LinearMeans(n: seq<Block>, ip: IP)
    ensures Linear(n, ip) <==> exists b :: b in n && Contains(b, ip)
  {
    if n != [] {
      LinearMeans(n[1..], ip);
      assert n == [n[0]] + n[1..];
    }
  }

  predicate Sorted(n: seq<Block>) { forall i, j :: 0 <= i < j < |n| ==> !Less(n[j].ip, n[i].ip) }

  // Without any condition: what the search finds is there.
  lemma {:induction false} ProbeSound(hit: seq<bool>, less: seq<bool>, left: int, right: int)
    requires 0 <= left && right < |hit| == |less| && Probe(hit, less, left, right)
    ensures AnyTrue(hit)
    decreases right - left
  {
    var mid := (left + right) / 2;
    if !hit[mid] {
      if less[mid] {
        ProbeSound(hit, less, mid + 1, right);
      } else {
        ProbeSound(hit, less, left, mid - 1);
      }
    }
  }

  lemma {:induction false} SearchSound(n: seq<Block>, ip: IP)
    requires BinarySearch(n, ip)
    ensures Linear(n, ip)
  {
    ProbeSound(Hits(n, ip), Lesses(n, ip), 0, |n| - 1);
    LinearIsHit(n, ip);
  }

  // The addresses looked up among blocks of one length.
  predicate Lookup(x: IP, len: nat) { |x| == len && (len == 4 || To4(x).None?) }

  // Two blocks, the first not behind the second, never send the search the wrong way: an address
  // in the second only is behind the stored address of the first, and one in the first only is
  // not behind that of the second.
  ghost predicate Compatible(a: Block, b: Block, len: nat) {
    forall x :: Lookup(x, len) ==>
      && (Contains(b, x) && !Contains(a, x) ==> Less(a.ip, x))
      && (Contains(a, x) && !Contains(b, x) ==> !Less(b.ip, x))
  }

  ghost predicate CompatibleAt(n: seq<Block>, i: int, j: int, len: nat) {
    0 <= i < j < |n| ==> Compatible(n[i], n[j], len)
  }

  ghost predicate AllCompatible(n: seq<Block>, len: nat) {
    forall i, j :: CompatibleAt(n, i, j, len)
  }

  // A miss always points towards the hits.
  predicate GuidesAt(hit: seq<bool>, less: seq<bool>, i: int, j: int) {
    0 <= i < j < |hit| == |less| ==> (hit[j] && !hit[i] ==> less[i]) && (hit[i] && !hit[j] ==> !less[j])
  }

  ghost predicate Guides(hit: seq<bool>, less: seq<bool>) {
    |hit| == |less| && forall i, j :: GuidesAt(hit, less, i, j)
  }

  lemma {:induction false} ProbeComplete(hit: seq<bool>, less: seq<bool>, left: int, right: int, k: int)
    requires 0 <= left <= k <= right < |hit| && Guides(hit, less) && hit[k]
    ensures Probe(hit, less, left, right)
    decreases right - left
  {
    var mid := (left + right) / 2;
    if !hit[mid] {
      assert GuidesAt(hit, less, mid, k) && GuidesAt(hit, less, k, mid);
      if mid < k {
        ProbeComplete(hit, less, mid + 1, right, k);
      } else {
        ProbeComplete(hit, less, left, mid - 1, k);
      }
    }
  }

  lemma {:induction false} GuideAt(n: seq<Block>, ip: IP, len: nat, i: int, j: int)
    requires Lookup(ip, len) && CompatibleAt(n, i, j, len)
    ensures GuidesAt(Hits(n, ip), Lesses(n, ip), i, j)
  {
    if 0 <= i < j < |n| {
      AnswersAt(n, ip, i);
      AnswersAt(n, ip, j);
    }
  }

  lemma {:induction false} CompatibleGuides(n: seq<Block>, ip: IP, len: nat)
    requires Lookup(ip, len) && AllCompatible(n, len)
    ensures Guides(Hits(n, ip), Lesses(n, ip))
  {
    forall i: int, j: int ensures GuidesAt(Hits(n, ip), Lesses(n, ip), i, j) {
      assert CompatibleAt(n, i, j, len);
      GuideAt(n, ip, len, i, j);
    }
  }

  // A guided probe of everything finds whatever there is.
  lemma {:induction false} GuidedProbe(hit: seq<bool>, less: seq<bool>)
    requires |hit| == |less| && Guides(hit, less)
    ensures Probe(hit, less, 0, |hit| - 1) <==> AnyTrue(hit)
  {
    if Probe(hit, less, 0, |hit| - 1) {
      ProbeSound(hit, less, 0, |hit| - 1);
    }
    if AnyTrue(hit) {
      var k :| 0 <= k < |hit| && hit[k];
      ProbeComplete(hit, less, 0, |hit| - 1, k);
    }
  }

  lemma {:induction false} GuidedSearch(n: seq<Block>, ip: IP)
    requires Guides(Hits(n, ip), Lesses(n, ip))
    ensures BinarySearch(n, ip) <==> AnyTrue(Hits(n, ip))
  {
    GuidedProbe(Hits(n, ip), Lesses(n, ip));
  }

  lemma {:induction false} SearchIsLinear(n: seq<Block>, ip: IP, len: nat)
    requires Lookup(ip, len) && AllCompatible(n, len)
    ensures BinarySearch(n, ip) <==> Linear(n, ip)
  {
    CompatibleGuides(n, ip, len);
    GuidedSearch(n, ip);
    LinearIsHit(n, ip);
  }

  // ---- Exactly the families of blocks for which the search is right ----

  // Every sorted list of blocks of the family, with repetitions, is searched correctly.
  ghost predicate Searchable(family: set<Block>, len: nat) {
    forall n, x :: SortedOver(n, family) && Lookup(x, len) ==> (BinarySearch(n, x) <==> Linear(n, x))
  }

  ghost predicate SortedOver(n: seq<Block>, family: set<Block>) {
    Sorted(n) && forall b :: b in n ==> b in family
  }

  ghost predicate PairwiseCompatible(family: set<Block>, len: nat) {
    forall a, b :: a in family && b in family && !Less(b.ip, a.ip) ==> Compatible(a, b, len)
  }

  // On [a, b] the search looks at a first; on [a, b, b] at b.
  lemma {:induction false} CompatibleNeeded(family: set<Block>, a: Block, b: Block, len: nat)
    requires Searchable(family, len) && a in family && b in family && !Less(b.ip, a.ip)
    ensures Compatible(a, b, len)
  {
    var two, three := [a, b], [a, b, b];
    LessTransitive(b.ip, b.ip, b.ip);
    assert SortedOver(two, family) && SortedOver(three, family);
    forall x | Lookup(x, len)
      ensures Contains(b, x) && !Contains(a, x) ==> Less(a.ip, x)
      ensures Contains(a, x) && !Contains(b, x) ==> !Less(b.ip, x)
    {
      if Contains(b, x) && !Contains(a, x) {
        AnswersAt(two, x, 0);
        AnswersAt(two, x, 1);
        assert Hits(two, x) == [false, true];
        LinearIsHit(two, x);
        assert Hits(two, x)[1];
        assert BinarySearch(two, x);
        ProbeTwo(Lesses(two, x));
      }
      if Contains(a, x) && !Contains(b, x) {
        AnswersAt(three, x, 0);
        AnswersAt(three, x, 1);
        AnswersAt(three, x, 2);
        assert Hits(three, x) == [true, false, false];
        LinearIsHit(three, x);
        assert Hits(three, x)[0];
        assert BinarySearch(three, x);
        ProbeThree(Lesses(three, x));
      }
    }
  }

  lemma {:induction false} ProbeTwo(less: seq<bool>)
    requires |less| == 2 && Probe([false, true], less, 0, 1)
    ensures less[0]
  {
  }

  lemma {:induction false} ProbeThree(less: seq<bool>)
    requires |less| == 3 && less[1] == less[2]
    ensures Probe([true, false, false], less, 0, 2) ==> !less[1]
  {
    var hit := [true, false, false];
    assert Probe(hit, less, 0, 2) == if less[1] then Probe(hit, less, 2, 2) else Probe(hit, less, 0, 0);
    assert Probe(hit, less, 2, 2) == if less[2] then Probe(hit, less, 3, 2) else Probe(hit, less, 2, 1);
  }

  // BINARY SEARCH = LINEAR SCAN. The search answers as a scan of the whole list does, for every
  // list over a family of blocks and every address, if and only if the blocks of the family are
  // pairwise compatible.
  lemma {:induction false} SearchableIffCompatible(family: set<Block>, len: nat)
    ensures Searchable(family, len) <==> PairwiseCompatible(family, len)
  {
    if Searchable(family, len) {
      forall a, b | a in family && b in family && !Less(b.ip, a.ip) ensures Compatible(a, b, len) {
        CompatibleNeeded(family, a, b, len);
      }
    }
    if PairwiseCompatible(family, len) {
      forall n, x | SortedOver(n, family) && Lookup(x, len) ensures BinarySearch(n, x) <==> Linear(n, x) {
        forall i, j ensures CompatibleAt(n, i, j, len) {
          if 0 <= i < j < |n| {
            assert n[i] in n && n[j] in n;
          }
        }
        SearchIsLinear(n, x, len);
      }
    }
  }
}
