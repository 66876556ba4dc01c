/** The GeoIP matcher: building it from a country's list and asking it
    (ruleset/builtins/geo/matchers_v2geo.go:15-94). */
module GeoLists {
  import opened Bytes
  import opened Cidr
  import opened GeoIp
  import opened GeoOrder

  // A country's list: its networks and whether the match is inverted.
  datatype IpList = IpList(cidrs: seq<Block>, inverse: bool)

  datatype HostInfo = HostInfo(ipv4: Option<IP>, ipv6: Option<IP>, name: string)

  datatype Matcher = Matcher(n4: seq<Block>, n6: seq<Block>, inverse: bool)

  function OfLength(cidrs: seq<Block>, len: nat): seq<Block> {
    if cidrs == [] then []
    else (if |cidrs[0].ip| == len then [cidrs[0]] else []) + OfLength(cidrs[1..], len)
  }

  // A sort by address; equal addresses may come out in any order.
  ghost predicate Sorts(sort: seq<Block> -> seq<Block>) {
    forall n :: Sorted(sort(n)) && multiset(sort(n)) == multiset(n)
  }

  // One way to sort.
  function Insert(b: Block, n: seq<Block>): seq<Block> {
    if n == [] || !Less(n[0].ip, b.ip) then [b] + n else [n[0]] + Insert(b, n[1..])
  }

  function Sort(n: seq<Block>): seq<Block> {
    if n == [] then [] else Insert(n[0], Sort(n[1..]))
  }

  predicate LengthsValid(cidrs: seq<Block>) { forall b :: b in cidrs ==> |b.ip| == 4 || |b.ip| == 16 }

  // newGeoIPMatcher; None for a network of another length.
  function NewMatcher(sort: seq<Block> -> seq<Block>, list: IpList): Option<Matcher> {
    if !LengthsValid(list.cidrs) then None
    else Some(Matcher(sort(OfLength(list.cidrs, 4)), sort(OfLength(list.cidrs, 16)), list.inverse))
  }

  predicate MatchIP(m: Matcher, ip: IP) {
    if To4(ip).Some? then BinarySearch(m.n4, To4(ip).value) else BinarySearch(m.n6, ip)
  }

  predicate Match(m: Matcher, host: HostInfo) {
    if host.ipv4.Some? && MatchIP(m, host.ipv4.value) then !m.inverse
    else if host.ipv6.Some? && MatchIP(m, host.ipv6.value) then !m.inverse
    else m.inverse
  }

  lemma {:induction false} InsertKeeps(b: Block, n: seq<Block>)
    ensures multiset(Insert(b, n)) == multiset(n) + multiset{b}
  {
    if n != [] && Less(n[0].ip, b.ip) {
      InsertKeeps(b, n[1..]);
      assert n == [n[0]] + n[1..];
    }
  }

  lemma {:induction false} InsertSorted(b: Block, n: seq<Block>)
    requires Sorted(n)
    ensures Sorted(Insert(b, n))
  {
    if n == [] {
    } else if !Less(n[0].ip, b.ip) {
      var r := [b] + n;
      forall i, j | 0 <= i < j < |r| ensures !Less(r[j].ip, r[i].ip) {
        if i == 0 && j > 1 {
          LessTransitive(b.ip, n[0].ip, r[j].ip);
        }
      }
    } else {
      var tail := Insert(b, n[1..]);
      InsertSorted(b, n[1..]);
      InsertKeeps(b, n[1..]);
      LessTransitive(n[0].ip, b.ip, n[0].ip);
      forall c | c in tail ensures !Less(c.ip, n[0].ip) {
        assert c in multiset(tail);
        assert c == b || c in n[1..];
      }
    }
  }

  lemma {:induction false} SortOne(n: seq<Block>)
    ensures Sorted(Sort(n)) && multiset(Sort(n)) == multiset(n)
  {
    if n != [] {
      SortOne(n[1..]);
      InsertSorted(n[0], Sort(n[1..]));
      InsertKeeps(n[0], Sort(n[1..]));
      assert n == [n[0]] + n[1..];
    }
  }

  lemma {:induction false} SortSorts()
    ensures Sorts(Sort)
  {
    forall n ensures Sorted(Sort(n)) && multiset(Sort(n)) == multiset(n) {
      SortOne(n);
    }
  }

  lemma {:induction false} SameMembers(n: seq<Block>, m: seq<Block>)
    requires multiset(n) == multiset(m)
    ensures forall b :: b in n <==> b in m
  {
    forall b ensures b in n <==> b in m {
      assert b in n <==> b in multiset(n);
    }
  }

  lemma {:induction false} OfLengthMembers(cidrs: seq<Block>, len: nat)
    ensures forall b :: b in OfLength(cidrs, len) <==> b in cidrs && |b.ip| == len
  {
    if cidrs != [] {
      OfLengthMembers(cidrs[1..], len);
      assert cidrs == [cidrs[0]] + cidrs[1..];
    }
  }

  // The form an address is looked up in.
  function Short(ip: IP): IP { if To4(ip).Some? then To4(ip).value else ip }

  // Some network of the list, written in the same form, contains the address.
  predicate Listed(cidrs: seq<Block>, ip: IP) {
    exists b :: b in cidrs && |b.ip| == |Short(ip)| && Contains(b, ip)
  }

  // Valid lengths, and the networks of each length pass the check of SearchableIffOrdered.
  predicate GoodList(cidrs: seq<Block>) {
    && LengthsValid(cidrs)
    && PairwiseOrdered(Members(OfLength(cidrs, 4)), 4) && PairwiseOrdered(Members(OfLength(cidrs, 16)), 16)
  }

  lemma {:induction false} SortedSearch(sort: seq<Block> -> seq<Block>, cidrs: seq<Block>, ip: IP, len: nat)
    requires Sorts(sort) && Lookup(ip, len) && (len == 4 || len == 16)
    requires PairwiseOrdered(Members(OfLength(cidrs, len)), len)
    ensures BinarySearch(sort(OfLength(cidrs, len)), ip) <==> exists b :: b in cidrs && |b.ip| == len && Contains(b, ip)
  {
    hide Contains, PairwiseOrdered, Sorted, BinarySearch;
    var n := sort(OfLength(cidrs, len));
    var family := Members(OfLength(cidrs, len));
    SameMembers(n, OfLength(cidrs, len));
    OfLengthMembers(cidrs, len);
    SearchableIffOrdered(family, len);
    assert SortedOver(n, family);
    LinearMeans(n, ip);
  }

  lemma {:induction false} MatchIPIsListed(sort: seq<Block> -> seq<Block>, list: IpList, ip: IP)
    requires Sorts(sort) && GoodList(list.cidrs) && (|ip| == 4 || |ip| == 16)
    ensures MatchIP(NewMatcher(sort, list).value, ip) <==> Listed(list.cidrs, ip)
  {
    SortedSearch(sort, list.cidrs, Short(ip), |Short(ip)|);
    forall b ensures Contains(b, Short(ip)) == Contains(b, ip) {
    }
  }

  // THE MATCHER MEANS ITS LIST, however equal addresses are sorted: when the networks pass the
  // check, a host matches when one of its addresses is in a network of the list, or in none when
  // the list is inverted.
  lemma {:induction false} MatchMeansListed(sort: seq<Block> -> seq<Block>, list: IpList, host: HostInfo)
    requires Sorts(sort) && GoodList(list.cidrs)
    requires host.ipv4.Some? ==> |host.ipv4.value| == 4 || |host.ipv4.value| == 16
    requires host.ipv6.Some? ==> |host.ipv6.value| == 4 || |host.ipv6.value| == 16
    ensures NewMatcher(sort, list).Some?
    ensures Match(NewMatcher(sort, list).value, host) ==
              (list.inverse != ((host.ipv4.Some? && Listed(list.cidrs, host.ipv4.value))
                                || (host.ipv6.Some? && Listed(list.cidrs, host.ipv6.value))))
  {
    hide MatchIP, Listed, PairwiseOrdered;
    if host.ipv4.Some? {
      MatchIPIsListed(sort, list, host.ipv4.value);
    }
    if host.ipv6.Some? {
      MatchIPIsListed(sort, list, host.ipv6.value);
    }
  }

  // Networks that are pairwise equal or disjoint pass.
  lemma {:induction false} DisjointIsGood(cidrs: seq<Block>)
    requires LengthsValid(cidrs)
    requires DisjointFamily(OfLength(cidrs, 4), 4) && DisjointFamily(OfLength(cidrs, 16), 16)
    ensures GoodList(cidrs)
  {
    DisjointOrdered(OfLength(cidrs, 4), 4);
    DisjointOrdered(OfLength(cidrs, 16), 16);
  }

  // ---- The looping form ----

  method MatchIPLoop(m: Matcher, address: IP) returns (found: bool)
    ensures found == MatchIP(m, address)
  {
    if To4(address).Some? {
      found := SearchLoop(m.n4, To4(address).value);
    } else {
      found := SearchLoop(m.n6, address);
    }
  }

  method SearchLoop(n: seq<Block>, ip: IP) returns (found: bool)
    ensures found == BinarySearch(n, ip)
  {
    forall i | 0 <= i < |n| ensures Hits(n, ip)[i] == Contains(n[i], ip) && Lesses(n, ip)[i] == Less(n[i].ip, ip) {
      AnswersAt(n, ip, i);
    }
    found := ProbeLoop(n, ip, Hits(n, ip), Lesses(n, ip));
  }

  // hits and lesses are what the two questions answer at each position.
  method ProbeLoop(n: seq<Block>, ip: IP, ghost hits: seq<bool>, ghost lesses: seq<bool>) returns (found: bool)
    requires |hits| == |lesses| == |n|
    requires forall i :: 0 <= i < |n| ==> hits[i] == Contains(n[i], ip) && lesses[i] == Less(n[i].ip, ip)
    ensures found == Probe(hits, lesses, 0, |n| - 1)
  {
    hide Contains, Less;
    var left, right := 0, |n| - 1;
    while left <= right
      invariant 0 <= left && right < |n|
      invariant Probe(hits, lesses, left, right) == Probe(hits, lesses, 0, |n| - 1)
      decreases right - left
    {
      var mid := (left + right) / 2;
      if Contains(n[mid], ip) {
        return true;
      } else if Less(n[mid].ip, ip) {
        left := mid + 1;
      } else {
        right := mid - 1;
      }
    }
    return false;
  }

  lemma {:induction false} OfLengthSnoc(cidrs: seq<Block>, b: Block, len: nat)
    ensures OfLength(cidrs + [b], len) == OfLength(cidrs, len) + (if |b.ip| == len then [b] else [])
  {
    if cidrs == [] {
      assert cidrs + [b] == [b];
    } else {
      assert (cidrs + [b])[1..] == cidrs[1..] + [b];
      OfLengthSnoc(cidrs[1..], b, len);
      var first, last := if |cidrs[0].ip| == len then [cidrs[0]] else [], if |b.ip| == len then [b] else [];
      Assoc(first, OfLength(cidrs[1..], len), last);
    }
  }

  method NewGeoIPMatcher(sort: seq<Block> -> seq<Block>, list: IpList) returns (r: Option<Matcher>)
    ensures r == NewMatcher(sort, list)
    ensures r.None? <==> exists b :: b in list.cidrs && |b.ip| != 4 && |b.ip| != 16
  {
    var n4: seq<Block>, n6: seq<Block> := [], [];
    var cs := list.cidrs;
    for i := 0 to |cs|
      invariant LengthsValid(cs[..i])
      invariant n4 == OfLength(cs[..i], 4) && n6 == OfLength(cs[..i], 16)
    {
      var cidr := cs[i];
      assert cs[..i + 1] == cs[..i] + [cidr];
      OfLengthSnoc(cs[..i], cidr, 4);
      OfLengthSnoc(cs[..i], cidr, 16);
      if |cidr.ip| == 4 {
        n4 := n4 + [cidr];
      } else if |cidr.ip| == 16 {
        n6 := n6 + [cidr];
      } else {
        assert cidr in cs;
        return None;
      }
    }
    assert cs[..|cs|] == cs;
    return Some(Matcher(sort(n4), sort(n6), list.inverse));
  }
}
