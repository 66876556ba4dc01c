/** The WireGuard analyzer (analyzer/udp/wireguard.go): a ring of sender indexes as a bounded recency list. */
module WireGuard {
  import opened Bytes
  import opened Props

  const INVALID_COUNT_THRESHOLD: nat := 4
  const REMEMBERED_INDEX_COUNT: nat := 6

  const INITIATION: byte := 1
  const RESPONSE: byte := 2
  const COOKIE_REPLY: byte := 3
  const DATA: byte := 4

  datatype Index = Index(sender: nat, reverse: bool)

  function LE32(b: bytes): nat
    requires |b| == 4
  {
    b[0] + 0x100 * (b[1] as nat) + 0x1_0000 * (b[2] as nat) + 0x100_0000 * (b[3] as nat)
  }

  function LE64(b: bytes): nat
    requires |b| == 8
  {
    LE32(b[..4]) + 0x1_0000_0000 * LE32(b[4..])
  }

  // The last n elements.
  function Last(s: seq<Index>, n: nat): seq<Index> {
    if |s| <= n then s else s[|s| - n..]
  }

  // The k-th last element.
  function Back(s: seq<Index>, k: nat): Index
    requires k < |s|
  {
    s[|s| - 1 - k]
  }

  lemma {:induction false} InLast(s: seq<Index>, n: nat, x: Index)
    ensures x in Last(s, n) <==> exists k :: 0 <= k < n && k < |s| && Back(s, k) == x
  {
    var r := Last(s, n);
    if x in r {
      var i :| 0 <= i < |r| && r[i] == x;
      assert Back(s, |r| - 1 - i) == x;
    }
    forall k | 0 <= k < n && k < |s| && Back(s, k) == x ensures x in r {
      assert r[|r| - 1 - k] == x;
    }
  }

  // ---- Packets ----

  datatype Kind = Invalid | Initiation(sender: nat) | Response(sender: nat, receiver: nat)
      | PacketData(receiver: nat, counter: nat) | Cookie(receiver: nat)

  function Parse(data: bytes): Kind {
    if |data| < 4 || data[1] != 0 || data[2] != 0 || data[3] != 0 then Invalid
    else if data[0] == INITIATION && |data| == 148 then Initiation(LE32(data[4..8]))
    else if data[0] == RESPONSE && |data| == 92 then Response(LE32(data[4..8]), LE32(data[8..12]))
    else if data[0] == DATA && |data| >= 32 && |data| % 16 == 0 then PacketData(LE32(data[4..8]), LE64(data[8..16]))
    else if data[0] == COOKIE_REPLY && |data| == 64 then Cookie(LE32(data[4..8]))
    else Invalid
  }

  // The sender index a packet announces.
  function Announced(rev: bool, data: bytes): seq<Index> {
    match Parse(data)
    case Initiation(s) => [Index(s, rev)]
    case Response(s, _) => [Index(s, rev)]
    case _ => []
  }

  // The packets of a stream so far, as the indexes they announced.
  function History(packets: seq<(bool, bytes)>): seq<Index> {
    if packets == [] then []
    else
      var n := |packets| - 1;
      History(packets[..n]) + Announced(packets[n].0, packets[n].1)
  }

  // A receiver index is matched when one of the last n - 1 announced indexes is the same and
  // came from the other side.
  predicate Matched(history: seq<Index>, n: nat, rev: bool, receiver: nat)
    requires n >= 1
  {
    Index(receiver, !rev) in Last(history, n - 1)
  }

  // What is published for a packet, given the indexes announced up to and including it.
  function Published(history: seq<Index>, n: nat, rev: bool, data: bytes): Option<PropUpdate>
    requires n >= 1
  {
    match Parse(data)
    case Invalid => None
    case Initiation(s) =>
      Some(PropUpdate(Replace, map["message_type" := U8(data[0]),
        "handshake_initiation" := Nested(map["sender_index" := U32(s)])]))
    case Response(s, r) =>
      Some(PropUpdate(Merge, map["message_type" := U8(data[0]), "handshake_response" := Nested(map[
        "sender_index" := U32(s), "receiver_index" := U32(r),
          "receiver_index_matched" := Flag(Matched(history, n, rev, r))])]))
    case PacketData(r, c) =>
      Some(PropUpdate(Merge, map["message_type" := U8(data[0]), "packet_data" := Nested(map[
        "receiver_index" := U32(r), "receiver_index_matched" := Flag(Matched(history, n, rev, r)),
          "counter" := U64(c)])]))
    case Cookie(r) =>
      Some(PropUpdate(Merge, map["message_type" := U8(data[0]), "packet_cookie_reply" := Nested(map[
        "receiver_index" := U32(r), "receiver_index_matched" := Flag(Matched(history, n, rev, r))])]))
  }

  lemma {:induction false} LastSnoc(h: seq<Index>, x: Index, n: nat)
    ensures Last(h + [x], n + 1) == Last(h, n) + [x]
  {
  }

  // A response announces its own index before it looks for the other side's: that index never
  // matches it, but pushes the oldest one out of sight.
  lemma {:induction false} ResponseSeesOneLess(h: seq<Index>, n: nat, rev: bool, sender: nat, receiver: nat)
    requires n >= 2
    ensures Matched(h + [Index(sender, rev)], n, rev, receiver) <==> Index(receiver, !rev) in Last(h, n - 2)
  {
    LastSnoc(h, Index(sender, rev), n - 2);
  }

  // The n-th last index is forgotten although the ring has n places.
  lemma {:induction false} NthLastForgotten(x: Index, later: seq<Index>, n: nat, rev: bool)
    requires n >= 1 && |later| >= n - 1 && x !in later
    ensures !Matched([x] + later, n, !x.reverse, x.sender)
  {
    var s := [x] + later;
    InLast(s, n - 1, x);
    forall k | 0 <= k < n - 1 && k < |s| ensures Back(s, k) in later {
      assert Back(s, k) == later[|later| - 1 - k];
    }
  }

  // ---- Packets byte by byte ----

  function Put32(v: nat): (b: bytes)
    ensures |b| == 4
  {
    [v % 0x100, v / 0x100 % 0x100, v / 0x100 / 0x100 % 0x100, v / 0x100 / 0x100 / 0x100 % 0x100]
  }

  function Put64(v: nat): (b: bytes)
    ensures |b| == 8
  {
    Put32(v % 0x1_0000_0000) + Put32(v / 0x1_0000_0000)
  }

  lemma {:induction false} LowDigit(x: byte, v: nat)
    ensures (x + 0x100 * v) % 0x100 == x && (x + 0x100 * v) / 0x100 == v
  {
  }

  lemma {:induction false} DigitsOf(w: byte, x: byte, y: byte, z: byte)
    ensures Put32(LE32([w, x, y, z])) == [w, x, y, z] && LE32([w, x, y, z]) < 0x1_0000_0000
  {
    LowDigit(y, z);
    LowDigit(x, y + 0x100 * (z as nat));
    LowDigit(w, x + 0x100 * (y + 0x100 * (z as nat)));
    assert LE32([w, x, y, z]) == w + 0x100 * (x + 0x100 * (y + 0x100 * (z as nat)));
  }

  lemma {:induction false} PutReads(v: nat)
    requires v < 0x1_0000_0000
    ensures LE32(Put32(v)) == v
  {
    var v1 := v / 0x100;
    var v2 := v1 / 0x100;
    assert v == v % 0x100 + 0x100 * v1 && v1 == v1 % 0x100 + 0x100 * v2 && v2 == v2 % 0x100 + 0x100 * (v2 / 0x100);
    assert v1 < 0x100_0000 && v2 < 0x1_0000;
  }

  lemma {:induction false} Put32Reads(v: nat, b: bytes)
    requires v < 0x1_0000_0000 && |b| == 4
    ensures LE32(b) == v <==> b == Put32(v)
  {
    PutReads(v);
    DigitsOf(b[0], b[1], b[2], b[3]);
    assert b == [b[0], b[1], b[2], b[3]];
    hide LE32, Put32;
  }

  lemma {:induction false} Put64Reads(v: nat, b: bytes)
    requires v < 0x1_0000_0000_0000_0000 && |b| == 8
    ensures LE64(b) == v <==> b == Put64(v)
  {
    var lo, hi := v % 0x1_0000_0000, v / 0x1_0000_0000;
    Put32Reads(lo, b[..4]);
    Put32Reads(hi, b[4..]);
    DigitsOf(b[0], b[1], b[2], b[3]);
    assert b[..4] == [b[0], b[1], b[2], b[3]];
    assert b == b[..4] + b[4..];
    hide LE32, Put32;
    assert LE64(b) == v <==> LE32(b[..4]) == lo && LE32(b[4..]) == hi by {
      Halves(LE32(b[..4]), LE32(b[4..]));
    }
    assert Put64(v)[..4] == Put32(lo) && Put64(v)[4..] == Put32(hi);
  }

  lemma {:induction false} Halves(lo: nat, hi: nat)
    requires lo < 0x1_0000_0000
    ensures (lo + 0x1_0000_0000 * hi) % 0x1_0000_0000 == lo && (lo + 0x1_0000_0000 * hi) / 0x1_0000_0000 == hi
  {
  }

  predicate Fits(k: Kind) {
    match k
    case Invalid => false
    case Initiation(s) => s < 0x1_0000_0000
    case Response(s, r) => s < 0x1_0000_0000 && r < 0x1_0000_0000
    case PacketData(r, c) => r < 0x1_0000_0000 && c < 0x1_0000_0000_0000_0000
    case Cookie(r) => r < 0x1_0000_0000
  }

  // The four messages of the protocol, whose numbers are little-endian.
  predicate Writes(k: Kind, data: bytes) {
    match k
    case Invalid => false
    case Initiation(s) => |data| == 148 && data[..8] == [1, 0, 0, 0] + Put32(s)
    case Response(s, r) => |data| == 92 && data[..12] == [2, 0, 0, 0] + Put32(s) + Put32(r)
    case PacketData(r, c) => |data| >= 32 && |data| % 16 == 0 && data[..16] == [4, 0, 0, 0] + Put32(r) + Put64(c)
    case Cookie(r) => |data| == 64 && data[..8] == [3, 0, 0, 0] + Put32(r)
  }

  lemma {:induction false} Head(data: bytes, t: byte, x: bytes, n: nat)
    requires 4 <= n <= |data| && n == 4 + |x|
    ensures data[..n] == [t, 0, 0, 0] + x <==> data[..4] == [t, 0, 0, 0] && data[4..n] == x
  {
    assert data[..n] == data[..4] + data[4..n];
  }

  lemma {:induction false} ParseHead(data: bytes)
    requires |data| >= 4
    ensures forall t: byte :: data[..4] == [t, 0, 0, 0] <==> data[0] == t && data[1] == data[2] == data[3] == 0
  {
    assert data[..4] == [data[0], data[1], data[2], data[3]];
  }

  lemma {:induction false} InitiationMeans(s: nat, data: bytes)
    requires s < 0x1_0000_0000
    ensures Parse(data) == Initiation(s) <==> Writes(Initiation(s), data)
  {
    if |data| == 148 {
      ParseHead(data);
      Head(data, 1, Put32(s), 8);
      Put32Reads(s, data[4..8]);
      hide LE32, LE64, Put32;
    }
  }

  lemma {:induction false} ResponseMeans(s: nat, r: nat, data: bytes)
    requires s < 0x1_0000_0000 && r < 0x1_0000_0000
    ensures Parse(data) == Response(s, r) <==> Writes(Response(s, r), data)
  {
    if |data| == 92 {
      ParseHead(data);
      Head(data, 2, Put32(s) + Put32(r), 12);
      Put32Reads(s, data[4..8]);
      Put32Reads(r, data[8..12]);
      assert data[4..12] == data[4..8] + data[8..12];
      assert [2, 0, 0, 0] + Put32(s) + Put32(r) == [2, 0, 0, 0] + (Put32(s) + Put32(r));
      hide LE32, LE64, Put32;
    }
  }

  lemma {:induction false} DataMeans(r: nat, c: nat, data: bytes)
    requires r < 0x1_0000_0000 && c < 0x1_0000_0000_0000_0000
    ensures Parse(data) == PacketData(r, c) <==> Writes(PacketData(r, c), data)
  {
    if |data| >= 32 {
      ParseHead(data);
      Head(data, 4, Put32(r) + Put64(c), 16);
      Put32Reads(r, data[4..8]);
      Put64Reads(c, data[8..16]);
      assert data[4..16] == data[4..8] + data[8..16];
      assert [4, 0, 0, 0] + Put32(r) + Put64(c) == [4, 0, 0, 0] + (Put32(r) + Put64(c));
      hide LE32, LE64, Put32, Put64;
    }
  }

  lemma {:induction false} CookieMeans(r: nat, data: bytes)
    requires r < 0x1_0000_0000
    ensures Parse(data) == Cookie(r) <==> Writes(Cookie(r), data)
  {
    if |data| == 64 {
      ParseHead(data);
      Head(data, 3, Put32(r), 8);
      Put32Reads(r, data[4..8]);
      hide LE32, LE64, Put32;
    }
  }

  // PACKETS ARE READ BACK: a packet is taken for a message if and only if it is that message byte
  // by byte.
  lemma {:induction false} ParseMeans(k: Kind, data: bytes)
    requires Fits(k)
    ensures Parse(data) == k <==> Writes(k, data)
  {
    hide Parse, Writes;
    match k {
      case Initiation(s) => InitiationMeans(s, data);
      case Response(s, r) => ResponseMeans(s, r, data);
      case PacketData(r, c) => DataMeans(r, c, data);
      case Cookie(r) => CookieMeans(r, data);
    }
  }

  lemma {:induction false} FitsAt(data: bytes, i: nat)
    requires i + 4 <= |data|
    ensures LE32(data[i..i + 4]) < 0x1_0000_0000
  {
    assert data[i..i + 4] == [data[i], data[i + 1], data[i + 2], data[i + 3]];
    DigitsOf(data[i], data[i + 1], data[i + 2], data[i + 3]);
  }

  lemma {:induction false} ParseFits(data: bytes)
    ensures Parse(data) != Invalid ==> Fits(Parse(data))
  {
    if |data| >= 32 {
      FitsAt(data, 4);
      FitsAt(data, 8);
      FitsAt(data, 12);
      assert data[8..16][..4] == data[8..8 + 4] && data[8..16][4..] == data[12..12 + 4];
      hide LE32;
    }
  }

  // ---- Which receiver indexes are matched ----

  // A packet that announces a sender index.
  predicate Handshake(data: bytes) {
    || (|data| == 148 && data[..4] == [1, 0, 0, 0])
    || (|data| == 92 && data[..4] == [2, 0, 0, 0])
  }

  function Handshakes(packets: seq<(bool, bytes)>): nat {
    if packets == [] then 0
    else Handshakes(packets[..|packets| - 1]) + if Handshake(packets[|packets| - 1].1) then 1 else 0
  }

  // Another packet up to the i-th, from the other side, has announced this index, and fewer than
  // five announcements have come since.
  ghost predicate Known(packets: seq<(bool, bytes)>, i: nat, receiver: nat)
    requires i < |packets|
  {
    exists j: nat :: j <= i && AnnouncedAt(packets, i, j, receiver)
  }

  predicate AnnouncedAt(packets: seq<(bool, bytes)>, i: nat, j: nat, receiver: nat)
    requires j <= i < |packets|
  {
    var (rev, data) := packets[j];
    rev != packets[i].0 && Handshake(data) && data[4..8] == Put32(receiver) && Handshakes(packets[j + 1..i + 1]) < 5
  }

  lemma {:induction false} AnnouncedMeans(rev: bool, data: bytes)
    ensures Handshake(data) <==> Announced(rev, data) != []
    ensures Handshake(data) ==> Announced(rev, data) == [Index(LE32(data[4..8]), rev)]
  {
    if |data| >= 4 {
      ParseHead(data);
    }
  }

  lemma {:induction false} HistoryCount(packets: seq<(bool, bytes)>)
    ensures |History(packets)| == Handshakes(packets)
  {
    if packets != [] {
      var n := |packets| - 1;
      HistoryCount(packets[..n]);
      AnnouncedMeans(packets[n].0, packets[n].1);
    }
  }

  lemma {:induction false} HistorySnoc(ps: seq<(bool, bytes)>, p: (bool, bytes))
    ensures History(ps + [p]) == History(ps) + Announced(p.0, p.1)
  {
    assert (ps + [p])[..|ps|] == ps;
  }

  lemma {:induction false} HistoryJoin(ps: seq<(bool, bytes)>, qs: seq<(bool, bytes)>)
    ensures History(ps + qs) == History(ps) + History(qs)
  {
    if qs == [] {
      assert ps + qs == ps;
    } else {
      var n := |qs| - 1;
      var x := Announced(qs[n].0, qs[n].1);
      hide History;
      calc {
        History(ps + qs);
        { assert ps + qs == (ps + qs[..n]) + [qs[n]]; }
        History((ps + qs[..n]) + [qs[n]]);
        { HistorySnoc(ps + qs[..n], qs[n]); }
        History(ps + qs[..n]) + x;
        { HistoryJoin(ps, qs[..n]); }
        History(ps) + History(qs[..n]) + x;
        { Assoc(History(ps), History(qs[..n]), x); }
        History(ps) + (History(qs[..n]) + x);
        { HistorySnoc(qs[..n], qs[n]); assert qs == qs[..n] + [qs[n]]; }
        History(ps) + History(qs);
      }
    }
  }

  // The packets before one, that one, and those after it.
  lemma {:induction false} HistoryAround(packets: seq<(bool, bytes)>, j: nat)
    requires j < |packets|
    ensures History(packets) ==
              History(packets[..j]) + Announced(packets[j].0, packets[j].1) + History(packets[j + 1..])
  {
    var ps := packets[..j + 1];
    assert packets == ps + packets[j + 1..] && ps[..j] == packets[..j];
    HistoryJoin(ps, packets[j + 1..]);
  }

  // Every announced index has a packet that announced it.
  lemma {:induction false} Announcer(packets: seq<(bool, bytes)>, p: nat) returns (j: nat)
    requires p < |History(packets)|
    ensures j < |packets| && |History(packets[..j])| == p
    ensures Announced(packets[j].0, packets[j].1) == [History(packets)[p]]
  {
    var n := |packets| - 1;
    if p < |History(packets[..n])| {
      j := Announcer(packets[..n], p);
      assert packets[..n][..j] == packets[..j];
    } else {
      j := n;
    }
  }

  // A RECEIVER INDEX IS MATCHED if and only if the other side has announced it and fewer than five
  // announcements have come since, its own packet's included.
  lemma {:induction false} MatchedMeans(packets: seq<(bool, bytes)>, i: nat, receiver: nat)
    requires i < |packets| && receiver < 0x1_0000_0000
    ensures Matched(History(packets[..i + 1]), REMEMBERED_INDEX_COUNT, packets[i].0, receiver) <==>
              Known(packets, i, receiver)
  {
    var ps, wanted := packets[..i + 1], Index(receiver, !packets[i].0);
    var h := History(ps);
    InLast(h, 5, wanted);
    hide History, Handshakes, LE32, Put32, Last;
    if Known(packets, i, receiver) {
      var j: nat :| j <= i && AnnouncedAt(packets, i, j, receiver);
      Tells(packets, i, j, receiver);
    }
    if wanted in Last(h, 5) {
      var k :| 0 <= k < 5 && k < |h| && Back(h, k) == wanted;
      var j := Teller(packets, i, k, receiver);
    }
  }

  lemma {:induction false} Teller(packets: seq<(bool, bytes)>, i: nat, k: nat, receiver: nat) returns (j: nat)
    requires i < |packets| && receiver < 0x1_0000_0000
    requires var h := History(packets[..i + 1]); k < 5 && k < |h| && Back(h, k) == Index(receiver, !packets[i].0)
    ensures j <= i && AnnouncedAt(packets, i, j, receiver)
  {
    var ps := packets[..i + 1];
    var h := History(ps);
    j := Announcer(ps, |h| - 1 - k);
    HistoryAround(ps, j);
    HistoryCount(ps[j + 1..]);
    AnnouncedMeans(ps[j].0, ps[j].1);
    Put32Reads(receiver, ps[j].1[4..8]);
    hide History, Handshakes, LE32, Put32;
    assert ps[j + 1..] == packets[j + 1..i + 1];
  }

  lemma {:induction false} Tells(packets: seq<(bool, bytes)>, i: nat, j: nat, receiver: nat)
    requires j <= i < |packets| && receiver < 0x1_0000_0000 && AnnouncedAt(packets, i, j, receiver)
    ensures var h := History(packets[..i + 1]);
            var k := Handshakes(packets[j + 1..i + 1]);
            k < |h| && Back(h, k) == Index(receiver, !packets[i].0)
  {
    var ps := packets[..i + 1];
    HistoryAround(ps, j);
    assert ps[j + 1..] == packets[j + 1..i + 1];
    HistoryCount(ps[j + 1..]);
    AnnouncedMeans(ps[j].0, ps[j].1);
    Put32Reads(receiver, ps[j].1[4..8]);
    hide History, Handshakes, LE32, Put32;
    var a, x, b := History(ps[..j]), Announced(ps[j].0, ps[j].1), History(ps[j + 1..]);
    assert (a + x + b)[|a|] == x[0];
  }

  class WireGuardUdpStream {
    var invalidCount: nat
    // The ring and the place it points to; walking forward from there goes from the youngest to
    // the oldest entry.
    const ring: array<Option<Index>>
    var at: nat
    // Every index put so far.
    ghost var puts: seq<Index>

    ghost predicate Valid()
      reads `at, `puts, ring
    {
      && ring.Length >= 2 && at < ring.Length
      && forall k :: 0 <= k < ring.Length ==>
           ring[Slot(k)] == if k < |puts| then Some(puts[|puts| - 1 - k]) else None
    }

    // The k-th place behind the pointer.
    function Slot(k: nat): (i: nat)
      requires at < ring.Length && k < ring.Length
      reads `at
      ensures i < ring.Length
    {
      if at + 1 + k < ring.Length then at + 1 + k else at + 1 + k - ring.Length
    }

    constructor (n: nat)
      requires n >= 2
      ensures Valid() && fresh(ring) && ring.Length == n && puts == [] && invalidCount == 0
    {
      invalidCount := 0;
      ring := new Option<Index>[n](_ => None);
      at := 0;
      puts := [];
    }

    method PutSenderIndex(rev: bool, senderIndex: nat)
      requires Valid()
      modifies this`at, this`puts, ring
      ensures Valid() && puts == old(puts) + [Index(senderIndex, rev)]
    {
      ghost var before := ring[..];
      ghost var p := at;
      ring[at] := Some(Index(senderIndex, rev));
      at := if at == 0 then ring.Length - 1 else at - 1;
      puts := puts + [Index(senderIndex, rev)];
      forall k | 0 <= k < ring.Length
        ensures ring[Slot(k)] == if k < |puts| then Some(puts[|puts| - 1 - k]) else None
      {
        if k == 0 {
          assert Slot(0) == p;
        } else {
          assert Slot(k) == old(Slot(k - 1)) && Slot(k) != p;
          assert ring[Slot(k)] == before[old(Slot(k - 1))];
        }
      }
    }

    // The walk stops in front of the place the pointer is at, so one entry is never looked at.
    method MatchReceiverIndex(rev: bool, receiverIndex: nat) returns (found: bool)
      requires Valid()
      ensures found == Matched(puts, ring.Length, rev, receiverIndex)
    {
      found := false;
      ghost var wanted := Index(receiverIndex, !rev);
      InLast(puts, ring.Length - 1, wanted);
      var k := 0;
      while k < ring.Length - 1
        invariant 0 <= k <= ring.Length - 1 && !found
        invariant forall j :: 0 <= j < k ==> j < |puts| && Back(puts, j) != wanted
      {
        var value := ring[Slot(k)];
        if value.None? {
          assert k >= |puts|;
          break;
        }
        assert k < |puts| && value.value == Back(puts, k);
        if value.value.reverse == !rev && value.value.sender == receiverIndex {
          found := true;
          break;
        }
        k := k + 1;
      }
    }

    method Feed(rev: bool, data: bytes) returns (u: Option<PropUpdate>, done: bool)
      requires Valid()
      modifies this`invalidCount, this`at, this`puts, ring
      ensures Valid() && puts == old(puts) + Announced(rev, data)
      ensures u == Published(puts, ring.Length, rev, data)
      ensures invalidCount == if u.None? then old(invalidCount) + 1 else 0
      ensures done == (u.None? && invalidCount >= 4)
    {
      u := ParseWireGuardPacket(rev, data);
      if u.None? {
        invalidCount := invalidCount + 1;
        return u, invalidCount >= INVALID_COUNT_THRESHOLD;
      }
      invalidCount := 0;
      done := false;
    }

    method ParseWireGuardPacket(rev: bool, data: bytes) returns (u: Option<PropUpdate>)
      requires Valid()
      modifies this`at, this`puts, ring
      ensures Valid() && puts == old(puts) + Announced(rev, data)
      ensures u == Published(puts, ring.Length, rev, data)
    {
      if |data| < 4 { return None; }
      if data[1] != 0 || data[2] != 0 || data[3] != 0 { return None; }
      var messageType := data[0];
      if messageType == INITIATION {
        u := ParseHandshakeInitiation(rev, data);
      } else if messageType == RESPONSE {
        u := ParseHandshakeResponse(rev, data);
      } else if messageType == DATA {
        if |data| < 32 || |data| % 16 != 0 { return None; }
        var receiverIndex := LE32(data[4..8]);
        var matched := MatchReceiverIndex(rev, receiverIndex);
        u := Some(PropUpdate(Merge, map["message_type" := U8(messageType), "packet_data" := Nested(map[
          "receiver_index" := U32(receiverIndex), "receiver_index_matched" := Flag(matched),
            "counter" := U64(LE64(data[8..16]))])]));
      } else if messageType == COOKIE_REPLY {
        if |data| != 64 { return None; }
        var receiverIndex := LE32(data[4..8]);
        var matched := MatchReceiverIndex(rev, receiverIndex);
        u := Some(PropUpdate(Merge, map["message_type" := U8(messageType), "packet_cookie_reply" := Nested(map[
          "receiver_index" := U32(receiverIndex), "receiver_index_matched" := Flag(matched)])]));
      } else {
        u := None;
      }
    }

    method ParseHandshakeInitiation(rev: bool, data: bytes) returns (u: Option<PropUpdate>)
      requires Valid() && |data| >= 4 && data[0] == INITIATION && data[1] == data[2] == data[3] == 0
      modifies this`at, this`puts, ring
      ensures Valid() && puts == old(puts) + Announced(rev, data)
      ensures u == Published(puts, ring.Length, rev, data)
    {
      if |data| != 148 { return None; }
      var senderIndex := LE32(data[4..8]);
      PutSenderIndex(rev, senderIndex);
      u := Some(PropUpdate(Replace, map["message_type" := U8(data[0]),
        "handshake_initiation" := Nested(map["sender_index" := U32(senderIndex)])]));
    }

    method ParseHandshakeResponse(rev: bool, data: bytes) returns (u: Option<PropUpdate>)
      requires Valid() && |data| >= 4 && data[0] == RESPONSE && data[1] == data[2] == data[3] == 0
      modifies this`at, this`puts, ring
      ensures Valid() && puts == old(puts) + Announced(rev, data)
      ensures u == Published(puts, ring.Length, rev, data)
    {
      if |data| != 92 { return None; }
      var senderIndex := LE32(data[4..8]);
      PutSenderIndex(rev, senderIndex);
      var receiverIndex := LE32(data[8..12]);
      var matched := MatchReceiverIndex(rev, receiverIndex);
      u := Some(PropUpdate(Merge, map["message_type" := U8(data[0]), "handshake_response" := Nested(map[
        "sender_index" := U32(senderIndex), "receiver_index" := U32(receiverIndex),
          "receiver_index_matched" := Flag(matched)])]));
    }
  }

  // What a new stream publishes for the i-th packet, when it has seen the ones before.
  function PublishedAt(packets: seq<(bool, bytes)>, i: nat): Option<PropUpdate>
    requires i < |packets|
  {
    Published(History(packets[..i + 1]), REMEMBERED_INDEX_COUNT, packets[i].0, packets[i].1)
  }

  // WHAT IS PUBLISHED, packet by packet: nothing for one that is no message, the fields of the
  // message otherwise, with a flag that tells whether its receiver index is known.
  lemma {:induction false} PublishedMeans(packets: seq<(bool, bytes)>, i: nat)
    requires i < |packets|
    ensures PublishedAt(packets, i) == None <==> forall k :: Fits(k) ==> !Writes(k, packets[i].1)
    ensures forall k :: Fits(k) && Writes(k, packets[i].1) ==> PublishedAt(packets, i) == Told(packets, i, k)
  {
    var data := packets[i].1;
    ParseFits(data);
    forall k | Fits(k) ensures Parse(data) == k <==> Writes(k, data) {
      ParseMeans(k, data);
    }
    forall receiver: nat | receiver < 0x1_0000_0000
      ensures Matched(History(packets[..i + 1]), REMEMBERED_INDEX_COUNT, packets[i].0, receiver) <==>
              Known(packets, i, receiver)
    {
      MatchedMeans(packets, i, receiver);
    }
    hide Parse, Writes, Matched, Known, History;
    assert Parse(data) != Invalid ==> Writes(Parse(data), data);
  }

  // A message, with the number of its kind.
  ghost function Told(packets: seq<(bool, bytes)>, i: nat, k: Kind): Option<PropUpdate>
    requires i < |packets| && k != Invalid
  {
    match k
    case Initiation(s) =>
      Some(PropUpdate(Replace, map["message_type" := U8(1),
        "handshake_initiation" := Nested(map["sender_index" := U32(s)])]))
    case Response(s, r) =>
      Some(PropUpdate(Merge, map["message_type" := U8(2), "handshake_response" := Nested(map[
        "sender_index" := U32(s), "receiver_index" := U32(r),
          "receiver_index_matched" := Flag(Known(packets, i, r))])]))
    case PacketData(r, c) =>
      Some(PropUpdate(Merge, map["message_type" := U8(4), "packet_data" := Nested(map[
        "receiver_index" := U32(r), "receiver_index_matched" := Flag(Known(packets, i, r)), "counter" := U64(c)])]))
    case Cookie(r) =>
      Some(PropUpdate(Merge, map["message_type" := U8(3), "packet_cookie_reply" := Nested(map[
        "receiver_index" := U32(r), "receiver_index_matched" := Flag(Known(packets, i, r))])]))
  }

  predicate AllPublished(us: seq<Option<PropUpdate>>, packets: seq<(bool, bytes)>) {
    |us| <= |packets| && forall i :: 0 <= i < |us| ==> us[i] == PublishedAt(packets, i)
  }

  lemma {:induction false} NonePublished(packets: seq<(bool, bytes)>)
    ensures AllPublished([], packets) && History(packets[..0]) == []
  {
  }

  lemma {:induction false} PublishedSnoc(us: seq<Option<PropUpdate>>, packets: seq<(bool, bytes)>,
      u: Option<PropUpdate>)
    requires AllPublished(us, packets) && |us| < |packets| && u == PublishedAt(packets, |us|)
    ensures AllPublished(us + [u], packets)
  {
    hide PublishedAt;
  }

  // THE RING OVER A WHOLE STREAM. Whatever packets a new stream is fed, what it publishes for
  // each of them is decided by the packets up to it.
  method Replay(packets: seq<(bool, bytes)>) returns (us: seq<Option<PropUpdate>>)
    ensures |us| == |packets| && AllPublished(us, packets)
  {
    NonePublished(packets);
    hide AllPublished, History;
    us := [];
    var s := new WireGuardUdpStream(REMEMBERED_INDEX_COUNT);
    var i := 0;
    while i < |packets|
      invariant 0 <= i <= |packets|
      invariant s.Valid() && fresh(s) && fresh(s.ring) && s.ring.Length == REMEMBERED_INDEX_COUNT
      invariant s.puts == History(packets[..i]) && |us| == i
      invariant AllPublished(us, packets)
    {
      var u := NextUpdate(s, packets, i);
      PublishedSnoc(us, packets, u);
      us := us + [u];
      i := i + 1;
    }
  }

  method NextUpdate(s: WireGuardUdpStream, packets: seq<(bool, bytes)>, i: nat) returns (u: Option<PropUpdate>)
    requires i < |packets| && s.Valid() && s.ring.Length == REMEMBERED_INDEX_COUNT
    requires s.puts == History(packets[..i])
    modifies s`invalidCount, s`at, s`puts, s.ring
    ensures s.Valid() && s.puts == History(packets[..i + 1])
    ensures u == PublishedAt(packets, i)
  {
    assert packets[..i + 1][..i] == packets[..i];
    var done;
    u, done := s.Feed(packets[i].0, packets[i].1);
  }
}
