/** From a UDP datagram to the fields of a ClientHello (analyzer/udp/internal/quic/payload.go,
    analyzer/udp/quic.go). */
module QuicInitial {
  import opened Bytes
  import opened Props
  import opened Results
  import opened Varints
  import opened QuicHeader
  import opened QuicProtector
  import opened QuicPayload
  import ByteBuffers
  import TlsHello
  import TlsParser
  import B = Bits
  import PN = PacketNumber

  // The client's Initial keys from the destination connection ID and the version.
  type KeySchedule = (bytes, nat) -> Key

  // The largest packet number assumed to have been seen.
  const PN_MAX: int := 2

  // Decrypting a packet. What is behind it in its array is the rest of the datagram and the spare
  // capacity.
  ghost function OpenBehind(keys: KeySchedule, datagram: bytes, spare: bytes, h: Header, offset: nat): Result<bytes>
    requires offset > 0
  {
    if (h.version != V1 && h.version != V2) || h.length == 0 || |datagram| < offset + h.length then Failed
    else
      var end := offset + h.length;
      Open(keys(h.dcid, h.version), datagram[..end], (datagram + spare)[end..], offset, PN_MAX)
  }

  ghost function OpenDatagram(keys: KeySchedule, datagram: bytes, spare: bytes): Result<bytes> {
    match ParseInitialHeader(datagram)
    case None => Failed
    case Some((h, offset)) => OpenBehind(keys, datagram, spare, h, offset)
  }

  // r is a possible result of ReadCryptoPayload for a datagram with this spare capacity, when
  // slices of up to maxLen bytes can be made.
  ghost predicate Reads(maxLen: nat, keys: KeySchedule, datagram: bytes, spare: bytes, r: Result<bytes>) {
    Yields(maxLen, OpenDatagram(keys, datagram, spare), r)
  }

  ghost predicate Yields(maxLen: nat, plain: Result<bytes>, r: Result<bytes>) {
    match plain
    case Failed => r == Failed
    case Panicked => r == Panicked
    case Done(p) => Gathers(maxLen, p, r)
  }

  // A packet that gets as far as its keys.
  ghost predicate Accepted(datagram: bytes, h: Header, offset: nat) {
    && ParseInitialHeader(datagram) == Some((h, offset))
    && (h.version == 1 || h.version == 0x6b3343cf) && 0 < h.length <= |datagram| - offset
  }

  lemma {:induction false} OpenAccepted(keys: KeySchedule, datagram: bytes, spare: bytes, h: Header, offset: nat)
    requires Accepted(datagram, h, offset)
    ensures var end := offset + h.length;
            && 1 <= offset < end
            && OpenDatagram(keys, datagram, spare) ==
               Open(keys(h.dcid, h.version), datagram[..end], (datagram + spare)[end..], offset, PN_MAX)
  {
    hide ParseInitialHeader, Open;
  }

  lemma {:induction false} Rejoin(a: bytes, x: bytes, n: nat)
    requires n <= |a|
    ensures a[..n] + (a + x)[n..] == a + x
  {
  }

  // Removing the header protection panics: the header is not a long one, and the sample does not
  // fit the array or the announced packet number does not fit the length.
  ghost predicate ProtectionPanics(keys: KeySchedule, datagram: bytes, spare: bytes, h: Header, offset: nat) {
    && datagram != [] && !IsLongHeader(datagram[0])
    && (|datagram| + |spare| < offset + 20 || h.length < NumberLength(keys, datagram, spare, h, offset))
  }

  lemma {:induction false} OpenDatagramPanics(keys: KeySchedule, datagram: bytes, spare: bytes, h: Header, offset: nat)
    requires Accepted(datagram, h, offset)
    ensures OpenDatagram(keys, datagram, spare) == Panicked <==> ProtectionPanics(keys, datagram, spare, h, offset)
  {
    hide ParseInitialHeader, Open, Unmasked, PnLen, Sample;
    var end := offset + h.length;
    OpenAccepted(keys, datagram, spare, h, offset);
    Rejoin(datagram, spare, end);
    OpenPanics(keys(h.dcid, h.version), datagram[..end], (datagram + spare)[end..], offset, PN_MAX);
  }

  // The packet decrypts to a payload whose frames are too large.
  ghost predicate OpensTooLarge(maxLen: nat, keys: KeySchedule, datagram: bytes, spare: bytes) {
    OpenDatagram(keys, datagram, spare).Done? && TooLarge(maxLen, OpenDatagram(keys, datagram, spare).value)
  }

  // EXACTLY WHEN READING PANICS: a packet that is accepted but has no long header, when its header
  // protection panics; and any packet that decrypts to frames too large for a slice.
  lemma {:induction false} ReadPanics(maxLen: nat, keys: KeySchedule, datagram: bytes, spare: bytes)
    ensures Reads(maxLen, keys, datagram, spare, Panicked) <==>
              && ParseInitialHeader(datagram).Some?
              && var (h, offset) := ParseInitialHeader(datagram).value;
              && Accepted(datagram, h, offset)
              && (ProtectionPanics(keys, datagram, spare, h, offset)
                  || OpensTooLarge(maxLen, keys, datagram, spare))
  {
    hide ParseInitialHeader, Open, ProtectionPanics, Gathers, TooLarge;
    if ParseInitialHeader(datagram).Some? {
      var (h, offset) := ParseInitialHeader(datagram).value;
      if Accepted(datagram, h, offset) {
        OpenDatagramPanics(keys, datagram, spare, h, offset);
        if OpenDatagram(keys, datagram, spare).Done? {
          GatheringPanics(maxLen, OpenDatagram(keys, datagram, spare).value);
        }
      }
    }
  }

  // The length of the packet number that the unmasked first byte announces.
  ghost function NumberLength(keys: KeySchedule, datagram: bytes, spare: bytes, h: Header, offset: nat): nat
    requires datagram != [] && offset + 20 <= |datagram + spare|
  {
    PnLen(Unmasked(datagram[0], keys(h.dcid, h.version).headerProtection(Sample(datagram + spare, offset))[0]))
  }

  lemma {:induction false} ShortHeader(h: Header, w: Widths)
    requires h == Header(V1, [], [], 1, Some([])) && w == Widths(W1, W1)
    ensures QuicHeader.Wf(0x40, h, w) && QuicHeader.Encode(0x40, h, w) == [0x40, 0, 0, 0, 1, 0, 0, 0, 1]
  {
  }

  // Ten bytes that panic whatever the keys are.
  lemma {:induction false} TenBytesPanic(maxLen: nat, keys: KeySchedule)
    ensures Reads(maxLen, keys, [0x40, 0, 0, 0, 1, 0, 0, 0, 1, 0xAA], [], Panicked)
  {
    hide ParseInitialHeader, Reads, OpenDatagram;
    var h, w := Header(V1, [], [], 1, Some([])), Widths(W1, W1);
    var d: bytes := [0x40, 0, 0, 0, 1, 0, 0, 0, 1];
    assert !IsLongHeader(0x40) by {
      B.AndPow(0x40, 7);
      assert B.Pow2(7) == 0x80 by { assert B.Pow2(5) == 32; }
      assert B.High(0x40, 7) == 0 by { B.LowIsMod(0x40, 7); }
    }
    ShortHeader(h, w);
    HeaderRoundTrip(0x40, h, w, [0xAA]);
    assert d + [0xAA] == [0x40, 0, 0, 0, 1, 0, 0, 0, 1, 0xAA];
    ReadPanics(maxLen, keys, d + [0xAA], []);
  }

  // ---- The sender ----

  // An Initial packet of a client: its header fields, how it is written, its packet number and
  // its payload.
  datatype Initial = Initial(typeByte: byte, version: nat, dcid: bytes, scid: bytes, token: bytes, w: Widths,
                             pn: nat, plain: bytes)
  {
    // The length field counts the packet number, the payload and the sixteen bytes of the tag.
    function Head(): Header { Header(version, dcid, scid, typeByte % 4 + 1 + |plain| + 16, Some(token)) }

    predicate Wf() {
      && (version == 1 || version == 0x6b3343cf) && typeByte >= 0x80
      && QuicHeader.Wf(typeByte, Head(), w)
      && typeByte % 4 + 1 + |plain| >= 4
      && pn < PN.Window(typeByte % 4 + 1)
    }

    function HeadBytes(): (b: bytes)
      requires Wf()
      ensures |b| > 0 && b[0] == typeByte
    {
      QuicHeader.Encode(typeByte, Head(), w)
    }

    // The packet before header protection.
    ghost function Clear(keys: KeySchedule, seal: (bytes, bytes, bytes) -> bytes): bytes
      requires Wf()
    {
      Sealed(keys(dcid, version), seal, HeadBytes(), pn, plain)
    }

    // The protected packet.
    ghost function Packet(keys: KeySchedule, seal: (bytes, bytes, bytes) -> bytes): bytes
      requires Wf() && Seals(keys(dcid, version), seal)
    {
      FirstByteMeans(typeByte, 0);
      assert |Clear(keys, seal)| >= |HeadBytes()| + 20 by {
        ClearParts(this, keys, seal);
      }
      Protect(keys(dcid, version), Clear(keys, seal), |HeadBytes()|)
    }

    // q is the packet as section 5 of RFC 9001 has it, d its truncated number.
    ghost predicate Sends(keys: KeySchedule, seal: (bytes, bytes, bytes) -> bytes, d: bytes, nonce: bytes, q: bytes)
      requires Wf() && Seals(keys(dcid, version), seal)
    {
      var key, hdr := keys(dcid, version), HeadBytes();
      && |d| == typeByte % 4 + 1 && ValueOf(d) == pn % PN.Window(|d|) && IsNonce(key.iv, pn, nonce)
      && IsProtected(key, hdr + d + seal(nonce, plain, hdr + d), |hdr|, q)
    }
  }

  // There is such a packet.
  lemma {:induction false} PacketSent(i: Initial, keys: KeySchedule, seal: (bytes, bytes, bytes) -> bytes)
    requires i.Wf() && Seals(keys(i.dcid, i.version), seal)
    ensures exists d, nonce, q :: i.Sends(keys, seal, d, nonce, q)
  {
    var key, hdr := keys(i.dcid, i.version), i.HeadBytes();
    var n := i.typeByte % 4 + 1;
    var d, nonce := Digits(i.pn % PN.Window(n), n), Nonce(key.iv, i.pn);
    assert i.pn < 0x1_0000_0000_0000_0000;
    NonceMeans(key.iv, i.pn);
    WindowIsPow256(n);
    ValueOfDigits(i.pn % PN.Window(n), n);
    hide ValueOf, Digits, Nonce, IsNonce, IsProtected;
    var p := hdr + d + seal(nonce, i.plain, hdr + d);
    assert |seal(nonce, i.plain, hdr + d)| == |i.plain| + 16;
    ProtectMeans(key, p, |hdr|, Protect(key, p, |hdr|));
    assert i.Sends(keys, seal, d, nonce, Protect(key, p, |hdr|));
  }

  lemma {:induction false} NonceIs(iv: Iv, pn: nat, nonce: bytes)
    requires pn < 0x1_0000_0000 && IsNonce(iv, pn, nonce)
    ensures nonce == Nonce(iv, pn)
  {
    NonceMeans(iv, pn);
    NonceUnique(iv, pn, nonce, Nonce(iv, pn));
  }

  lemma {:induction false} SentIsPacket(i: Initial, keys: KeySchedule, seal: (bytes, bytes, bytes) -> bytes,
                                        d: bytes, nonce: bytes, q: bytes)
    requires i.Wf() && Seals(keys(i.dcid, i.version), seal) && i.Sends(keys, seal, d, nonce, q)
    ensures q == i.Packet(keys, seal)
  {
    var key, hdr := keys(i.dcid, i.version), i.HeadBytes();
    FirstByteMeans(i.typeByte, 0);
    NonceIs(key.iv, i.pn, nonce);
    DigitsOfValue(d);
    hide ValueOf, Digits, PnLen, IsNonce, Nonce, Seals, IsProtected, QuicHeader.Wf, QuicHeader.Encode;
    assert d == Digits(i.pn % PN.Window(|d|), |d|);
    ProtectMeans(key, hdr + d + seal(nonce, i.plain, hdr + d), |hdr|, q);
  }

  // Bits from the fifth on decide the form and the type of a header.
  lemma {:induction false} SameType(a: byte, b: byte, version: nat)
    requires a / 0x10 == b / 0x10
    ensures FixedBit(a) == FixedBit(b) && IsInitial(a, version) == IsInitial(b, version)
  {
  }

  lemma {:induction false} MaskKeepsType(first: byte, mask0: byte)
    requires IsLongHeader(first)
    ensures Unmasked(first, mask0) / 0x10 == first / 0x10
  {
    assert B.Pow2(4) == 16;
    B.AndMask(mask0, 4);
    B.LowIsLow(mask0, 4);
    B.XorHigh(first, FirstMask(first, mask0), 4);
    B.LowIsMod(first, 4);
    B.LowIsMod(Unmasked(first, mask0), 4);
  }

  // Protection changes the header bytes only in the low half of the first one.
  lemma {:induction false} FrontKept(i: Initial, keys: KeySchedule, seal: (bytes, bytes, bytes) -> bytes)
    requires i.Wf() && Seals(keys(i.dcid, i.version), seal)
    ensures var p, hdr := i.Packet(keys, seal), i.HeadBytes();
            && |p| == |hdr| + i.Head().length
            && p[0] / 0x10 == i.typeByte / 0x10 && p[..|hdr|] == [p[0]] + hdr[1..]
  {
    var key := keys(i.dcid, i.version);
    FirstByteMeans(i.typeByte, 0);
    ClearParts(i, keys, seal);
    hide Initial.Wf, Initial.Head, Initial.HeadBytes, Initial.Clear, PnLen, IsLongHeader, Seals, Protect;
    var hdr, clear := i.HeadBytes(), i.Clear(keys, seal);
    assert clear[0] == clear[..|hdr|][0] == hdr[0];
    ProtectedFront(key, clear, |hdr|);
    FirstReplaced(i.Packet(keys, seal), clear, hdr);
  }

  lemma {:induction false} ProtectedFront(key: Key, p: bytes, off: nat)
    requires 1 <= off && off + 20 <= |p| && IsLongHeader(p[0])
    ensures var q := Protect(key, p, off);
            && |q| == |p| && q[0] / 0x10 == p[0] / 0x10
            && forall k :: 1 <= k < off ==> q[k] == p[k]
  {
    UnprotectProtect(key, p, off);
    MaskKeepsType(p[0], key.headerProtection(Sample(p, off))[0]);
  }

  lemma {:induction false} FirstReplaced(p: bytes, q: bytes, front: bytes)
    requires 1 <= |front| <= |p| == |q| && q[..|front|] == front
    requires forall k :: 1 <= k < |front| ==> p[k] == q[k]
    ensures p[..|front|] == [p[0]] + front[1..]
  {
    forall k | 1 <= k < |front| ensures p[k] == front[k] {
      assert front[k] == q[..|front|][k];
    }
  }

  // The receiver's view of the protected packet: the same header fields under a masked first byte.
  lemma {:induction false} PacketParses(i: Initial, keys: KeySchedule, seal: (bytes, bytes, bytes) -> bytes, x: bytes)
    requires i.Wf() && Seals(keys(i.dcid, i.version), seal)
    ensures var p := i.Packet(keys, seal);
            && |p| == |i.HeadBytes()| + i.Head().length
            && ParseInitialHeader(p + x) == Some((i.Head(), |i.HeadBytes()|))
  {
    FrontKept(i, keys, seal);
    var p, n := i.Packet(keys, seal), |i.HeadBytes()|;
    SameType(i.typeByte, p[0], i.version);
    MaskedHeader(i.typeByte, p[0], i.Head(), i.w);
    CutAt(p, n, x);
    HeaderRoundTrip(p[0], i.Head(), i.w, p[n..] + x);
  }

  lemma {:induction false} CutAt(p: bytes, n: nat, x: bytes)
    requires n <= |p|
    ensures p + x == p[..n] + (p[n..] + x)
  {
    Assoc(p[..n], p[n..], x);
  }

  lemma {:induction false} ClearParts(i: Initial, keys: KeySchedule, seal: (bytes, bytes, bytes) -> bytes)
    requires i.Wf() && Seals(keys(i.dcid, i.version), seal)
    ensures var clear, hdr := i.Clear(keys, seal), i.HeadBytes();
            |clear| == |hdr| + i.Head().length && |clear| >= |hdr| + 20 && clear[..|hdr|] == hdr
  {
    FirstByteMeans(i.typeByte, 0);
    hide PnLen, IsLongHeader;
    var key := keys(i.dcid, i.version);
    var full := FullHeader(i.HeadBytes(), i.pn, PnLen(i.typeByte));
    assert |seal(Nonce(key.iv, i.pn), i.plain, full)| == |i.plain| + 16;
  }

  // Only the first byte of a header depends on the type byte.
  lemma {:induction false} MaskedHeader(a: byte, b: byte, h: Header, w: Widths)
    requires QuicHeader.Wf(a, h, w) && FixedBit(a) == FixedBit(b) && IsInitial(a, h.version) == IsInitial(b, h.version)
    ensures QuicHeader.Wf(b, h, w)
    ensures QuicHeader.Encode(b, h, w) == [b] + QuicHeader.Encode(a, h, w)[1..]
  {
  }

  lemma {:induction false} PacketOpens(i: Initial, keys: KeySchedule, seal: (bytes, bytes, bytes) -> bytes,
                                       spare: bytes)
    requires i.Wf() && Seals(keys(i.dcid, i.version), seal)
    ensures var p, n := i.Packet(keys, seal), |i.HeadBytes()|;
            && 1 <= n <= |p|
            && Open(keys(i.dcid, i.version), p, spare, n, PN_MAX) == Done(i.plain)
  {
    FirstByteMeans(i.typeByte, 0);
    FrontKept(i, keys, seal);
    hide PnLen, IsLongHeader, Open, Seals;
    OpenSealed(keys(i.dcid, i.version), seal, i.HeadBytes(), i.pn, i.plain, spare, PN_MAX);
  }

  // A packet at the front of a datagram.
  lemma {:induction false} OpenFront(keys: KeySchedule, p: bytes, x: bytes, spare: bytes, h: Header, n: nat)
    requires ParseInitialHeader(p + x) == Some((h, n)) && |p| == n + h.length && h.length > 0
    requires h.version == V1 || h.version == V2
    ensures 1 <= n <= |p|
    ensures OpenDatagram(keys, p + x, spare) ==
              Open(keys(h.dcid, h.version), p, (p + x + spare)[|p|..], n, PN_MAX)
  {
    hide ParseInitialHeader, Open, OpenDatagram;
    OpenAccepted(keys, p + x, spare, h, n);
    assert (p + x)[..|p|] == p;
  }

  // PROTECTED PACKETS. An Initial packet protected with any ciphers and followed by anything is
  // read as its payload is, whatever that is.
  lemma {:induction false} PacketReads(maxLen: nat, i: Initial, keys: KeySchedule,
                                       seal: (bytes, bytes, bytes) -> bytes, d: bytes, nonce: bytes, q: bytes,
                                       x: bytes, spare: bytes, r: Result<bytes>)
    requires i.Wf() && Seals(keys(i.dcid, i.version), seal) && i.Sends(keys, seal, d, nonce, q)
    ensures Reads(maxLen, keys, q + x, spare, r) <==> Gathers(maxLen, i.plain, r)
  {
    SentIsPacket(i, keys, seal, d, nonce, q);
    PacketParses(i, keys, seal, x);
    hide ParseInitialHeader, Open, OpenDatagram, Gathers, Initial.Packet, Initial.HeadBytes, Initial.Wf,
      Initial.Sends, Seals,
      PnLen;
    var p := i.Packet(keys, seal);
    FromVersion(i);
    OpenFront(keys, p, x, spare, i.Head(), |i.HeadBytes()|);
    PacketOpens(i, keys, seal, (p + x + spare)[|p|..]);
  }

  lemma {:induction false} FromVersion(i: Initial)
    requires i.Wf()
    ensures i.version == V1 || i.version == V2
    ensures i.Head().version == i.version && i.Head().dcid == i.dcid && i.Head().length > 0
  {
  }

  // INITIAL PACKET ROUND TRIP. When the payload carries consecutive pieces of a byte string, in
  // any order and padded in any way, the packet is read as that byte string, if it fits a slice;
  // otherwise reading panics.
  lemma {:induction false} InitialRoundTrip(maxLen: nat, i: Initial, keys: KeySchedule,
                                            seal: (bytes, bytes, bytes) -> bytes, d: bytes, nonce: bytes, q: bytes,
                                            x: bytes, spare: bytes,
                                            es: seq<Element>, pieces: seq<bytes>, r: Result<bytes>)
    requires i.Wf() && Seals(keys(i.dcid, i.version), seal) && i.Sends(keys, seal, d, nonce, q)
    requires ElementsWf(es) && i.plain == PutElements(es)
    requires pieces != [] && NonEmpty(pieces) && multiset(Frames(es)) == multiset(FramesOf(pieces, 0))
    ensures Reads(maxLen, keys, q + x, spare, r) <==>
              r == if |Flatten(pieces)| <= maxLen then Done(Flatten(pieces)) else Panicked
  {
    hide Reads, Gathers, Flatten, Frames, FramesOf, Initial.Sends, Initial.Wf, Seals, ElementsWf, NonEmpty,
      PutElements;
    CryptoRoundTrip(maxLen, pieces, es, r);
    PacketReads(maxLen, i, keys, seal, d, nonce, q, x, spare, r);
  }

  // The packet with a long header and nothing but a CRYPTO frame that announces 2^62 - 1 bytes.
  const LONGEST_FRAME: Initial :=
    Initial(0xC0, 1, [], [], [], Widths(W1, W1), 0, [6, 0, 0xFF, 0xFF, 0xFF, 0xFF, 0xFF, 0xFF, 0xFF, 0xFF])

  // It is a well-formed one, and panics whatever the keys are, since no slice is that long.
  lemma {:induction false} LongHeaderPanics(maxLen: nat, keys: KeySchedule, seal: (bytes, bytes, bytes) -> bytes,
                                            x: bytes, spare: bytes, r: Result<bytes>)
    requires maxLen < 0x3FFF_FFFF_FFFF_FFFF && Seals(keys([], 1), seal)
    ensures LONGEST_FRAME.Wf()
    ensures exists d, nonce, q :: LONGEST_FRAME.Sends(keys, seal, d, nonce, q)
    ensures forall d, nonce, q :: LONGEST_FRAME.Sends(keys, seal, d, nonce, q) ==>
              (Reads(maxLen, keys, q + x, spare, r) <==> r == Panicked)
  {
    LongestFrameWf();
    LongestFramePanics(maxLen, r);
    PacketSent(LONGEST_FRAME, keys, seal);
    hide Reads, Gathers, Initial.Sends, Initial.Wf, Seals;
    forall d, nonce, q | LONGEST_FRAME.Sends(keys, seal, d, nonce, q)
      ensures Reads(maxLen, keys, q + x, spare, r) <==> r == Panicked
    {
      PacketReads(maxLen, LONGEST_FRAME, keys, seal, d, nonce, q, x, spare, r);
    }
  }

  lemma {:induction false} LongestFrameWf()
    ensures LONGEST_FRAME.Wf()
  {
    assert W1.Holds(27) && W1.Holds(0);
  }

  // ---- The QUIC analyzer ----

  // The fields of the ClientHello in a crypto stream. Only the announced length is checked.
  function HelloOf(pl: bytes): Option<PropMap> {
    if |pl| < 4 || pl[0] != 1 || U24(pl[1], pl[2], pl[3]) < 41 then None
    else TlsHello.ParseClientHello(pl[4..])
  }

  // Anything else than a message of type 1 that announces at least 41 bytes is not one.
  lemma {:induction false} NoHello(pl: bytes)
    requires |pl| < 4 || pl[0] != 1 || 0x1_0000 * (pl[1] as nat) + 0x100 * (pl[2] as nat) + pl[3] as nat < 41
    ensures HelloOf(pl) == None
  {
  }

  // CLIENT HELLO OVER QUIC. The hello a client sends, however it is cut into frames, is what
  // the analyzer publishes.
  lemma {:induction false} HelloThroughQuic(maxLen: nat, h: TlsHello.ClientHello, n: nat, i: Initial, keys: KeySchedule,
                                            seal: (bytes, bytes, bytes) -> bytes, d: bytes, nonce: bytes, q: bytes,
                                            x: bytes, spare: bytes,
                                            es: seq<Element>, pieces: seq<bytes>, r: Result<bytes>)
    requires h.Wf() && 41 <= n < 0x100_0000 && Flatten(pieces) == [1] + Put24(n) + h.Encode()
    requires i.Wf() && Seals(keys(i.dcid, i.version), seal) && i.Sends(keys, seal, d, nonce, q)
    requires ElementsWf(es) && i.plain == PutElements(es) && |Flatten(pieces)| <= maxLen
    requires NonEmpty(pieces) && multiset(Frames(es)) == multiset(FramesOf(pieces, 0))
    requires Reads(maxLen, keys, q + x, spare, r)
    ensures r.Done? && HelloOf(r.value) == Some(h.Fields())
  {
    InitialRoundTrip(maxLen, i, keys, seal, d, nonce, q, x, spare, es, pieces, r);
    HelloInside(h, n);
  }

  lemma {:induction false} HelloInside(h: TlsHello.ClientHello, n: nat)
    requires h.Wf() && 41 <= n < 0x100_0000
    ensures HelloOf([1] + Put24(n) + h.Encode()) == Some(h.Fields())
  {
    var pl := [1] + Put24(n) + h.Encode();
    assert [pl[1], pl[2], pl[3]] == Put24(n);
    assert pl[4..] == h.Encode();
    TlsHello.ClientHelloRoundTrip(h);
  }

  // The datagram is the first `size` bytes of the array, whose length is the slice's capacity.
  method ReadCryptoPayload(maxLen: nat, keys: KeySchedule, datagram: array<byte>, size: nat)
    returns (r: Result<bytes>)
    requires size <= datagram.Length
    modifies datagram
    ensures Reads(maxLen, keys, old(datagram[..size]), old(datagram[size..]), r)
  {
    hide OpenBehind, Gathers;
    var reader := new Reader(datagram[..size]);
    var hdr := ParseLongHeader(reader);
    if hdr.None? { return Failed; }
    r := ReadPayload(maxLen, keys, datagram, size, hdr.value, reader.pos);
  }

  // The payload behind a header (analyzer/udp/internal/quic/payload.go:20-53).
  method ReadPayload(maxLen: nat, keys: KeySchedule, datagram: array<byte>, size: nat, h: Header, offset: nat)
    returns (r: Result<bytes>)
    requires offset > 0 && size <= datagram.Length
    modifies datagram
    ensures Yields(maxLen, OpenBehind(keys, old(datagram[..size]), old(datagram[size..]), h, offset), r)
  {
    hide Open, Gathers;
    if h.version != V1 && h.version != V2 { return Failed; }
    if offset == 0 || h.length == 0 { return Failed; }
    if size < offset + h.length { return Failed; }
    var key := keys(h.dcid, h.version);
    SliceOfSlice(datagram, size, offset + h.length);
    r := ReadProtected(maxLen, key, datagram, offset, h.length);
  }

  lemma {:induction false} SliceOfSlice(a: array<byte>, size: nat, end: nat)
    requires end <= size <= a.Length
    ensures a[..size][..end] == a[..end] && a[..size] + a[size..] == a[..]
  {
  }

  method ReadProtected(maxLen: nat, key: Key, packet: array<byte>, offset: nat, length: nat)
    returns (r: Result<bytes>)
    requires 1 <= offset && offset + length <= packet.Length
    modifies packet
    ensures var end := offset + length;
            Yields(maxLen, Open(key, old(packet[..end]), old(packet[..])[end..], offset, PN_MAX), r)
  {
    hide Open, Gathers;
    assert packet[..][offset + length..] == packet[offset + length..];
    var plain := UnProtect(key, packet, offset + length, offset, PN_MAX);
    match plain {
      case Failed => return Failed;
      case Panicked => return Panicked;
      case Done(p) => r := ReadPlain(maxLen, p);
    }
  }

  // The payload once it is decrypted (analyzer/udp/internal/quic/payload.go:45-53).
  method ReadPlain(maxLen: nat, plain: bytes) returns (r: Result<bytes>)
    ensures Gathers(maxLen, plain, r)
  {
    hide Extract, Assembles;
    var payload := new Reader(plain);
    assert payload.Rest() == plain;
    var frames := ExtractCryptoFrames(maxLen, payload);
    match frames {
      case Failed => return Failed;
      case Panicked => return Panicked;
      case Done(fs) =>
        var a := new Frame[|fs|](k requires 0 <= k < |fs| => fs[k]);
        assert a[..] == fs;
        r := AssembleCryptoFrames(maxLen, a);
    }
  }

  const INVALID_COUNT_THRESHOLD: nat := 4

  class QuicStream {
    const maxLen: nat
    const keys: KeySchedule
    var invalidCount: nat
    // Set when a read has panicked; nothing runs after that.
    var panicked: bool

    constructor (maxLen: nat, keys: KeySchedule)
      ensures this.maxLen == maxLen && this.keys == keys && invalidCount == 0 && !panicked
    {
      this.maxLen, this.keys := maxLen, keys;
      invalidCount, panicked := 0, false;
    }

    // An invalid packet counts, a ClientHello is published and ends the analysis.
    method Feed(rev: bool, data: array<byte>, size: nat) returns (u: Option<PropUpdate>, done: bool)
      requires !panicked && size <= data.Length
      modifies this, data
      ensures exists r :: (if rev then r == Failed else Reads(maxLen, keys, old(data[..size]), old(data[size..]), r)) &&
                var m := if r.Done? then HelloOf(r.value) else None;
                && panicked == r.Panicked?
                && (!panicked ==>
                      && u == MergeUnder("req", m)
                      && invalidCount == old(invalidCount) + (if m.None? then 1 else 0)
                      && done == (m.Some? || invalidCount >= 4))
    {
      hide Reads, HelloOf;
      u, done := None, false;
      if rev {
        invalidCount := invalidCount + 1;
        ghost var r: Result<bytes> := Failed;
        assert u == MergeUnder("req", None) && !r.Panicked?;
        return None, invalidCount >= INVALID_COUNT_THRESHOLD;
      }
      var r := ReadCryptoPayload(maxLen, keys, data, size);
      if r.Panicked? {
        panicked := true;
        return;
      }
      var m := Published(r);
      if m.None? {
        invalidCount := invalidCount + 1;
        return None, invalidCount >= INVALID_COUNT_THRESHOLD;
      }
      return MergeUnder("req", m), true;
    }

    // The checks on the crypto stream and the parse of the hello (analyzer/udp/quic.go:49-72).
    static method Published(r: Result<bytes>) returns (m: Option<PropMap>)
      ensures m == if r.Done? then HelloOf(r.value) else None
    {
      m := None;
      if r.Done? && |r.value| >= 4 {
        var pl := r.value;
        if pl[0] == 1 && U24(pl[1], pl[2], pl[3]) >= 41 {
          var chBuf := new ByteBuffers.ByteBuffer(pl[4..]);
          m := TlsParser.ParseTLSClientHelloMsgData(chBuf);
        }
      }
    }
  }
}
