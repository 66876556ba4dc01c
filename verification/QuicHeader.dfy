/** QUIC long headers (analyzer/udp/internal/quic/header.go). */
module QuicHeader {
  import opened Bytes
  import opened Varints

  const V1: nat := 0x1
  const V2: nat := 0x6b3343cf

  // A nil token is None.
  datatype Header = Header(version: nat, dcid: bytes, scid: bytes, length: nat, token: Option<bytes>)

  predicate FixedBit(typeByte: byte) { (typeByte / 0x40) % 2 == 1 }

  // The packet type bits; an Initial packet has type 0 in version 1 and type 1 in version 2.
  predicate IsInitial(typeByte: byte, version: nat) {
    (typeByte / 0x10) % 4 == if version == V2 then 1 else 0
  }

  // readConnectionID drops the error of a reader that had nothing left at all, and leaves the
  // ID zeroed.
  function ReadConnectionID(b: bytes, n: nat): (r: Option<(bytes, bytes)>)
    ensures r.Some? ==> |r.value.1| <= |b|
  {
    if n <= |b| then Some((b[..n], b[n..]))
    else if b == [] then Some((seq(n, _ => 0), []))
    else None
  }

  // A length byte and that many bytes.
  function ReadCid(b: bytes): (r: Option<(bytes, bytes)>)
    ensures r.Some? ==> |r.value.1| < |b|
  {
    if |b| < 1 then None else ReadConnectionID(b[1..], b[0])
  }

  function ReadToken(b: bytes): (r: Option<(bytes, bytes)>)
    ensures r.Some? ==> |r.value.1| < |b|
  {
    match Read(b)
    case None => None
    case Some((n, rest)) => if n > |rest| then None else Some((rest[..n], rest[n..]))
  }

  // The two connection IDs and what is behind them.
  function ReadCids(b: bytes): (r: Option<(bytes, bytes, bytes)>)
    ensures r.Some? ==> |r.value.2| < |b|
  {
    match ReadCid(b)
    case None => None
    case Some((dcid, b1)) =>
      match ReadCid(b1)
      case None => None
      case Some((scid, b2)) => Some((dcid, scid, b2))
  }

  // The token of an Initial packet, and the length.
  function ReadFields(initial: bool, b: bytes): (r: Option<(Option<bytes>, nat, bytes)>)
    ensures r.Some? ==> |r.value.2| < |b|
  {
    if initial then
      match ReadToken(b)
      case None => None
      case Some((token, b1)) =>
        match Read(b1)
        case None => None
        case Some((len, rest)) => Some((Some(token), len, rest))
    else
      match Read(b)
      case None => None
      case Some((len, rest)) => Some((None, len, rest))
  }

  function ParseRest(typeByte: byte, version: nat, b: bytes): (r: Option<(Header, bytes)>)
    ensures r.Some? ==> |r.value.1| < |b|
  {
    match ReadCids(b)
    case None => None
    case Some((dcid, scid, b1)) =>
      match ReadFields(IsInitial(typeByte, version), b1)
      case None => None
      case Some((token, len, rest)) => Some((Header(version, dcid, scid, len, token), rest))
  }

  // The header and the number of bytes read.
  function ParseInitialHeader(b: bytes): (r: Option<(Header, nat)>)
    ensures r.Some? ==> 5 <= r.value.1 <= |b|
  {
    if |b| < 5 then None
    else
      var version := ValueOf(b[1..5]);
      if version != 0 && !FixedBit(b[0]) then None
      else
        match ParseRest(b[0], version, b[5..])
        case None => None
        case Some((h, rest)) => Some((h, |b| - |rest|))
  }

  // ---- Section 17.2 of RFC 9000 and section 3.2 of RFC 9369 ----

  // How the two variable-length integers of a header are written.
  datatype Widths = Widths(token: Width, length: Width)

  predicate Wf(typeByte: byte, h: Header, w: Widths) {
    && h.version < 0x1_0000_0000 && |h.dcid| < 0x100 && |h.scid| < 0x100
    && (h.version != 0 ==> typeByte / 0x40 % 2 == 1)
    && (h.token.Some? <==> typeByte / 0x10 % 4 == if h.version == 0x6b3343cf then 1 else 0)
    && (h.token.Some? ==> w.token.Holds(|h.token.value|))
    && w.length.Holds(h.length)
  }

  function PutCids(dcid: bytes, scid: bytes): bytes
    requires |dcid| < 0x100 && |scid| < 0x100
  {
    [|dcid|] + dcid + ([|scid|] + scid)
  }

  function PutToken(token: Option<bytes>, w: Width): bytes
    requires token.Some? ==> w.Holds(|token.value|)
  {
    if token.Some? then Put(|token.value|, w) + token.value else []
  }

  function PutFields(h: Header, w: Widths): bytes
    requires h.token.Some? ==> w.token.Holds(|h.token.value|)
    requires w.length.Holds(h.length)
  {
    PutToken(h.token, w.token) + Put(h.length, w.length)
  }

  function Encode(typeByte: byte, h: Header, w: Widths): bytes
    requires Wf(typeByte, h, w)
  {
    [typeByte] + Digits(h.version, 4) + (PutCids(h.dcid, h.scid) + PutFields(h, w))
  }

  lemma {:induction false} CidAt(cid: bytes, x: bytes)
    requires |cid| < 0x100
    ensures ReadCid([|cid|] + cid + x) == Some((cid, x))
  {
    var b := [|cid|] + cid + x;
    assert b[1..] == cid + x;
    assert (cid + x)[..|cid|] == cid && (cid + x)[|cid|..] == x;
  }

  lemma {:induction false} CidsEncoded(dcid: bytes, scid: bytes, x: bytes)
    requires |dcid| < 0x100 && |scid| < 0x100
    ensures ReadCids(PutCids(dcid, scid) + x) == Some((dcid, scid, x))
  {
    CidAt(dcid, [|scid|] + scid + x);
    CidAt(scid, x);
    assert PutCids(dcid, scid) + x == [|dcid|] + dcid + ([|scid|] + scid + x);
  }

  lemma {:induction false} TokenEncoded(token: bytes, w: Width, x: bytes)
    requires w.Holds(|token|)
    ensures ReadToken(Put(|token|, w) + token + x) == Some((token, x))
  {
    ReadPut(|token|, w, token + x);
    assert Put(|token|, w) + token + x == Put(|token|, w) + (token + x);
    assert (token + x)[..|token|] == token && (token + x)[|token|..] == x;
  }

  lemma {:induction false} FieldsEncoded(h: Header, w: Widths, x: bytes)
    requires h.token.Some? ==> w.token.Holds(|h.token.value|)
    requires w.length.Holds(h.length)
    ensures ReadFields(h.token.Some?, PutFields(h, w) + x) == Some((h.token, h.length, x))
  {
    var y := Put(h.length, w.length) + x;
    ReadPut(h.length, w.length, x);
    assert PutFields(h, w) + x == PutToken(h.token, w.token) + y;
    if h.token.Some? {
      TokenEncoded(h.token.value, w.token, y);
    } else {
      assert PutToken(h.token, w.token) + y == y;
    }
  }

  lemma {:induction false} ParseRestEncoded(typeByte: byte, h: Header, w: Widths, x: bytes)
    requires Wf(typeByte, h, w)
    ensures ParseRest(typeByte, h.version, PutCids(h.dcid, h.scid) + PutFields(h, w) + x) == Some((h, x))
  {
    CidsEncoded(h.dcid, h.scid, PutFields(h, w) + x);
    FieldsEncoded(h, w, x);
    Assoc(PutCids(h.dcid, h.scid), PutFields(h, w), x);
  }

  lemma {:induction false} Pow256Of4()
    ensures Pow256(4) == 0x1_0000_0000
  {
    assert Pow256(2) == 0x1_0000 && Pow256(4) == 0x100 * Pow256(3) && Pow256(3) == 0x100 * Pow256(2);
  }

  lemma {:induction false} VersionDigits(v: nat)
    requires v < 0x1_0000_0000
    ensures ValueOf(Digits(v, 4)) == v
  {
    Pow256Of4();
    ValueOfDigits(v, 4);
  }

  lemma {:induction false} SplitFront(typeByte: byte, v: bytes, y: bytes, x: bytes)
    requires |v| == 4
    ensures var b := [typeByte] + v + y + x;
            |b| == 5 + |y| + |x| && b[0] == typeByte && b[1..5] == v && b[5..] == y + x
  {
    Assoc([typeByte] + v, y, x);
  }

  lemma {:induction false} HeaderFrom(b: bytes, typeByte: byte, v: bytes, y: bytes, h: Header, x: bytes)
    requires b == [typeByte] + v + y
    requires |v| == 4 && ValueOf(v) == h.version && (h.version != 0 ==> FixedBit(typeByte))
    requires ParseRest(typeByte, h.version, y + x) == Some((h, x))
    ensures ParseInitialHeader(b + x) == Some((h, |b|))
  {
    SplitFront(typeByte, v, y, x);
    HeaderAt([typeByte] + v + y + x, h, x);
  }

  // HEADER ROUND TRIP. The offset is the encoded length up to the packet number.
  lemma {:induction false} HeaderRoundTrip(typeByte: byte, h: Header, w: Widths, x: bytes)
    requires Wf(typeByte, h, w)
    ensures ParseInitialHeader(Encode(typeByte, h, w) + x) == Some((h, |Encode(typeByte, h, w)|))
  {
    VersionDigits(h.version);
    ParseRestEncoded(typeByte, h, w, x);
    HeaderFrom(Encode(typeByte, h, w), typeByte, Digits(h.version, 4), PutCids(h.dcid, h.scid) + PutFields(h, w), h, x);
  }

  lemma {:induction false} HeaderAt(b: bytes, h: Header, x: bytes)
    requires |b| >= 5 && ValueOf(b[1..5]) == h.version && (h.version != 0 ==> FixedBit(b[0]))
    requires ParseRest(b[0], h.version, b[5..]) == Some((h, x)) && |x| <= |b|
    ensures ParseInitialHeader(b) == Some((h, |b| - |x|))
  {
  }

  // ---- Nothing else is accepted ----

  // A connection ID whose missing bytes were ignored leaves nothing for the fields behind it.
  lemma {:induction false} CidSound(b: bytes)
    requires ReadCid(b).Some? && ReadCid(b).value.1 != []
    ensures var (cid, x) := ReadCid(b).value; |cid| < 0x100 && b == [|cid|] + cid + x
  {
    SplitCounted(b);
    var n := b[0] as nat;
    assert b[1..][..n] == b[1..n + 1] && b[1..][n..] == b[n + 1..];
  }

  lemma {:induction false} CidsSound(b: bytes)
    requires ReadCids(b).Some? && ReadCids(b).value.2 != []
    ensures var (dcid, scid, x) := ReadCids(b).value;
            |dcid| < 0x100 && |scid| < 0x100 && b == PutCids(dcid, scid) + x
  {
    CidSound(b);
    CidSound(ReadCid(b).value.1);
  }

  lemma {:induction false} TokenSound(b: bytes) returns (w: Width)
    requires ReadToken(b).Some?
    ensures var (token, x) := ReadToken(b).value; w.Holds(|token|) && b == Put(|token|, w) + token + x
  {
    w := ReadSound(b);
    var (n, rest) := Read(b).value;
    assert rest == rest[..n] + rest[n..];
    assert Put(n, w) + rest == Put(n, w) + rest[..n] + rest[n..];
  }

  lemma {:induction false} FieldsSound(initial: bool, b: bytes, h: Header) returns (w: Widths)
    requires ReadFields(initial, b).Some?
    requires h.token == ReadFields(initial, b).value.0 && h.length == ReadFields(initial, b).value.1
    ensures h.token.Some? == initial && w.length.Holds(h.length)
    ensures h.token.Some? ==> w.token.Holds(|h.token.value|)
    ensures b == PutFields(h, w) + ReadFields(initial, b).value.2
  {
    if initial {
      var wt := TokenSound(b);
      var wl := ReadSound(ReadToken(b).value.1);
      w := Widths(wt, wl);
    } else {
      var wl := ReadSound(b);
      w := Widths(W1, wl);
      assert PutFields(h, w) == Put(h.length, wl);
    }
  }

  lemma {:induction false} ParseRestSound(typeByte: byte, version: nat, b: bytes) returns (w: Widths)
    requires ParseRest(typeByte, version, b).Some?
    requires version < 0x1_0000_0000 && (version != 0 ==> FixedBit(typeByte))
    ensures var (h, x) := ParseRest(typeByte, version, b).value;
            && h.version == version && Wf(typeByte, h, w)
            && b == PutCids(h.dcid, h.scid) + PutFields(h, w) + x
  {
    var (h, x) := ParseRest(typeByte, version, b).value;
    var (dcid, scid, b1) := ReadCids(b).value;
    w := FieldsSound(IsInitial(typeByte, version), b1, h);
    CidsSound(b);
    Assoc(PutCids(dcid, scid), PutFields(h, w), x);
  }

  lemma {:induction false} PutFront(b: bytes, y: bytes, x: bytes)
    requires |b| >= 5 && b[5..] == y + x
    ensures Digits(ValueOf(b[1..5]), 4) == b[1..5]
    ensures b == [b[0]] + b[1..5] + y + x && b[..|b| - |x|] == [b[0]] + b[1..5] + y
  {
    DigitsOfValue(b[1..5]);
    assert b == [b[0]] + b[1..5] + b[5..];
    Assoc([b[0]] + b[1..5], y, x);
  }

  // HEADER EXACTNESS. Whatever is accepted is an encoded header, and the offset points behind it.
  lemma {:induction false} HeaderSound(b: bytes) returns (w: Widths)
    requires ParseInitialHeader(b).Some?
    ensures var (h, n) := ParseInitialHeader(b).value;
            5 <= n <= |b| && Wf(b[0], h, w) && b[..n] == Encode(b[0], h, w)
  {
    var version := ValueOf(b[1..5]);
    DigitsOfValue(b[1..5]);
    Pow256Of4();
    w := ParseRestSound(b[0], version, b[5..]);
    var (h, x) := ParseRest(b[0], version, b[5..]).value;
    PutFront(b, PutCids(h.dcid, h.scid) + PutFields(h, w), x);
  }

  // ---- The reading form ----

  method ReadConnectionIDFrom(r: Reader, n: nat) returns (cid: bytes, ok: bool)
    requires r.Valid()
    modifies r
    ensures r.Valid()
    ensures ok == ReadConnectionID(old(r.Rest()), n).Some?
    ensures ok ==> ReadConnectionID(old(r.Rest()), n) == Some((cid, r.Rest()))
  {
    var eof: bool;
    cid, ok, eof := r.ReadFull(n);
    if eof {
      cid, ok := seq(n, _ => 0), true;
    }
  }

  method ReadCidFrom(r: Reader) returns (cid: bytes, ok: bool)
    requires r.Valid()
    modifies r
    ensures r.Valid()
    ensures ok == ReadCid(old(r.Rest())).Some?
    ensures ok ==> ReadCid(old(r.Rest())) == Some((cid, r.Rest()))
  {
    var connIDLen: byte;
    connIDLen, ok := r.ReadByte();
    if !ok { return [], false; }
    cid, ok := ReadConnectionIDFrom(r, connIDLen);
  }

  method ReadFieldsFrom(r: Reader, initial: bool) returns (token: Option<bytes>, len: nat, ok: bool)
    requires r.Valid()
    modifies r
    ensures r.Valid()
    ensures ok == ReadFields(initial, old(r.Rest())).Some?
    ensures ok ==> ReadFields(initial, old(r.Rest())) == Some((token, len, r.Rest()))
  {
    token := None;
    if initial {
      var tokenLen: nat, t: bytes, eof: bool;
      tokenLen, ok := r.ReadVarint();
      if !ok { return None, 0, false; }
      var left := r.Len();
      if tokenLen > left { return None, 0, false; }
      t, ok, eof := r.ReadFull(tokenLen);
      token := Some(t);
    }
    len, ok := r.ReadVarint();
  }

  // The part of parseLongHeader behind the version.
  method ParseRestFrom(r: Reader, typeByte: byte, version: nat) returns (h: Header, ok: bool)
    requires r.Valid()
    modifies r
    ensures r.Valid()
    ensures ok == ParseRest(typeByte, version, old(r.Rest())).Some?
    ensures ok ==> ParseRest(typeByte, version, old(r.Rest())) == Some((h, r.Rest()))
  {
    h := Header(version, [], [], 0, None);
    var dcid: bytes, scid: bytes, token: Option<bytes>, pl: nat;
    dcid, ok := ReadCidFrom(r);
    if !ok { return; }
    scid, ok := ReadCidFrom(r);
    if !ok { return; }
    token, pl, ok := ReadFieldsFrom(r, IsInitial(typeByte, version));
    if !ok { return; }
    h := Header(version, dcid, scid, pl, token);
  }

  method ParseLongHeader(r: Reader) returns (h: Option<Header>)
    requires r.Valid() && r.pos == 0
    modifies r
    ensures r.Valid()
    ensures h.Some? == ParseInitialHeader(r.data).Some?
    ensures h.Some? ==> ParseInitialHeader(r.data) == Some((h.value, r.pos))
  {
    ghost var b := r.data;
    var typeByte, ok := r.ReadByte();
    if !ok { return None; }
    var verBytes: bytes, eof: bool;
    verBytes, ok, eof := r.ReadFull(4);
    if !ok { return None; }
    var version := ValueOf(verBytes);
    if version != 0 && !FixedBit(typeByte) { return None; }
    assert b[0] == typeByte && b[1..5] == verBytes;
    h := ParseLongHeaderRest(r, typeByte, version);
  }

  method ParseLongHeaderRest(r: Reader, typeByte: byte, version: nat) returns (h: Option<Header>)
    requires r.Valid() && r.pos == 5
    requires typeByte == r.data[0] && version == ValueOf(r.data[1..5]) && (version != 0 ==> FixedBit(typeByte))
    modifies r
    ensures r.Valid()
    ensures h.Some? == ParseInitialHeader(r.data).Some?
    ensures h.Some? ==> ParseInitialHeader(r.data) == Some((h.value, r.pos))
  {
    var hdr, ok := ParseRestFrom(r, typeByte, version);
    if !ok { return None; }
    HeaderAt(r.data, hdr, r.Rest());
    return Some(hdr);
  }
}
