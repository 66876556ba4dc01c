/** CRYPTO frames of an Initial packet (analyzer/udp/internal/quic/payload.go). */
module QuicPayload {
  import opened Bytes
  import opened Results
  import opened Varints

  const PADDING: nat := 0x00
  const PING: nat := 0x01
  const CRYPTO: nat := 0x06

  datatype Frame = Frame(offset: nat, data: bytes)

  // ---- Extraction ----

  // maxLen is the largest length of a slice that can be made. The other slices of this code are no
  // longer than 255 bytes or than the datagram.

  // The offset, length and data of a CRYPTO frame. The slice for the data is made before the
  // announced length is compared with what is there.
  function ReadCrypto(maxLen: nat, b: bytes): (r: Result<(Frame, bytes)>)
    ensures r.Done? ==> |r.value.1| < |b|
  {
    match Read(b)
    case None => Failed
    case Some((offset, b1)) =>
      match Read(b1)
      case None => Failed
      case Some((len, b2)) =>
        if len > maxLen then Panicked
        else if len > |b2| then Failed
        else Done((Frame(offset, b2[..len]), b2[len..]))
  }

  function Extract(maxLen: nat, b: bytes, acc: seq<Frame>): Result<seq<Frame>>
    decreases |b|
  {
    if b == [] then Done(acc)
    else
      match Read(b)
      case None => Failed
      case Some((typ, b1)) =>
        if typ == PADDING || typ == PING then Extract(maxLen, b1, acc)
        else if typ != CRYPTO then Failed
        else
          match ReadCrypto(maxLen, b1)
          case Failed => Failed
          case Panicked => Panicked
          case Done((frame, b2)) => Extract(maxLen, b2, acc + [frame])
  }

  // A frame as it is written: the type and the integers in any width that holds them
  // (sections 16, 19.1, 19.2 and 19.6 of RFC 9000).
  datatype Element =
    | Padding(t: Width)
    | Ping(t: Width)
    | Crypto(t: Width, frame: Frame, wo: Width, wl: Width)
  {
    predicate Wf() { Crypto? ==> wo.Holds(frame.offset) && wl.Holds(|frame.data|) }

    function Type(): nat { if Padding? then 0 else if Ping? then 1 else 6 }

    function Body(): bytes
      requires Wf()
    {
      if Crypto? then Put(frame.offset, wo) + (Put(|frame.data|, wl) + frame.data) else []
    }

    function Encode(): (b: bytes)
      requires Wf()
      ensures |b| > 0
    {
      assert 64 * Pow256(t.Len() - 1) > 6;
      Put(Type(), t) + Body()
    }
  }

  predicate ElementsWf(es: seq<Element>) { forall e :: e in es ==> e.Wf() }

  function PutElements(es: seq<Element>): bytes
    requires ElementsWf(es)
  {
    if es == [] then [] else es[0].Encode() + PutElements(es[1..])
  }

  function Frames(es: seq<Element>): seq<Frame> {
    if es == [] then []
    else (if es[0].Crypto? then [es[0].frame] else []) + Frames(es[1..])
  }

  // The data of all CRYPTO frames fits a slice.
  predicate Fits(maxLen: nat, es: seq<Element>) {
    forall e :: e in es && e.Crypto? ==> |e.frame.data| <= maxLen
  }

  // What the front of a CRYPTO frame decides, whatever is behind it.
  lemma {:induction false} ReadAnnounced(maxLen: nat, offset: nat, wo: Width, len: nat, wl: Width, x: bytes)
    requires wo.Holds(offset) && wl.Holds(len)
    ensures ReadCrypto(maxLen, Put(offset, wo) + Put(len, wl) + x) ==
              if len > maxLen then Panicked else if len > |x| then Failed else Done((Frame(offset, x[..len]), x[len..]))
  {
    ReadPut(len, wl, x);
    ReadPut(offset, wo, Put(len, wl) + x);
    Assoc(Put(offset, wo), Put(len, wl), x);
  }

  lemma {:induction false} ReadCryptoEncoded(maxLen: nat, f: Frame, wo: Width, wl: Width, x: bytes)
    requires wo.Holds(f.offset) && wl.Holds(|f.data|)
    ensures ReadCrypto(maxLen, Put(f.offset, wo) + (Put(|f.data|, wl) + f.data) + x) ==
              if |f.data| > maxLen then Panicked else Done((f, x))
  {
    var y := f.data + x;
    ReadAnnounced(maxLen, f.offset, wo, |f.data|, wl, y);
    Assoc(Put(f.offset, wo), Put(|f.data|, wl), f.data);
    Assoc(Put(f.offset, wo) + Put(|f.data|, wl), f.data, x);
    assert y[..|f.data|] == f.data && y[|f.data|..] == x;
  }

  lemma {:induction false} ExtractElement(maxLen: nat, e: Element, x: bytes, acc: seq<Frame>)
    requires e.Wf()
    ensures Extract(maxLen, e.Encode() + x, acc) ==
              if !e.Crypto? then Extract(maxLen, x, acc)
              else if |e.frame.data| > maxLen then Panicked
              else Extract(maxLen, x, acc + [e.frame])
  {
    assert 64 * Pow256(e.t.Len() - 1) > 6;
    ReadPut(e.Type(), e.t, e.Body() + x);
    Assoc(Put(e.Type(), e.t), e.Body(), x);
    if e.Crypto? {
      ReadCryptoEncoded(maxLen, e.frame, e.wo, e.wl, x);
    } else {
      assert e.Body() + x == x;
    }
  }

  // A payload that opens with padding, pings and CRYPTO frames panics at the first one that does
  // not fit, and is what is behind them otherwise.
  lemma {:induction false} ExtractFront(maxLen: nat, es: seq<Element>, x: bytes, acc: seq<Frame>)
    requires ElementsWf(es)
    ensures Extract(maxLen, PutElements(es) + x, acc) ==
              if Fits(maxLen, es) then Extract(maxLen, x, acc + Frames(es)) else Panicked
  {
    hide Extract, Element.Encode, Element.Wf;
    if es == [] {
      assert acc + Frames(es) == acc && PutElements(es) + x == x;
    } else {
      var e, tail := es[0], es[1..];
      assert es == [e] + tail;
      ExtractElement(maxLen, e, PutElements(tail) + x, acc);
      Assoc(e.Encode(), PutElements(tail), x);
      if !e.Crypto? || |e.frame.data| <= maxLen {
        var acc' := if e.Crypto? then acc + [e.frame] else acc;
        ExtractFront(maxLen, tail, x, acc');
        Assoc(acc, if e.Crypto? then [e.frame] else [], Frames(tail));
        assert acc + [] == acc;
        assert Fits(maxLen, es) == Fits(maxLen, tail);
      }
    }
  }

  // Every payload of padding, pings and CRYPTO frames yields its CRYPTO frames in order, if they
  // all fit.
  lemma {:induction false} ExtractEncoded(maxLen: nat, es: seq<Element>)
    requires ElementsWf(es)
    ensures Extract(maxLen, PutElements(es), []) == if Fits(maxLen, es) then Done(Frames(es)) else Panicked
  {
    ExtractFront(maxLen, es, [], []);
    assert PutElements(es) + [] == PutElements(es) && [] + Frames(es) == Frames(es);
  }

  lemma {:induction false} CutBack(a: bytes, c: bytes, d: bytes, n: nat)
    requires n <= |d|
    ensures a + (c + d) == a + (c + d[..n]) + d[n..]
  {
    Assoc(c, d[..n], d[n..]);
    Assoc(a, c + d[..n], d[n..]);
    assert d == d[..n] + d[n..];
  }

  lemma {:induction false} ReadCryptoSound(maxLen: nat, b: bytes) returns (wo: Width, wl: Width)
    requires ReadCrypto(maxLen, b).Done?
    ensures var (f, x) := ReadCrypto(maxLen, b).value;
            && wo.Holds(f.offset) && wl.Holds(|f.data|) && |f.data| <= maxLen
            && b == Put(f.offset, wo) + (Put(|f.data|, wl) + f.data) + x
  {
    wo := ReadSound(b);
    var (offset, b1) := Read(b).value;
    wl := ReadSound(b1);
    var (len, b2) := Read(b1).value;
    assert ReadCrypto(maxLen, b).value == (Frame(offset, b2[..len]), b2[len..]);
    hide Read, ReadCrypto, Put, Width.Holds;
    CutBack(Put(offset, wo), Put(len, wl), b2, len);
  }

  lemma {:induction false} OneElement(maxLen: nat, b: bytes, acc: seq<Frame>) returns (e: Element, x: bytes)
    requires Read(b).Some? && !Extract(maxLen, b, acc).Failed?
    requires Read(b).value.0 == CRYPTO ==> ReadCrypto(maxLen, Read(b).value.1).Done?
    ensures e.Wf() && b == e.Encode() + x && (e.Crypto? ==> |e.frame.data| <= maxLen)
    ensures Extract(maxLen, b, acc) == Extract(maxLen, x, if e.Crypto? then acc + [e.frame] else acc)
  {
    var t := ReadSound(b);
    var (typ, b1) := Read(b).value;
    if typ == CRYPTO {
      var wo, wl := ReadCryptoSound(maxLen, b1);
      var (f, b2) := ReadCrypto(maxLen, b1).value;
      e, x := Crypto(t, f, wo, wl), b2;
    } else {
      e, x := if typ == PADDING then Padding(t) else Ping(t), b1;
      assert b1 == e.Body() + x;
    }
    Assoc(Put(typ, t), e.Body(), x);
  }

  lemma {:induction false} ElementsCons(e: Element, tail: seq<Element>, acc: seq<Frame>)
    requires e.Wf() && ElementsWf(tail)
    ensures ElementsWf([e] + tail) && PutElements([e] + tail) == e.Encode() + PutElements(tail)
    ensures acc + Frames([e] + tail) == (if e.Crypto? then acc + [e.frame] else acc) + Frames(tail)
  {
    hide Element.Encode, Element.Wf;
    assert ([e] + tail)[1..] == tail;
  }

  // Nothing but such a payload is accepted.
  lemma {:induction false} ExtractSound(maxLen: nat, b: bytes, acc: seq<Frame>) returns (es: seq<Element>)
    requires Extract(maxLen, b, acc).Done?
    ensures ElementsWf(es) && Fits(maxLen, es)
    ensures b == PutElements(es) && Extract(maxLen, b, acc).value == acc + Frames(es)
    decreases |b|
  {
    if b == [] {
      es := [];
      assert acc + Frames(es) == acc;
    } else {
      var e, x := OneElement(maxLen, b, acc);
      var acc' := if e.Crypto? then acc + [e.frame] else acc;
      var tail := ExtractSound(maxLen, x, acc');
      es := [e] + tail;
      ElementsCons(e, tail, acc);
    }
  }

  // The front of a CRYPTO frame whose announced length does not fit.
  datatype Announcement = Announcement(t: Width, offset: nat, wo: Width, len: nat, wl: Width)
  {
    predicate Wf() { wo.Holds(offset) && wl.Holds(len) }

    function Encode(): (b: bytes)
      requires Wf()
    {
      assert 64 * Pow256(t.Len() - 1) > 6;
      Put(6, t) + (Put(offset, wo) + Put(len, wl))
    }
  }

  // The payload is such a front behind some frames, with anything after it.
  ghost predicate AnnouncedBehind(maxLen: nat, b: bytes, es: seq<Element>, a: Announcement, x: bytes) {
    ElementsWf(es) && a.Wf() && a.len > maxLen && b == PutElements(es) + (a.Encode() + x)
  }

  ghost predicate Announces(maxLen: nat, b: bytes) {
    exists es, a, x :: AnnouncedBehind(maxLen, b, es, a, x)
  }

  lemma {:induction false} AnnouncedPanics(maxLen: nat, a: Announcement, x: bytes, acc: seq<Frame>)
    requires a.Wf() && a.len > maxLen
    ensures Extract(maxLen, a.Encode() + x, acc) == Panicked
  {
    var y := Put(a.offset, a.wo) + Put(a.len, a.wl);
    assert 64 * Pow256(a.t.Len() - 1) > 6;
    ReadPut(CRYPTO, a.t, y + x);
    Assoc(Put(CRYPTO, a.t), y, x);
    ReadAnnounced(maxLen, a.offset, a.wo, a.len, a.wl, x);
  }

  lemma {:induction false} AnnouncementFound(maxLen: nat, b: bytes) returns (a: Announcement, x: bytes)
    requires Read(b).Some? && Read(b).value.0 == CRYPTO && ReadCrypto(maxLen, Read(b).value.1).Panicked?
    ensures a.Wf() && a.len > maxLen && b == a.Encode() + x
  {
    var t := ReadSound(b);
    var (_, b1) := Read(b).value;
    var wo := ReadSound(b1);
    var (offset, b2) := Read(b1).value;
    var wl := ReadSound(b2);
    var (len, b3) := Read(b2).value;
    a, x := Announcement(t, offset, wo, len, wl), b3;
    hide Read, ReadCrypto, Put, Width.Holds;
    Assoc(Put(offset, wo), Put(len, wl), x);
    Assoc(Put(CRYPTO, t), Put(offset, wo) + Put(len, wl), x);
  }

  lemma {:induction false} PanicFound(maxLen: nat, b: bytes, acc: seq<Frame>)
    returns (es: seq<Element>, a: Announcement, x: bytes)
    requires Extract(maxLen, b, acc).Panicked?
    ensures AnnouncedBehind(maxLen, b, es, a, x)
    decreases |b|
  {
    var (typ, b1) := Read(b).value;
    if typ == CRYPTO && ReadCrypto(maxLen, b1).Panicked? {
      a, x := AnnouncementFound(maxLen, b);
      es := [];
      assert PutElements([]) + b == b;
    } else {
      var e, y := OneElement(maxLen, b, acc);
      es, a, x := PanicFound(maxLen, y, if e.Crypto? then acc + [e.frame] else acc);
      ElementsCons(e, es, acc);
      Assoc(e.Encode(), PutElements(es), a.Encode() + x);
      es := [e] + es;
    }
  }

  // EXACTLY WHEN EXTRACTION PANICS: some CRYPTO frame announces more bytes than fit a slice,
  // whether they are there or not.
  lemma {:induction false} ExtractPanics(maxLen: nat, b: bytes)
    ensures Extract(maxLen, b, []).Panicked? <==> Announces(maxLen, b)
  {
    hide Extract, PutElements;
    if Extract(maxLen, b, []).Panicked? {
      var es, a, x := PanicFound(maxLen, b, []);
    }
    if Announces(maxLen, b) {
      var es, a, x :| AnnouncedBehind(maxLen, b, es, a, x);
      ExtractFront(maxLen, es, a.Encode() + x, []);
      AnnouncedPanics(maxLen, a, x, [] + Frames(es));
    }
  }

  // ---- Assembly ----

  predicate Sorted(fs: seq<Frame>) {
    forall i, j :: 0 <= i < j < |fs| ==> fs[i].offset <= fs[j].offset
  }

  predicate Contiguous(fs: seq<Frame>) {
    forall i :: 1 <= i < |fs| ==> fs[i].offset == fs[i - 1].offset + |fs[i - 1].data|
  }

  function Joined(fs: seq<Frame>): bytes {
    if fs == [] then [] else fs[0].data + Joined(fs[1..])
  }

  function Zeros(n: nat): bytes { seq(n, _ => 0) }

  function EndOfLast(fs: seq<Frame>): nat
    requires fs != []
  {
    fs[|fs| - 1].offset + |fs[|fs| - 1].data|
  }

  // What the assembly returns once the frames are sorted. Several frames that start at an
  // offset above zero come out with that many zero bytes in front; a single frame comes out
  // as it is.
  function Assembled(maxLen: nat, fs: seq<Frame>): Result<bytes> {
    if |fs| == 0 then Failed
    else if |fs| == 1 then Done(fs[0].data)
    else if !Contiguous(fs) then Failed
    else if EndOfLast(fs) > maxLen then Panicked
    else Done(Zeros(fs[0].offset) + Joined(fs))
  }

  // r is a possible result of the assembly: sorting may put frames of equal offset in any order.
  ghost predicate Assembles(maxLen: nat, fs: seq<Frame>, r: Result<bytes>) {
    exists s :: Sorted(s) && multiset(s) == multiset(fs) && r == Assembled(maxLen, s)
  }

  // r is a possible result for a decrypted payload.
  ghost predicate Gathers(maxLen: nat, plain: bytes, r: Result<bytes>) {
    match Extract(maxLen, plain, [])
    case Failed => r == Failed
    case Panicked => r == Panicked
    case Done(fs) => Assembles(maxLen, fs, r)
  }

  // Consecutive pieces as frames from an offset on.
  function FramesOf(pieces: seq<bytes>, offset: nat): (fs: seq<Frame>)
    ensures |fs| == |pieces|
  {
    if pieces == [] then [] else [Frame(offset, pieces[0])] + FramesOf(pieces[1..], offset + |pieces[0]|)
  }

  predicate NonEmpty(pieces: seq<bytes>) { forall p :: p in pieces ==> p != [] }

  lemma {:induction false} FramesOfJoined(pieces: seq<bytes>, offset: nat)
    ensures Joined(FramesOf(pieces, offset)) == Flatten(pieces)
  {
    if pieces != [] {
      FramesOfJoined(pieces[1..], offset + |pieces[0]|);
      assert FramesOf(pieces, offset)[1..] == FramesOf(pieces[1..], offset + |pieces[0]|);
    }
  }

  lemma {:induction false} FramesOfOrdered(pieces: seq<bytes>, offset: nat)
    requires NonEmpty(pieces)
    ensures var fs := FramesOf(pieces, offset);
            && (forall i :: 0 <= i < |fs| ==> fs[i].offset >= offset)
            && (forall i, j :: 0 <= i < j < |fs| ==> fs[i].offset < fs[j].offset)
            && (fs != [] ==> fs[0] == Frame(offset, pieces[0]))
  {
    if pieces != [] {
      assert pieces[0] in pieces && forall p :: p in pieces[1..] ==> p in pieces;
      FramesOfOrdered(pieces[1..], offset + |pieces[0]|);
      var fs, tail := FramesOf(pieces, offset), FramesOf(pieces[1..], offset + |pieces[0]|);
      assert forall i :: 1 <= i < |fs| ==> fs[i] == tail[i - 1];
    }
  }

  lemma {:induction false} FramesOfContiguous(pieces: seq<bytes>, offset: nat)
    ensures Contiguous(FramesOf(pieces, offset))
  {
    if pieces != [] {
      FramesOfContiguous(pieces[1..], offset + |pieces[0]|);
      var fs, tail := FramesOf(pieces, offset), FramesOf(pieces[1..], offset + |pieces[0]|);
      assert forall i :: 1 <= i < |fs| ==> fs[i] == tail[i - 1];
    }
  }

  lemma {:induction false} SameFirst(s: seq<Frame>, t: seq<Frame>)
    requires Sorted(s) && multiset(s) == multiset(t) && s != [] && t != []
    requires forall i, j :: 0 <= i < j < |t| ==> t[i].offset < t[j].offset
    ensures s[0] == t[0]
  {
    assert t[0] in multiset(s) && s[0] in multiset(t);
    var i :| 0 <= i < |s| && s[i] == t[0];
    var j :| 0 <= j < |t| && t[j] == s[0];
  }

  lemma {:induction false} SameRest(s: seq<Frame>, t: seq<Frame>)
    requires multiset(s) == multiset(t) && s != [] && t != [] && s[0] == t[0]
    ensures multiset(s[1..]) == multiset(t[1..])
  {
    assert s == [s[0]] + s[1..] && t == [t[0]] + t[1..];
    assert multiset(s[1..]) == multiset(s) - multiset{s[0]};
  }

  // A sorted arrangement of frames with distinct offsets is unique.
  lemma {:induction false} SortedUnique(s: seq<Frame>, t: seq<Frame>)
    requires Sorted(s) && multiset(s) == multiset(t)
    requires forall i, j :: 0 <= i < j < |t| ==> t[i].offset < t[j].offset
    ensures s == t
    decreases |t|
  {
    assert |multiset(s)| == |s| && |multiset(t)| == |t|;
    if t != [] {
      SameFirst(s, t);
      SameRest(s, t);
      SortedUnique(s[1..], t[1..]);
      assert s == [s[0]] + s[1..] && t == [t[0]] + t[1..];
    }
  }

  // What the assembly makes of consecutive pieces from offset k on.
  function FromOffset(maxLen: nat, pieces: seq<bytes>, k: nat): Result<bytes> {
    if |pieces| == 1 then Done(pieces[0])
    else if k + |Flatten(pieces)| > maxLen then Panicked
    else Done(Zeros(k) + Flatten(pieces))
  }

  lemma {:induction false} AssembledInOrder(maxLen: nat, pieces: seq<bytes>, k: nat)
    requires pieces != [] && NonEmpty(pieces)
    ensures Assembled(maxLen, FramesOf(pieces, k)) == FromOffset(maxLen, pieces, k)
  {
    var fs := FramesOf(pieces, k);
    FramesOfContiguous(pieces, k);
    FramesOfJoined(pieces, k);
    EndOf(fs, |fs|);
    assert fs[..|fs|] == fs;
  }

  // The order of the frames does not matter: there is one way only to sort them.
  lemma {:induction false} AssembledInAnyOrder(maxLen: nat, pieces: seq<bytes>, k: nat, fs: seq<Frame>,
                                               r: Result<bytes>)
    requires NonEmpty(pieces) && multiset(fs) == multiset(FramesOf(pieces, k))
    ensures Assembles(maxLen, fs, r) <==> r == Assembled(maxLen, FramesOf(pieces, k))
  {
    var t := FramesOf(pieces, k);
    FramesOfOrdered(pieces, k);
    assert Sorted(t);
    hide Assembled;
    if Assembles(maxLen, fs, r) {
      var s :| Sorted(s) && multiset(s) == multiset(fs) && r == Assembled(maxLen, s);
      SortedUnique(s, t);
    }
  }

  // Pieces from offset k, in any order: exactly their bytes if and only if there is one piece, or k
  // is zero and they fit a slice; otherwise k zero bytes come first, or, when these do not fit
  // together with the pieces, a panic.
  lemma {:induction false} AssembledFrom(maxLen: nat, pieces: seq<bytes>, k: nat, fs: seq<Frame>, r: Result<bytes>)
    requires pieces != [] && NonEmpty(pieces) && multiset(fs) == multiset(FramesOf(pieces, k))
    ensures Assembles(maxLen, fs, r) <==>
              r == if |pieces| == 1 then Done(pieces[0])
                   else if k + |Flatten(pieces)| > maxLen then Panicked
                   else Done(seq(k, _ => 0) + Flatten(pieces))
    ensures Assembles(maxLen, fs, Done(Flatten(pieces))) <==>
              |pieces| == 1 || (k == 0 && |Flatten(pieces)| <= maxLen)
  {
    AssembledInOrder(maxLen, pieces, k);
    AssembledInAnyOrder(maxLen, pieces, k, fs, r);
    AssembledInAnyOrder(maxLen, pieces, k, fs, Done(Flatten(pieces)));
    if |pieces| == 1 {
      OnePiece(pieces);
    } else {
      assert |Zeros(k) + Flatten(pieces)| == k + |Flatten(pieces)|;
      assert k == 0 ==> Zeros(k) + Flatten(pieces) == Flatten(pieces);
    }
  }

  lemma {:induction false} OnePiece(pieces: seq<bytes>)
    requires |pieces| == 1
    ensures Flatten(pieces) == pieces[0]
  {
    assert Flatten(pieces[1..]) == [];
    assert pieces[0] + [] == pieces[0];
  }

  lemma {:induction false} PieceFits(pieces: seq<bytes>, p: bytes)
    requires p in pieces
    ensures |p| <= |Flatten(pieces)|
  {
    if p != pieces[0] {
      PieceFits(pieces[1..], p);
    }
  }

  lemma {:induction false} PieceOfFrame(pieces: seq<bytes>, k: nat, f: Frame)
    requires f in FramesOf(pieces, k)
    ensures f.data in pieces
  {
    if f != FramesOf(pieces, k)[0] {
      PieceOfFrame(pieces[1..], k + |pieces[0]|, f);
    }
  }

  lemma {:induction false} FrameOfElement(es: seq<Element>, e: Element)
    requires e in es && e.Crypto?
    ensures e.frame in Frames(es)
  {
    if e != es[0] {
      FrameOfElement(es[1..], e);
    }
  }

  lemma {:induction false} ElementOfFrame(es: seq<Element>, f: Frame) returns (e: Element)
    requires f in Frames(es)
    ensures e in es && e.Crypto? && e.frame == f
  {
    if es[0].Crypto? && es[0].frame == f {
      e := es[0];
    } else {
      e := ElementOfFrame(es[1..], f);
    }
  }

  // Pieces that fit a slice together fit it one by one.
  lemma {:induction false} PiecesFit(maxLen: nat, pieces: seq<bytes>, k: nat, es: seq<Element>)
    requires multiset(Frames(es)) == multiset(FramesOf(pieces, k))
    ensures |Flatten(pieces)| <= maxLen ==> Fits(maxLen, es)
    ensures |pieces| == 1 ==> (Fits(maxLen, es) <==> |Flatten(pieces)| <= maxLen)
  {
    var fs := FramesOf(pieces, k);
    forall e | e in es && e.Crypto? ensures |e.frame.data| <= |Flatten(pieces)| {
      FrameOfElement(es, e);
      assert e.frame in multiset(fs);
      PieceOfFrame(pieces, k, e.frame);
      PieceFits(pieces, e.frame.data);
    }
    if |pieces| == 1 {
      OnePiece(pieces);
      assert fs[0] in multiset(fs);
      assert fs[0] in multiset(Frames(es));
      var e := ElementOfFrame(es, fs[0]);
    }
  }

  // CRYPTO PIPELINE ROUND TRIP. A non-empty byte string cut into consecutive non-empty pieces,
  // written as CRYPTO frames in any order with padding and pings in between, is extracted and
  // assembled to itself if it fits a slice, and panics otherwise, whatever order the sort gives to
  // equal offsets.
  lemma {:induction false} CryptoRoundTrip(maxLen: nat, pieces: seq<bytes>, es: seq<Element>, r: Result<bytes>)
    requires pieces != [] && NonEmpty(pieces) && ElementsWf(es)
    requires multiset(Frames(es)) == multiset(FramesOf(pieces, 0))
    ensures Gathers(maxLen, PutElements(es), r) <==>
              r == if |Flatten(pieces)| <= maxLen then Done(Flatten(pieces)) else Panicked
  {
    ExtractEncoded(maxLen, es);
    PiecesFit(maxLen, pieces, 0, es);
    AssembledFrom(maxLen, pieces, 0, Frames(es), r);
    hide Extract, Assembles, PutElements, Frames, FramesOf, Fits;
    if |pieces| == 1 {
      OnePiece(pieces);
    } else {
      assert Zeros(0) + Flatten(pieces) == Flatten(pieces);
    }
  }

  // ---- Exactly when a payload panics ----

  // Several frames that some sort leaves contiguous, and whose bytes, with the zeros in front, do
  // not fit a slice.
  ghost predicate Overflowing(maxLen: nat, s: seq<Frame>, fs: seq<Frame>) {
    && Sorted(s) && multiset(s) == multiset(fs) && |s| >= 2 && Contiguous(s)
    && |Zeros(s[0].offset) + Joined(s)| > maxLen
  }

  ghost predicate Overflows(maxLen: nat, fs: seq<Frame>) {
    exists s :: Overflowing(maxLen, s, fs)
  }

  lemma {:induction false} AssemblyPanics(maxLen: nat, fs: seq<Frame>)
    ensures Assembles(maxLen, fs, Panicked) <==> Overflows(maxLen, fs)
  {
    forall s: seq<Frame> | |s| >= 2 && Contiguous(s)
      ensures EndOfLast(s) == |Zeros(s[0].offset) + Joined(s)|
    {
      EndOf(s, |s|);
      assert s[..|s|] == s;
    }
    if Assembles(maxLen, fs, Panicked) {
      var s :| Sorted(s) && multiset(s) == multiset(fs) && Panicked == Assembled(maxLen, s);
      assert Overflowing(maxLen, s, fs);
    }
    if Overflows(maxLen, fs) {
      var s :| Overflowing(maxLen, s, fs);
      assert Assembled(maxLen, s) == Panicked;
    }
  }

  // A payload of frames whose bytes overflow.
  ghost predicate OverflowIn(maxLen: nat, plain: bytes, es: seq<Element>) {
    ElementsWf(es) && plain == PutElements(es) && Overflows(maxLen, Frames(es))
  }

  // A CRYPTO frame announces more bytes than fit a slice, or several contiguous frames end beyond
  // that.
  ghost predicate TooLarge(maxLen: nat, plain: bytes) {
    Announces(maxLen, plain) || exists es :: OverflowIn(maxLen, plain, es)
  }

  // EXACTLY WHEN A DECRYPTED PAYLOAD PANICS.
  lemma {:induction false} GatheringPanics(maxLen: nat, plain: bytes)
    ensures Gathers(maxLen, plain, Panicked) <==> TooLarge(maxLen, plain)
  {
    ExtractPanics(maxLen, plain);
    hide Extract, Assembles, Announces, Overflows, Frames, PutElements;
    if es :| OverflowIn(maxLen, plain, es) {
      ExtractEncoded(maxLen, es);
      AssemblyPanics(maxLen, Frames(es));
    }
    if Extract(maxLen, plain, []).Done? {
      var es := ExtractSound(maxLen, plain, []);
      assert [] + Frames(es) == Frames(es);
      AssemblyPanics(maxLen, Frames(es));
      assert Overflows(maxLen, Frames(es)) ==> OverflowIn(maxLen, plain, es);
    }
  }

  lemma {:induction false} LongestAnnounced()
    ensures var a := Announcement(W1, 0, W1, 0x3FFF_FFFF_FFFF_FFFF, W8);
            a.Wf() && a.Encode() + [] == [6, 0, 0xFF, 0xFF, 0xFF, 0xFF, 0xFF, 0xFF, 0xFF, 0xFF]
  {
    LongestLength();
    hide Pow256, Digits;
    assert Put(CRYPTO, W1) == [6] && Put(0, W1) == [0] by {
      SmallPut(CRYPTO);
      SmallPut(0);
    }
  }

  // Ten bytes that do it: a CRYPTO frame of length 2^62 - 1 with nothing in it.
  lemma {:induction false} LongestFramePanics(maxLen: nat, r: Result<bytes>)
    requires maxLen < 0x3FFF_FFFF_FFFF_FFFF
    ensures Gathers(maxLen, [6, 0, 0xFF, 0xFF, 0xFF, 0xFF, 0xFF, 0xFF, 0xFF, 0xFF], r) <==> r == Panicked
  {
    LongestAnnounced();
    hide Announcement.Encode, Announcement.Wf, Extract;
    AnnouncedPanics(maxLen, Announcement(W1, 0, W1, 0x3FFF_FFFF_FFFF_FFFF, W8), [], []);
  }

  // ---- The reading and copying form ----

  method ReadCryptoFrom(maxLen: nat, r: Reader) returns (frame: Result<Frame>)
    requires r.Valid()
    modifies r
    ensures r.Valid()
    ensures match ReadCrypto(maxLen, old(r.Rest()))
            case Failed => frame == Failed
            case Panicked => frame == Panicked
            case Done((f, x)) => frame == Done(f) && r.Rest() == x
  {
    var offset, ok := r.ReadVarint();
    if !ok { return Failed; }
    var dataLen: nat, data: bytes, eof: bool;
    dataLen, ok := r.ReadVarint();
    if !ok { return Failed; }
    if dataLen > maxLen { return Panicked; }
    data, ok, eof := r.ReadFull(dataLen);
    if !ok { return Failed; }
    return Done(Frame(offset, data));
  }

  method ExtractCryptoFrames(maxLen: nat, r: Reader) returns (frames: Result<seq<Frame>>)
    requires r.Valid()
    modifies r
    ensures r.Valid()
    ensures frames == Extract(maxLen, old(r.Rest()), [])
  {
    hide ReadCrypto;
    var fs: seq<Frame> := [];
    while r.pos < |r.data|
      invariant r.Valid()
      invariant Extract(maxLen, r.Rest(), fs) == Extract(maxLen, old(r.Rest()), [])
      decreases |r.data| - r.pos
    {
      ghost var b := r.Rest();
      var typ, ok := r.ReadVarint();
      if !ok { return Failed; }
      assert |r.Rest()| < |b|;
      if typ == PADDING || typ == PING { continue; }
      if typ != CRYPTO { return Failed; }
      var frame := ReadCryptoFrom(maxLen, r);
      match frame {
        case Failed => return Failed;
        case Panicked => return Panicked;
        case Done(f) => fs := fs + [f];
      }
    }
    return Done(fs);
  }

  // An insertion into sorted frames, and sorting by it; any other sort serves as well.
  function Insert(f: Frame, fs: seq<Frame>): seq<Frame> {
    if fs == [] || f.offset <= fs[0].offset then [f] + fs else [fs[0]] + Insert(f, fs[1..])
  }

  lemma {:induction false} InsertKeeps(f: Frame, fs: seq<Frame>)
    ensures multiset(Insert(f, fs)) == multiset(fs) + multiset{f}
  {
    if fs != [] && f.offset > fs[0].offset {
      InsertKeeps(f, fs[1..]);
      assert fs == [fs[0]] + fs[1..];
    }
  }

  lemma {:induction false} InsertSorted(f: Frame, fs: seq<Frame>)
    requires Sorted(fs)
    ensures Sorted(Insert(f, fs))
  {
    if fs != [] && f.offset > fs[0].offset {
      var tail := Insert(f, fs[1..]);
      InsertSorted(f, fs[1..]);
      InsertKeeps(f, fs[1..]);
      hide Insert;
      forall g | g in tail ensures fs[0].offset <= g.offset {
        assert g in multiset(tail);
        assert g == f || g in fs[1..];
      }
      SortedCons(fs[0], tail);
    } else {
      SortedCons(f, fs);
    }
  }

  lemma {:induction false} SortedCons(f: Frame, fs: seq<Frame>)
    requires Sorted(fs) && forall g :: g in fs ==> f.offset <= g.offset
    ensures Sorted([f] + fs)
  {
  }

  function SortByOffset(fs: seq<Frame>): seq<Frame> {
    if fs == [] then [] else Insert(fs[0], SortByOffset(fs[1..]))
  }

  lemma {:induction false} SortByOffsetSorts(fs: seq<Frame>)
    ensures Sorted(SortByOffset(fs)) && multiset(SortByOffset(fs)) == multiset(fs)
  {
    if fs != [] {
      SortByOffsetSorts(fs[1..]);
      InsertSorted(fs[0], SortByOffset(fs[1..]));
      InsertKeeps(fs[0], SortByOffset(fs[1..]));
      assert fs == [fs[0]] + fs[1..];
    }
  }

  lemma {:induction false} JoinedSnoc(fs: seq<Frame>, f: Frame)
    ensures Joined(fs + [f]) == Joined(fs) + f.data
  {
    if fs == [] {
      assert [] + [f] == [f] && Joined([f]) == f.data + Joined([f][1..]);
    } else {
      assert (fs + [f])[1..] == fs[1..] + [f];
      JoinedSnoc(fs[1..], f);
    }
  }

  // The end of the first i frames.
  lemma {:induction false} EndOf(fs: seq<Frame>, i: nat)
    requires Contiguous(fs) && 0 < i <= |fs|
    ensures fs[i - 1].offset + |fs[i - 1].data| == fs[0].offset + |Joined(fs[..i])|
  {
    assert fs[..i] == fs[..i - 1] + [fs[i - 1]];
    JoinedSnoc(fs[..i - 1], fs[i - 1]);
    if i > 1 {
      EndOf(fs, i - 1);
    }
  }

  // sort.Slice.
  method SortInPlace(frames: array<Frame>)
    modifies frames
    ensures Sorted(frames[..]) && multiset(frames[..]) == multiset(old(frames[..]))
  {
    var sorted := SortByOffset(frames[..]);
    SortByOffsetSorts(frames[..]);
    assert |multiset(sorted)| == |multiset(frames[..])|;
    forall i | 0 <= i < frames.Length {
      frames[i] := sorted[i];
    }
    assert frames[..] == sorted;
  }

  // The loop that checks whether the frames are contiguous.
  method CheckContiguous(frames: array<Frame>) returns (ok: bool)
    requires frames.Length > 0
    ensures ok == Contiguous(frames[..])
  {
    ghost var fs := frames[..];
    for i := 1 to frames.Length
      invariant forall j :: 1 <= j < i ==> fs[j].offset == fs[j - 1].offset + |fs[j - 1].data|
    {
      if frames[i].offset != frames[i - 1].offset + |frames[i - 1].data| {
        assert fs[i].offset != fs[i - 1].offset + |fs[i - 1].data|;
        return false;
      }
    }
    return true;
  }

  method AssembleCryptoFrames(maxLen: nat, frames: array<Frame>) returns (r: Result<bytes>)
    modifies frames
    ensures Assembles(maxLen, old(frames[..]), r)
    ensures multiset(frames[..]) == multiset(old(frames[..]))
  {
    if frames.Length == 0 {
      assert Sorted(frames[..]);
      return Failed;
    }
    if frames.Length == 1 {
      assert Sorted(frames[..]);
      return Done(frames[0].data);
    }
    SortInPlace(frames);
    r := Concatenate(maxLen, frames);
  }

  // The rest of it, behind the sort.
  method Concatenate(maxLen: nat, frames: array<Frame>) returns (r: Result<bytes>)
    requires frames.Length >= 2
    ensures r == Assembled(maxLen, frames[..])
  {
    var ok := CheckContiguous(frames);
    if !ok { return Failed; }
    var last := frames[frames.Length - 1];
    if last.offset + |last.data| > maxLen { return Panicked; }
    var data := CopyFrames(frames[..]);
    return Done(data);
  }

  // What is filled in once the first i frames are copied.
  ghost function Upto(fs: seq<Frame>, i: nat): bytes
    requires |fs| > 0 && i <= |fs|
  {
    Zeros(fs[0].offset) + Joined(fs[..i])
  }

  lemma {:induction false} UptoNext(fs: seq<Frame>, i: nat)
    requires |fs| > 0 && Contiguous(fs) && i < |fs|
    ensures |Upto(fs, i)| == fs[i].offset && Upto(fs, i + 1) == Upto(fs, i) + fs[i].data
  {
    if i > 0 {
      EndOf(fs, i);
    }
    assert fs[..i + 1] == fs[..i] + [fs[i]];
    JoinedSnoc(fs[..i], fs[i]);
    Assoc(Zeros(fs[0].offset), Joined(fs[..i]), fs[i].data);
  }

  lemma {:induction false} UptoBelow(fs: seq<Frame>, i: nat)
    requires |fs| > 0 && Contiguous(fs) && i <= |fs|
    ensures |Upto(fs, i)| <= |Upto(fs, |fs|)|
    decreases |fs| - i
  {
    if i < |fs| {
      UptoNext(fs, i);
      UptoBelow(fs, i + 1);
    }
  }

  method CopyAt(data: array<byte>, offset: nat, d: bytes)
    requires offset + |d| <= data.Length
    modifies data
    ensures data[..offset + |d|] == old(data[..offset]) + d
  {
    forall k | 0 <= k < |d| {
      data[offset + k] := d[k];
    }
  }

  // The concatenation at the end of assembleCryptoFrames.
  method CopyFrames(fs: seq<Frame>) returns (r: bytes)
    requires |fs| > 0 && Contiguous(fs)
    ensures r == Zeros(fs[0].offset) + Joined(fs)
  {
    var last := fs[|fs| - 1];
    UptoNext(fs, |fs| - 1);
    var data := new byte[last.offset + |last.data|](_ => 0);
    for i := 0 to |fs|
      invariant |Upto(fs, i)| <= data.Length
      invariant data[..|Upto(fs, i)|] == Upto(fs, i)
    {
      UptoNext(fs, i);
      UptoBelow(fs, i + 1);
      CopyAt(data, fs[i].offset, fs[i].data);
    }
    assert fs[..|fs|] == fs;
    assert data[..] == data[..data.Length];
    return data[..];
  }
}
