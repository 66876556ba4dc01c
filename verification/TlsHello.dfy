/** TLS hello messages (analyzer/internal/tls.go): the parser, the grammar it accepts, and both
    directions between them. */
module TlsHello {
  import opened Bytes
  import opened Props

  const EXT_SERVER_NAME: nat := 0x0000
  const EXT_ALPN: nat := 0x0010
  const EXT_SUPPORTED_VERSIONS: nat := 0x002b
  const EXT_ECH: nat := 0xfe0d

  // ---- The parser ----

  // n 16-bit integers behind `acc`, and what is left.
  function ReadU16s(b: bytes, n: nat, acc: seq<nat>): Option<(seq<nat>, bytes)>
    decreases n
  {
    if n == 0 then Some((acc, b))
    else if |b| < 2 then None
    else ReadU16s(b[2..], n - 1, acc + [U16(b[0], b[1])])
  }

  // Length-prefixed names up to the end of the buffer.
  function ReadNames(b: bytes, acc: seq<bytes>): Option<seq<bytes>>
    decreases |b|
  {
    if b == [] then Some(acc)
    else if |b| - 1 < b[0] then None
    else ReadNames(b[1 + b[0]..], acc + [b[1..1 + b[0]]])
  }

  // 16-bit versions up to the end of the buffer.
  function ReadVersions(b: bytes, acc: seq<nat>): Option<seq<nat>>
    decreases |b|
  {
    if b == [] then Some(acc)
    else if |b| < 2 then None
    else ReadVersions(b[2..], acc + [U16(b[0], b[1])])
  }

  function ParseServerName(d: bytes): Option<bytes> {
    if |d| < 5 || d[2] != 0 || |d| < 5 + U16(d[3], d[4]) then None
    else Some(d[5..5 + U16(d[3], d[4])])
  }

  function ParseExtension(typ: nat, d: bytes, m: PropMap): Option<PropMap> {
    if typ == EXT_SERVER_NAME then
      match ParseServerName(d)
      case None => None
      case Some(name) => Some(m["sni" := Text(name)])
    else if typ == EXT_ALPN then
      if |d| < 2 then None else
      match ReadNames(d[2..], [])
      case None => None
      case Some(names) => Some(m["alpn" := TextList(names)])
    else if typ == EXT_SUPPORTED_VERSIONS then
      if |d| == 2 then Some(m["supported_versions" := U16Val(U16(d[0], d[1]))])
      else if |d| < 1 then None else
      match ReadVersions(d[1..], [])
      case None => None
      case Some(vs) => Some(m["supported_versions" := U16List(vs)])
    else if typ == EXT_ECH then Some(m["ech" := Flag(true)])
    else Some(m)
  }

  function ParseExtensions(b: bytes, m: PropMap): Option<PropMap>
    decreases |b|
  {
    if b == [] then Some(m)
    else if |b| < 4 || |b| < 4 + U16(b[2], b[3]) then None
    else
      var n := 4 + U16(b[2], b[3]);
      match ParseExtension(U16(b[0], b[1]), b[4..n], m)
      case None => None
      case Some(m') => ParseExtensions(b[n..], m')
  }

  function ParseTail(b: bytes, m: PropMap): Option<PropMap> {
    if |b| < 2 then Some(m)
    else
      var n := U16(b[0], b[1]);
      if |b| < 2 + n then None else ParseExtensions(b[2..2 + n], m)
  }

  // Version, random and session ID. A buffer too short for one of the first three fields
  // leaves it unread and goes on, as the parser does.
  function ParseFront(b: bytes): Option<(PropMap, bytes)> {
    var (version, b1) := if |b| < 2 then (0, b) else (U16(b[0], b[1]), b[2..]);
    var (random, b2) := if |b1| < 32 then (Nil, b1) else (Data(b1[..32]), b1[32..]);
    var (n, b3) := if |b2| < 1 then (0, b2) else (b2[0], b2[1..]);
    if |b3| < n then None
    else Some((map["version" := U16Val(version), "random" := random, "session" := Data(b3[..n])], b3[n..]))
  }

  function ParseCiphers(b: bytes): Option<(seq<nat>, bytes)> {
    if |b| < 2 then None
    else if U16(b[0], b[1]) % 2 != 0 then None
    else ReadU16s(b[2..], U16(b[0], b[1]) / 2, [])
  }

  function ParseClientHello(b: bytes): Option<PropMap> {
    match ParseFront(b)
    case None => None
    case Some((m, b1)) =>
      match ParseCiphers(b1)
      case None => None
      case Some((ciphers, b2)) =>
        if |b2| < 1 || |b2| - 1 < b2[0] then None
        else ParseTail(b2[1 + b2[0]..], m["ciphers" := U16List(ciphers)]["compression" := Data(b2[1..1 + b2[0]])])
  }

  function ParseServerHello(b: bytes): Option<PropMap> {
    match ParseFront(b)
    case None => None
    case Some((m, b1)) =>
      if |b1| < 3 then None
      else ParseTail(b1[3..], m["cipher" := U16Val(U16(b1[0], b1[1]))]["compression" := U8(b1[2])])
  }

  // ---- The grammar ----

  // An extension with its payload. Length fields that the parser skips are free; `rest` is
  // whatever follows the first entry of a server name list.
  datatype Extension =
    | ServerName(listLen: u16, name: bytes, rest: bytes)
    | Alpn(listLen: u16, names: seq<bytes>)
    | VersionList(len: byte, versions: seq<u16>)
    | OneVersion(version: u16)
    | Ech(payload: bytes)
    | Other(typ: u16, payload: bytes)
  {
    function Type(): u16 {
      match this
      case ServerName(_, _, _) => 0
      case Alpn(_, _) => 16
      case VersionList(_, _) => 43
      case OneVersion(_) => 43
      case Ech(_) => 0xfe0d
      case Other(t, _) => t
    }

    predicate Wf() {
      && (ServerName? ==> |name| < 0x1_0000)
      && (Alpn? ==> forall s :: s in names ==> |s| < 0x100)
      && (Other? ==> typ !in {0, 16, 43, 0xfe0d})
    }

    function Body(): bytes
      requires Wf()
    {
      match this
      case ServerName(n, name, rest) => Put16(n) + [0] + Put16(|name|) + name + rest
      case Alpn(n, names) => Put16(n) + PutNames(names)
      case VersionList(n, vs) => [n] + PutU16s(vs)
      case OneVersion(v) => Put16(v)
      case Ech(p) => p
      case Other(_, p) => p
    }

    // The property this extension sets, if any.
    function Key(): Option<string> {
      match this
      case ServerName(_, _, _) => Some("sni")
      case Alpn(_, _) => Some("alpn")
      case VersionList(_, _) => Some("supported_versions")
      case OneVersion(_) => Some("supported_versions")
      case Ech(_) => Some("ech")
      case Other(_, _) => None
    }

    function Property(): Value {
      match this
      case ServerName(_, name, _) => Text(name)
      case Alpn(_, names) => TextList(names)
      case VersionList(_, vs) => U16List(vs)
      case OneVersion(v) => U16Val(v)
      case Ech(_) => Flag(true)
      case Other(_, _) => Nil
    }

    function Apply(m: PropMap): PropMap {
      if Key().Some? then m[Key().value := Property()] else m
    }
  }

  function PutU16s(ns: seq<u16>): (b: bytes)
    ensures |b| == 2 * |ns|
  {
    if ns == [] then [] else Put16(ns[0]) + PutU16s(ns[1..])
  }

  function PutNames(names: seq<bytes>): bytes
    requires forall s :: s in names ==> |s| < 0x100
  {
    if names == [] then [] else [|names[0]|] + names[0] + PutNames(names[1..])
  }

  predicate ExtensionsWf(es: seq<Extension>) {
    forall e :: e in es ==> e.Wf() && |e.Body()| < 0x1_0000
  }

  function PutExtensions(es: seq<Extension>): bytes
    requires ExtensionsWf(es)
  {
    if es == [] then [] else
    Put16(es[0].Type()) + Put16(|es[0].Body()|) + es[0].Body() + PutExtensions(es[1..])
  }

  function ApplyAll(es: seq<Extension>, m: PropMap): PropMap {
    if es == [] then m else ApplyAll(es[1..], es[0].Apply(m))
  }

  // What follows the compression methods: fewer than two bytes count as no extensions; bytes
  // behind the extension block are ignored.
  datatype Tail = NoExtensions(junk: bytes) | Extensions(es: seq<Extension>, after: bytes)
  {
    predicate Wf() {
      match this
      case NoExtensions(junk) => |junk| < 2
      case Extensions(es, _) => ExtensionsWf(es) && |PutExtensions(es)| < 0x1_0000
    }

    function Encode(): bytes
      requires Wf()
    {
      match this
      case NoExtensions(junk) => junk
      case Extensions(es, after) => Put16(|PutExtensions(es)|) + PutExtensions(es) + after
    }

    function Apply(m: PropMap): PropMap {
      if Extensions? then ApplyAll(es, m) else m
    }
  }

  datatype Front = Front(version: u16, random: bytes, session: bytes)
  {
    predicate Wf() { |random| == 32 && |session| < 0x100 }

    function Encode(): bytes
      requires Wf()
    {
      Put16(version) + random + [|session|] + session
    }

    function Fields(): PropMap {
      map["version" := U16Val(version), "random" := Data(random), "session" := Data(session)]
    }
  }

  datatype ClientHello = ClientHello(front: Front, ciphers: seq<u16>, compression: bytes, tail: Tail)
  {
    predicate Wf() {
      front.Wf() && |ciphers| < 0x8000 && |compression| < 0x100 && tail.Wf()
    }

    function Encode(): bytes
      requires Wf()
    {
      front.Encode() + (Put16(2 * |ciphers|) + PutU16s(ciphers) + ([|compression|] + compression + tail.Encode()))
    }

    function Fields(): PropMap {
      tail.Apply(front.Fields()["ciphers" := U16List(ciphers)]["compression" := Data(compression)])
    }
  }

  datatype ServerHello = ServerHello(front: Front, cipher: u16, compression: byte, tail: Tail)
  {
    predicate Wf() { front.Wf() && tail.Wf() }

    function Encode(): bytes
      requires Wf()
    {
      front.Encode() + (Put16(cipher) + [compression] + tail.Encode())
    }

    function Fields(): PropMap {
      tail.Apply(front.Fields()["cipher" := U16Val(cipher)]["compression" := U8(compression)])
    }
  }

  // ---- Every message of the grammar is read back exactly ----

  lemma {:induction false} ReadPutU16s(ns: seq<u16>, x: bytes, acc: seq<nat>)
    ensures ReadU16s(PutU16s(ns) + x, |ns|, acc) == Some((acc + ns, x))
  {
    var b := PutU16s(ns) + x;
    if ns == [] {
      assert b == x;
      assert acc + ns == acc;
    } else {
      assert b[2..] == PutU16s(ns[1..]) + x;
      ReadPutU16s(ns[1..], x, acc + [ns[0]]);
      assert acc + [ns[0]] + ns[1..] == acc + ns;
    }
  }

  lemma {:induction false} ReadPutNames(names: seq<bytes>, acc: seq<bytes>)
    requires forall s :: s in names ==> |s| < 0x100
    ensures ReadNames(PutNames(names), acc) == Some(acc + names)
  {
    var b := PutNames(names);
    if names == [] {
      assert acc + names == acc;
    } else {
      var n := |names[0]|;
      assert b[1..1 + n] == names[0];
      assert b[1 + n..] == PutNames(names[1..]);
      ReadPutNames(names[1..], acc + [names[0]]);
      assert acc + [names[0]] + names[1..] == acc + names;
    }
  }

  lemma {:induction false} ReadPutVersions(ns: seq<u16>, acc: seq<nat>)
    ensures ReadVersions(PutU16s(ns), acc) == Some(acc + ns)
  {
    var b := PutU16s(ns);
    if ns == [] {
      assert acc + ns == acc;
    } else {
      assert b[2..] == PutU16s(ns[1..]);
      ReadPutVersions(ns[1..], acc + [ns[0]]);
      assert acc + [ns[0]] + ns[1..] == acc + ns;
    }
  }

  // The version list of a client is never two bytes long, so it is not taken for the
  // single version a server selects.
  lemma {:induction false} ParseBody(e: Extension, m: PropMap)
    requires e.Wf()
    ensures ParseExtension(e.Type(), e.Body(), m) == Some(e.Apply(m))
  {
    var d := e.Body();
    match e
    case ServerName(_, name, rest) =>
      assert d[5..5 + |name|] == name;
    case Alpn(_, names) =>
      assert d[2..] == PutNames(names);
      ReadPutNames(names, []);
      assert [] + names == names;
    case VersionList(_, vs) =>
      assert d[1..] == PutU16s(vs);
      ReadPutVersions(vs, []);
      assert [] + vs == vs;
    case OneVersion(_) =>
    case Ech(_) =>
    case Other(_, _) =>
  }

  lemma {:induction false} ParsePutExtensions(es: seq<Extension>, m: PropMap)
    requires ExtensionsWf(es)
    ensures ParseExtensions(PutExtensions(es), m) == Some(ApplyAll(es, m))
  {
    if es != [] {
      var b, d := PutExtensions(es), es[0].Body();
      var n := 4 + |d|;
      assert b[4..n] == d;
      assert b[n..] == PutExtensions(es[1..]);
      ParseBody(es[0], m);
      ParsePutExtensions(es[1..], es[0].Apply(m));
    }
  }

  // An extension block with something behind it.
  lemma {:induction false} ParseTailAt(x: bytes, after: bytes, m: PropMap)
    requires |x| < 0x1_0000
    ensures ParseTail(Put16(|x|) + x + after, m) == ParseExtensions(x, m)
  {
    hide ParseExtensions;
    ReadPut16(|x|, x + after);
    Assoc(Put16(|x|), x, after);
    var b := Put16(|x|) + (x + after);
    assert b[2..2 + |x|] == (x + after)[..|x|] == x;
  }

  lemma {:induction false} ParseFrontEncoded(f: Front, x: bytes)
    requires f.Wf()
    ensures ParseFront(f.Encode() + x) == Some((f.Fields(), x))
  {
    var b := f.Encode() + x;
    var b1 := b[2..];
    assert b1[..32] == f.random;
    var b2 := b1[32..];
    assert b2[0] == |f.session|;
    var b3 := b2[1..];
    assert b3 == f.session + x;
  }

  lemma {:induction false} ParseCiphersAt(b: bytes, ciphers: seq<u16>, x: bytes)
    requires |b| >= 2 && U16(b[0], b[1]) == 2 * |ciphers| && b[2..] == PutU16s(ciphers) + x
    ensures ParseCiphers(b) == Some((ciphers, x))
  {
    ReadPutU16s(ciphers, x, []);
    assert [] + ciphers == ciphers;
    Halved(|ciphers|);
  }

  lemma {:induction false} Halved(n: nat)
    ensures 2 * n % 2 == 0 && 2 * n / 2 == n
  {
  }

  // CLIENT HELLO ROUND TRIP.
  lemma {:induction false} ClientHelloRoundTrip(h: ClientHello)
    requires h.Wf()
    ensures ParseClientHello(h.Encode()) == Some(h.Fields())
  {
    hide ParseFront, ParseCiphers, ParseExtensions, PutExtensions, PutU16s, Front.Encode, Put16;
    var m := h.front.Fields()["ciphers" := U16List(h.ciphers)]["compression" := Data(h.compression)];
    var last := [|h.compression|] + h.compression + h.tail.Encode();
    var mid := Put16(2 * |h.ciphers|) + (PutU16s(h.ciphers) + last);
    Assoc(Put16(2 * |h.ciphers|), PutU16s(h.ciphers), last);
    assert h.Encode() == h.front.Encode() + mid;
    ParseFrontEncoded(h.front, mid);
    ReadPut16(2 * |h.ciphers|, PutU16s(h.ciphers) + last);
    ParseCiphersAt(mid, h.ciphers, last);
    ReadCounted(h.compression, h.tail.Encode());
    if h.tail.Extensions? {
      ParseTailAt(PutExtensions(h.tail.es), h.tail.after, m);
      ParsePutExtensions(h.tail.es, m);
    }
  }

  lemma {:induction false} ServerHelloRoundTrip(h: ServerHello)
    requires h.Wf()
    ensures ParseServerHello(h.Encode()) == Some(h.Fields())
  {
    hide ParseFront, ParseExtensions, PutExtensions, Front.Encode;
    var m := h.front.Fields()["cipher" := U16Val(h.cipher)]["compression" := U8(h.compression)];
    var last := Put16(h.cipher) + [h.compression] + h.tail.Encode();
    ParseFrontEncoded(h.front, last);
    assert last[3..] == h.tail.Encode();
    if h.tail.Extensions? {
      ParseTailAt(PutExtensions(h.tail.es), h.tail.after, m);
      ParsePutExtensions(h.tail.es, m);
    }
  }

  // ---- Nothing but the grammar is accepted ----

  lemma {:induction false} FirstU16(b: bytes)
    requires |b| >= 2
    ensures b == Put16(U16(b[0], b[1])) + b[2..]
  {
    Put16Unique(b[0], b[1]);
    assert b == [b[0], b[1]] + b[2..];
  }

  // One more number in front of those that were put behind acc.
  lemma {:induction false} OneMoreU16(acc: seq<nat>, v: u16, tail: seq<u16>, b: bytes, rest: bytes)
    requires b == PutU16s(tail) + rest
    ensures var ns := [v] + tail; acc + [v] + tail == acc + ns && Put16(v) + b == PutU16s(ns) + rest
  {
    assert ([v] + tail)[1..] == tail;
    Assoc(Put16(v), PutU16s(tail), rest);
  }

  lemma {:induction false} SoundU16s(b: bytes, n: nat, acc: seq<nat>) returns (ns: seq<u16>)
    requires ReadU16s(b, n, acc).Some?
    ensures |ns| == n
    ensures var (vs, rest) := ReadU16s(b, n, acc).value;
            vs == acc + ns && b == PutU16s(ns) + rest
    decreases n
  {
    if n == 0 {
      ns := [];
    } else {
      var v := U16(b[0], b[1]);
      var tail := SoundU16s(b[2..], n - 1, acc + [v]);
      ns := [v] + tail;
      FirstU16(b);
      OneMoreU16(acc, v, tail, b[2..], ReadU16s(b, n, acc).value.1);
    }
  }

  lemma {:induction false} SoundVersions(b: bytes, acc: seq<nat>) returns (ns: seq<u16>)
    requires ReadVersions(b, acc).Some?
    ensures ReadVersions(b, acc).value == acc + ns && b == PutU16s(ns)
    decreases |b|
  {
    if b == [] {
      ns := [];
    } else {
      var v := U16(b[0], b[1]);
      var tail := SoundVersions(b[2..], acc + [v]);
      ns := [v] + tail;
      assert ns[1..] == tail;
      Put16Unique(b[0], b[1]);
      assert b == [b[0], b[1]] + b[2..];
      assert acc + [v] + tail == acc + ns;
    }
  }

  lemma {:induction false} NamesCons(name: bytes, names: seq<bytes>)
    requires |name| < 0x100 && forall s :: s in names ==> |s| < 0x100
    ensures forall s :: s in [name] + names ==> |s| < 0x100
    ensures PutNames([name] + names) == [|name|] + name + PutNames(names)
  {
    assert ([name] + names)[1..] == names;
  }

  lemma {:induction false} SoundNames(b: bytes, acc: seq<bytes>) returns (names: seq<bytes>)
    requires ReadNames(b, acc).Some?
    ensures forall s :: s in names ==> |s| < 0x100
    ensures ReadNames(b, acc).value == acc + names && b == PutNames(names)
    decreases |b|
  {
    if b == [] {
      names := [];
    } else {
      var n := 1 + b[0] as int;
      var tail := SoundNames(b[n..], acc + [b[1..n]]);
      names := [b[1..n]] + tail;
      SplitCounted(b);
      NamesCons(b[1..n], tail);
      hide ReadNames, PutNames;
      Assoc(acc, [b[1..n]], tail);
    }
  }

  lemma {:induction false} SoundServerName(d: bytes) returns (e: Extension)
    requires ParseServerName(d).Some?
    ensures e.ServerName? && e.Wf() && e.Body() == d && e.name == ParseServerName(d).value
  {
    var n := 5 + U16(d[3], d[4]);
    e := ServerName(U16(d[0], d[1]), d[5..n], d[n..]);
    Put16Unique(d[0], d[1]);
    Put16Unique(d[3], d[4]);
    assert d == [d[0], d[1]] + [d[2]] + [d[3], d[4]] + d[5..n] + d[n..];
  }

  lemma {:induction false} SoundAlpn(d: bytes) returns (e: Extension)
    requires |d| >= 2 && ReadNames(d[2..], []).Some?
    ensures e.Alpn? && e.Wf() && e.Body() == d && e.names == ReadNames(d[2..], []).value
  {
    var names := SoundNames(d[2..], []);
    e := Alpn(U16(d[0], d[1]), names);
    assert [] + names == names;
    Put16Unique(d[0], d[1]);
    assert d == [d[0], d[1]] + d[2..];
  }

  lemma {:induction false} SoundVersionList(d: bytes) returns (e: Extension)
    requires |d| >= 1 && ReadVersions(d[1..], []).Some?
    ensures e.VersionList? && e.Body() == d && e.versions == ReadVersions(d[1..], []).value
  {
    var vs := SoundVersions(d[1..], []);
    e := VersionList(d[0], vs);
    assert [] + vs == vs;
    assert d == [d[0]] + d[1..];
  }

  lemma {:induction false} SoundBody(typ: u16, d: bytes, m: PropMap) returns (e: Extension)
    requires ParseExtension(typ, d, m).Some?
    ensures e.Wf() && e.Type() == typ && e.Body() == d
    ensures ParseExtension(typ, d, m).value == e.Apply(m)
  {
    if typ == EXT_SERVER_NAME {
      e := SoundServerName(d);
    } else if typ == EXT_ALPN {
      e := SoundAlpn(d);
    } else if typ == EXT_SUPPORTED_VERSIONS {
      if |d| == 2 {
        e := OneVersion(U16(d[0], d[1]));
        Put16Unique(d[0], d[1]);
        assert d == [d[0], d[1]];
      } else {
        e := SoundVersionList(d);
      }
    } else if typ == EXT_ECH {
      e := Ech(d);
    } else {
      e := Other(typ, d);
    }
  }

  lemma {:induction false} SoundHeader(b: bytes, n: nat)
    requires 4 <= n <= |b| && n == 4 + U16(b[2], b[3])
    ensures b == Put16(U16(b[0], b[1])) + Put16(|b[4..n]|) + b[4..n] + b[n..]
  {
    Put16Unique(b[0], b[1]);
    Put16Unique(b[2], b[3]);
    assert b == [b[0], b[1]] + [b[2], b[3]] + b[4..n] + b[n..];
  }

  lemma {:induction false} SoundExtensions(b: bytes, m: PropMap) returns (es: seq<Extension>)
    requires ParseExtensions(b, m).Some?
    ensures ExtensionsWf(es) && PutExtensions(es) == b && ApplyAll(es, m) == ParseExtensions(b, m).value
    decreases |b|
  {
    if b == [] {
      es := [];
    } else {
      var n := 4 + U16(b[2], b[3]);
      var e := SoundBody(U16(b[0], b[1]), b[4..n], m);
      var tail := SoundExtensions(b[n..], e.Apply(m));
      es := [e] + tail;
      SoundHeader(b, n);
      assert es[1..] == tail && es[0] == e;
    }
  }

  lemma {:induction false} TailParts(b: bytes, n: nat)
    requires |b| >= 2 && n == U16(b[0], b[1]) && 2 + n <= |b|
    ensures b == Put16(n) + b[2..2 + n] + b[2 + n..]
  {
    FirstU16(b);
    hide U16, Put16;
    assert b[2..] == b[2..2 + n] + b[2 + n..];
    Assoc(Put16(n), b[2..2 + n], b[2 + n..]);
  }

  lemma {:induction false} SoundTail(b: bytes, m: PropMap) returns (t: Tail)
    requires ParseTail(b, m).Some?
    ensures t.Wf() && t.Encode() == b && t.Apply(m) == ParseTail(b, m).value
  {
    if |b| < 2 {
      t := NoExtensions(b);
    } else {
      var n := U16(b[0], b[1]);
      TailParts(b, n);
      hide ParseExtensions, PutExtensions, ApplyAll, ExtensionsWf, U16, Put16;
      var es := SoundExtensions(b[2..2 + n], m);
      t := Extensions(es, b[2 + n..]);
    }
  }

  lemma {:induction false} SoundFront(b: bytes) returns (f: Front)
    requires |b| >= 35 && ParseFront(b).Some?
    ensures f.Wf() && f.Fields() == ParseFront(b).value.0 && f.Encode() + ParseFront(b).value.1 == b
  {
    var n := 35 + b[34] as int;
    var b2 := b[2..][32..];
    assert b2 == b[34..];
    f := Front(U16(b[0], b[1]), b[2..34], b[35..n]);
    assert b[2..][..32] == b[2..34];
    assert b2[1..][..b[34]] == b[35..n] && b2[1..][b[34]..] == b[n..];
    Put16Unique(b[0], b[1]);
    assert b == [b[0], b[1]] + b[2..34] + [b[34]] + b[35..n] + b[n..];
  }

  lemma {:induction false} SoundCiphers(b: bytes) returns (ciphers: seq<u16>)
    requires ParseCiphers(b).Some?
    ensures |ciphers| < 0x8000 && ParseCiphers(b).value.0 == ciphers
    ensures b == Put16(2 * |ciphers|) + PutU16s(ciphers) + ParseCiphers(b).value.1
  {
    var n := U16(b[0], b[1]);
    ciphers := SoundU16s(b[2..], n / 2, []);
    assert [] + ciphers == ciphers;
    Put16Unique(b[0], b[1]);
    assert b == [b[0], b[1]] + b[2..];
  }

  lemma {:induction false} ClientHelloSound(b: bytes) returns (h: ClientHello)
    requires |b| >= 34 && ParseClientHello(b).Some?
    ensures h.Wf() && h.Encode() == b && h.Fields() == ParseClientHello(b).value
  {
    var (m, b1) := ParseFront(b).value;
    var front := SoundFront(b);
    var ciphers := SoundCiphers(b1);
    var (_, b2) := ParseCiphers(b1).value;
    SplitCounted(b2);
    var n := b2[0] as nat + 1;
    var tail := SoundTail(b2[n..], m["ciphers" := U16List(ciphers)]["compression" := Data(b2[1..n])]);
    h := ClientHello(front, ciphers, b2[1..n], tail);
    assert h.Encode() == front.Encode() + (Put16(2 * |ciphers|) + PutU16s(ciphers) + b2);
  }

  // EXACT ACCEPTANCE. A message of at least 34 bytes (the stream machine hands over at least 41)
  // is accepted if and only if it is in the grammar, and then yields the fields it encodes.
  lemma {:induction false} ClientHelloAccepted(b: bytes)
    requires |b| >= 34
    ensures ParseClientHello(b).Some? <==> exists h: ClientHello :: h.Wf() && h.Encode() == b
    ensures forall h: ClientHello :: h.Wf() && h.Encode() == b ==> ParseClientHello(b) == Some(h.Fields())
  {
    forall h: ClientHello | h.Wf() && h.Encode() == b ensures ParseClientHello(b) == Some(h.Fields()) {
      ClientHelloRoundTrip(h);
    }
    if ParseClientHello(b).Some? {
      var h := ClientHelloSound(b);
    }
  }

  lemma {:induction false} ServerHelloSound(b: bytes) returns (h: ServerHello)
    requires |b| >= 34 && ParseServerHello(b).Some?
    ensures h.Wf() && h.Encode() == b && h.Fields() == ParseServerHello(b).value
  {
    var (m, b1) := ParseFront(b).value;
    var front := SoundFront(b);
    var cipher := U16(b1[0], b1[1]);
    var tail := SoundTail(b1[3..], m["cipher" := U16Val(cipher)]["compression" := U8(b1[2])]);
    h := ServerHello(front, cipher, b1[2], tail);
    ThreeBytes(b1);
  }

  lemma {:induction false} ThreeBytes(b: bytes)
    requires |b| >= 3
    ensures b == Put16(U16(b[0], b[1])) + [b[2]] + b[3..]
  {
    Put16Unique(b[0], b[1]);
    assert b == [b[0], b[1]] + [b[2]] + b[3..];
  }

  lemma {:induction false} ServerHelloAccepted(b: bytes)
    requires |b| >= 34
    ensures ParseServerHello(b).Some? <==> exists h: ServerHello :: h.Wf() && h.Encode() == b
    ensures forall h: ServerHello :: h.Wf() && h.Encode() == b ==> ParseServerHello(b) == Some(h.Fields())
  {
    forall h: ServerHello | h.Wf() && h.Encode() == b ensures ParseServerHello(b) == Some(h.Fields()) {
      ServerHelloRoundTrip(h);
    }
    if ParseServerHello(b).Some? {
      var h := ServerHelloSound(b);
    }
  }

  // ---- The extracted extension properties ----

  // No extension behind position i sets the same property.
  predicate LastWith(es: seq<Extension>, i: nat)
    requires i < |es|
  {
    forall j :: i < j < |es| ==> es[j].Key() != es[i].Key()
  }

  lemma {:induction false} ApplyAllKeeps(es: seq<Extension>, m: PropMap, key: string)
    requires forall e :: e in es ==> e.Key() != Some(key)
    ensures key in ApplyAll(es, m) <==> key in m
    ensures key in m ==> ApplyAll(es, m)[key] == m[key]
  {
    if es != [] {
      assert es[0] in es;
      ApplyAllKeeps(es[1..], es[0].Apply(m), key);
    }
  }

  // Each property is the one of the last extension that carries it; with distinct extension
  // types that is the only one.
  lemma {:induction false} ExtensionProperty(es: seq<Extension>, m: PropMap, i: nat)
    requires i < |es| && es[i].Key().Some? && LastWith(es, i)
    ensures es[i].Key().value in ApplyAll(es, m)
    ensures ApplyAll(es, m)[es[i].Key().value] == es[i].Property()
  {
    var key := es[i].Key().value;
    if i == 0 {
      forall e | e in es[1..] ensures e.Key() != Some(key) {
        var j :| 0 <= j < |es[1..]| && es[1..][j] == e;
        assert es[j + 1] == e;
      }
      ApplyAllKeeps(es[1..], es[0].Apply(m), key);
    } else {
      assert forall j :: i - 1 < j < |es[1..]| ==> es[1..][j] == es[j + 1];
      ExtensionProperty(es[1..], es[0].Apply(m), i - 1);
    }
  }

  // ---- Buffers shorter than the fixed fields ----

  lemma {:induction false} ParseExtensionsKeeps(b: bytes, m: PropMap, key: string)
    requires ParseExtensions(b, m).Some? && key in m
    requires key !in {"sni", "alpn", "supported_versions", "ech"}
    ensures key in ParseExtensions(b, m).value && ParseExtensions(b, m).value[key] == m[key]
    decreases |b|
  {
    if b != [] {
      var n := 4 + U16(b[2], b[3]);
      ParseExtensionsKeeps(b[n..], ParseExtension(U16(b[0], b[1]), b[4..n], m).value, key);
    }
  }

  // The parser does not check the lengths of its first three fields. An accepted message has a
  // random of 32 bytes if and only if the buffer held the 34 bytes up to its end.
  lemma {:induction false} RandomPresent(b: bytes)
    requires ParseClientHello(b).Some?
    ensures "random" in ParseClientHello(b).value
    ensures ParseClientHello(b).value["random"] == (if |b| >= 34 then Data(b[2..34]) else Nil)
  {
    var (m, b1) := ParseFront(b).value;
    var (ciphers, b2) := ParseCiphers(b1).value;
    var m' := m["ciphers" := U16List(ciphers)]["compression" := Data(b2[1..1 + b2[0]])];
    var b3 := b2[1 + b2[0]..];
    hide ParseExtensions, ParseCiphers;
    if |b3| >= 2 {
      ParseExtensionsKeeps(b3[2..2 + U16(b3[0], b3[1])], m', "random");
    }
    if |b| >= 34 {
      assert b[2..][..32] == b[2..34];
    }
  }

  // Nine bytes are enough to be taken for a ClientHello.
  lemma {:induction false} ShortHelloAccepted()
    ensures ParseClientHello([3, 3, 0, 0, 2, 0x13, 1, 1, 0]).Some?
  {
    var b: bytes := [3, 3, 0, 0, 2, 0x13, 1, 1, 0];
    var (m, b1) := ParseFront(b).value;
    assert b1 == [0, 2, 0x13, 1, 1, 0];
    assert b1[2..] == [0x13, 1, 1, 0];
    var none: seq<nat> := [];
    assert none + [U16(0x13, 1)] == [0x1301];
    assert ReadU16s(b1[2..], 1, none) == ReadU16s(b1[2..][2..], 0, [0x1301]);
    assert b1[2..][2..] == [1, 0];
  }
}
