/** The consuming form of the TLS hello parser, proved against the functions of TlsHello. */
module TlsParser {
  import opened Bytes
  import opened Props
  import opened ByteBuffers
  import opened TlsHello

  method ReadFront(buf: ByteBuffer) returns (m: PropMap, ok: bool)
    modifies buf
    ensures ok <==> ParseFront(old(buf.Buf)).Some?
    ensures ok ==> ParseFront(old(buf.Buf)) == Some((m, buf.Buf))
  {
    m := map[];
    var version, _ := buf.GetUint16(true);
    m := m["version" := U16Val(version)];
    var random, full := buf.Get(32, true);
    m := m["random" := if full then Data(random) else Nil];
    var sessionIDLen, _ := buf.GetByte(true);
    var session: bytes;
    session, ok := buf.Get(sessionIDLen, true);
    m := m["session" := Data(session)];
  }

  // The cases of ParseTLSExtension.
  method ReadServerName(buf: ByteBuffer) returns (sni: bytes, ok: bool)
    modifies buf
    ensures ok <==> ParseServerName(old(buf.Buf)).Some?
    ensures ok ==> ParseServerName(old(buf.Buf)) == Some(sni)
  {
    ghost var d := buf.Buf;
    sni := [];
    ok := buf.Skip(2);
    if !ok { return; }
    var sniType: byte;
    sniType, ok := buf.GetByte(true);
    if !ok || sniType != 0 { return sni, false; }
    var sniLen: nat;
    sniLen, ok := buf.GetUint16(true);
    if !ok { return; }
    assert buf.Buf == d[5..];
    sni, ok := buf.Get(sniLen, true);
    if !ok { return; }
    assert sni == d[5..5 + sniLen];
  }

  method ReadProtocols(buf: ByteBuffer) returns (alpnList: seq<bytes>, ok: bool)
    modifies buf
    ensures ok <==> ReadNames(old(buf.Buf), []).Some?
    ensures ok ==> ReadNames(old(buf.Buf), []) == Some(alpnList)
  {
    alpnList, ok := [], true;
    while |buf.Buf| > 0
      invariant ok && ReadNames(buf.Buf, alpnList) == ReadNames(old(buf.Buf), [])
      decreases |buf.Buf|
    {
      ghost var c := buf.Buf;
      var alpnLen: byte;
      alpnLen, ok := buf.GetByte(true);
      if !ok { return; }
      var alpn: bytes;
      alpn, ok := buf.Get(alpnLen, true);
      if !ok { return; }
      assert alpn == c[1..1 + alpnLen] && buf.Buf == c[1 + alpnLen..];
      alpnList := alpnList + [alpn];
    }
  }

  method ReadVersionList(buf: ByteBuffer) returns (versions: seq<nat>, ok: bool)
    modifies buf
    ensures ok <==> ReadVersions(old(buf.Buf), []).Some?
    ensures ok ==> ReadVersions(old(buf.Buf), []) == Some(versions)
  {
    versions, ok := [], true;
    while |buf.Buf| > 0
      invariant ok && ReadVersions(buf.Buf, versions) == ReadVersions(old(buf.Buf), [])
      decreases |buf.Buf|
    {
      var ver: nat;
      ver, ok := buf.GetUint16(true);
      if !ok { return; }
      versions := versions + [ver];
    }
  }

  method ParseTLSExtension(extType: nat, extDataBuf: ByteBuffer, m: PropMap) returns (r: PropMap, ok: bool)
    modifies extDataBuf
    ensures ok <==> ParseExtension(extType, old(extDataBuf.Buf), m).Some?
    ensures ok ==> ParseExtension(extType, old(extDataBuf.Buf), m) == Some(r)
  {
    r := m;
    if extType == EXT_SERVER_NAME {
      var sni: bytes;
      sni, ok := ReadServerName(extDataBuf);
      if !ok { return; }
      r := m["sni" := Text(sni)];
    } else if extType == EXT_ALPN {
      ok := extDataBuf.Skip(2);
      if !ok { return; }
      var alpnList: seq<bytes>;
      alpnList, ok := ReadProtocols(extDataBuf);
      if !ok { return; }
      r := m["alpn" := TextList(alpnList)];
    } else if extType == EXT_SUPPORTED_VERSIONS {
      if |extDataBuf.Buf| == 2 {
        var version, _ := extDataBuf.GetUint16(true);
        r := m["supported_versions" := U16Val(version)];
      } else {
        ok := extDataBuf.Skip(1);
        if !ok { return; }
        var versions: seq<nat>;
        versions, ok := ReadVersionList(extDataBuf);
        if !ok { return; }
        r := m["supported_versions" := U16List(versions)];
      }
      ok := true;
    } else {
      if extType == EXT_ECH {
        r := m["ech" := Flag(true)];
      }
      ok := true;
    }
  }

  // The extension block shared by both hellos.
  method ParseTLSTail(buf: ByteBuffer, m0: PropMap) returns (r: Option<PropMap>)
    modifies buf
    ensures r == ParseTail(old(buf.Buf), m0)
  {
    hide ParseExtension;
    ghost var b := buf.Buf;
    var m := m0;
    var extsLen, ok := buf.GetUint16(true);
    if !ok { return Some(m); }
    var extBuf: ByteBuffer;
    extBuf, ok := buf.GetSubBuffer(extsLen, true);
    if !ok { return None; }
    assert extBuf.Buf == b[2..2 + extsLen];
    while |extBuf.Buf| > 0
      invariant ParseExtensions(extBuf.Buf, m) == ParseExtensions(b[2..2 + extsLen], m0)
      decreases |extBuf.Buf|
    {
      ghost var c := extBuf.Buf;
      var extType: nat, extLen: nat, extDataBuf: ByteBuffer;
      extType, ok := extBuf.GetUint16(true);
      if !ok { return None; }
      extLen, ok := extBuf.GetUint16(true);
      if !ok { return None; }
      extDataBuf, ok := extBuf.GetSubBuffer(extLen, true);
      if !ok { return None; }
      assert extDataBuf.Buf == c[4..4 + extLen] && extBuf.Buf == c[4 + extLen..];
      m, ok := ParseTLSExtension(extType, extDataBuf, m);
      if !ok { return None; }
    }
    return Some(m);
  }

  method ParseTLSClientHelloMsgData(chBuf: ByteBuffer) returns (r: Option<PropMap>)
    modifies chBuf
    ensures r == ParseClientHello(old(chBuf.Buf))
  {
    hide ParseFront, ParseTail;
    var m, ok := ReadFront(chBuf);
    if !ok { return None; }
    ghost var b := chBuf.Buf;
    var cipherSuitesLen: nat;
    cipherSuitesLen, ok := chBuf.GetUint16(true);
    if !ok { return None; }
    if cipherSuitesLen % 2 != 0 { return None; }
    var ciphers: seq<nat> := [];
    for i := 0 to cipherSuitesLen / 2
      invariant ReadU16s(chBuf.Buf, cipherSuitesLen / 2 - i, ciphers) == ReadU16s(b[2..], cipherSuitesLen / 2, [])
    {
      var cipher: nat;
      cipher, ok := chBuf.GetUint16(true);
      if !ok { return None; }
      ciphers := ciphers + [cipher];
    }
    m := m["ciphers" := U16List(ciphers)];
    var compressionMethodsLen: byte, compression: bytes;
    ghost var c := chBuf.Buf;
    compressionMethodsLen, ok := chBuf.GetByte(true);
    if !ok { return None; }
    compression, ok := chBuf.Get(compressionMethodsLen, true);
    if !ok { return None; }
    assert compression == c[1..1 + compressionMethodsLen] && chBuf.Buf == c[1 + compressionMethodsLen..];
    m := m["compression" := Data(compression)];
    r := ParseTLSTail(chBuf, m);
  }

  method ParseTLSServerHelloMsgData(shBuf: ByteBuffer) returns (r: Option<PropMap>)
    modifies shBuf
    ensures r == ParseServerHello(old(shBuf.Buf))
  {
    var m, ok := ReadFront(shBuf);
    if !ok { return None; }
    var cipherSuite: nat, compressionMethod: byte;
    cipherSuite, ok := shBuf.GetUint16(true);
    if !ok { return None; }
    m := m["cipher" := U16Val(cipherSuite)];
    compressionMethod, ok := shBuf.GetByte(true);
    if !ok { return None; }
    m := m["compression" := U8(compressionMethod)];
    r := ParseTLSTail(shBuf, m);
  }
}
