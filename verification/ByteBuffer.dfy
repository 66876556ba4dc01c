/** The consuming byte buffer (analyzer/utils/bytebuffer.go). */
module ByteBuffers {
  import opened Bytes

  class ByteBuffer {
    var Buf: bytes

    constructor (data: bytes)
      ensures Buf == data
    {
      Buf := data;
    }

    method Append(data: bytes)
      modifies this
      ensures Buf == old(Buf) + data
    {
      Buf := Buf + data;
    }

    // Peeks or consumes `length` bytes; a short buffer is left alone.
    method Get(length: nat, consume: bool) returns (data: bytes, ok: bool)
      modifies this
      ensures ok <==> length <= |old(Buf)|
      ensures ok ==> data == old(Buf)[..length] && Buf == if consume then old(Buf)[length..] else old(Buf)
      ensures !ok ==> data == [] && Buf == old(Buf)
    {
      if |Buf| < length {
        return [], false;
      }
      data := Buf[..length];
      if consume {
        Buf := Buf[length..];
      }
      ok := true;
    }

    method GetByte(consume: bool) returns (v: byte, ok: bool)
      modifies this
      ensures ok <==> 1 <= |old(Buf)|
      ensures ok ==> v == old(Buf)[0] && Buf == if consume then old(Buf)[1..] else old(Buf)
      ensures !ok ==> v == 0 && Buf == old(Buf)
    {
      var data: bytes;
      data, ok := Get(1, consume);
      v := if ok then data[0] else 0;
    }

    method GetUint16(consume: bool) returns (v: nat, ok: bool)
      modifies this
      ensures ok <==> 2 <= |old(Buf)|
      ensures ok ==> v == U16(old(Buf)[0], old(Buf)[1]) && Buf == if consume then old(Buf)[2..] else old(Buf)
      ensures !ok ==> v == 0 && Buf == old(Buf)
    {
      var data: bytes;
      data, ok := Get(2, consume);
      v := if ok then U16(data[0], data[1]) else 0;
    }

    // Everything up to the first separator, with or without the separator itself.
    method GetUntil(sep: bytes, includeSep: bool, consume: bool) returns (data: bytes, ok: bool)
      modifies this
      ensures ok <==> Index(old(Buf), sep).Some?
      ensures ok ==> var n := Index(old(Buf), sep).value + (if includeSep then |sep| else 0);
                     && data == old(Buf)[..n]
                     && Buf == if consume then old(Buf)[n..] else old(Buf)
      ensures !ok ==> data == [] && Buf == old(Buf)
    {
      var index := Index(Buf, sep);
      if index.None? {
        return [], false;
      }
      data, ok := Get(index.value + (if includeSep then |sep| else 0), consume);
    }

    method GetSubBuffer(length: nat, consume: bool) returns (sub: ByteBuffer, ok: bool)
      modifies this
      ensures fresh(sub)
      ensures ok <==> length <= |old(Buf)|
      ensures ok ==> sub.Buf == old(Buf)[..length] && Buf == if consume then old(Buf)[length..] else old(Buf)
      ensures !ok ==> sub.Buf == [] && Buf == old(Buf)
    {
      var data: bytes;
      data, ok := Get(length, consume);
      sub := new ByteBuffer(data);
    }

    method Skip(length: nat) returns (ok: bool)
      modifies this
      ensures ok <==> length <= |old(Buf)|
      ensures Buf == if ok then old(Buf)[length..] else old(Buf)
    {
      if |Buf| < length {
        return false;
      }
      Buf := Buf[length..];
      ok := true;
    }
  }
}
