/** What the SOCKS reply machine extracts from every well-formed reply, however it is cut. The
    version is the one the requests have settled. */
module SocksReplies {
  import opened Bytes
  import opened Props
  import opened Lsm
  import opened Socks
  import opened SocksRoundTrip

  // ---- SOCKS5: sections 3 to 6 of RFC 1928, section 2 of RFC 1929 ----

  // The server's side: the method it picked, the status of the sub-negotiation when there is one,
  // and the reply.
  datatype Response5 = Response5(password: bool, status: byte, rep: byte, rsv: byte, dest: Dest, port: u16)
  {
    predicate Wf() { dest.Wf() }

    function Method(): byte { if password then 2 else 0 }

    function Auth(): bytes { if password then [1, status] else [] }

    function AuthEntry(): Value {
      Nested(if password then map["method" := Int(2), "status" := Int(status)] else map["method" := Int(0)])
    }

    function Packet(): bytes
      requires Wf()
    {
      PacketOf(rep, rsv, dest, port)
    }

    function Encode(): bytes
      requires Wf()
    {
      [5] + ([Method()] + (Auth() + Packet()))
    }

    function Fields(t: AddressText): PropMap {
      map["auth" := AuthEntry(), "rep" := Int(rep), "addr_type" := Int(dest.Type()),
          "addr" := Text(dest.Shown(t)), "port" := Int(port)]
    }
  }

  // The reply machine once it has seen the version byte.
  function At(steps: seq<RespStep>, index: nat, updated: bool, buf: bytes, l: Resp): Machine<RespStep, Resp> {
    Machine([RespVersion] + steps, index, false, false, updated, buf, l)
  }

  // What the reply steps have to themselves at the start.
  function Blank(version: int): Resp { Resp(None, version, 0) }

  lemma {:induction false} RunFirst(t: AddressText, version: int, ver: byte, y: bytes)
    requires (version == SOCKS5 && ver == 5) || ((version == SOCKS4 || version == SOCKS4A) && ver == 0)
    ensures Run(RespProg(t), RespInitial(version).Push([ver] + y)) ==
              Run(RespProg(t), At(if ver == 5 then RESP5 else RESP4, 1, false, y, Blank(version)))
  {
    RespGood(t);
    hide Run, Good;
    var m := RespInitial(version).Push([ver] + y);
    assert m.buf == [ver] + y;
    assert m.buf[1..] == y;
    RunNext(RespProg(t), m, RespOutcome(t, RespVersion, m.buf, m.local));
  }

  lemma {:induction false} RunThen(
      t: AddressText, steps: seq<RespStep>, index: nat, u: bool, b: bytes, l: Resp, o: Outcome<RespStep, Resp>)
    requires RespWf([RespVersion] + steps, index, l.m) && 1 <= index <= |steps|
    requires o == RespOutcome(t, ([RespVersion] + steps)[index], b, l) && o.action.Next? && o.appended == []
    ensures RespWf([RespVersion] + steps, index + 1, o.local.m)
    ensures Run(RespProg(t), At(steps, index, u, b, l)) ==
              Run(RespProg(t), At(steps, index + 1, u || o.updated, o.rest, o.local))
  {
    RespGood(t);
    hide Run, Good, RespOutcome, RespWf;
    assert [RespVersion] + steps + [] == [RespVersion] + steps;
    RunNext(RespProg(t), At(steps, index, u, b, l), o);
  }

  lemma {:induction false} AuthStep(r: Response5, x: bytes, l: Resp)
    requires l.chosen == r.Method() && l.m.Some?
    ensures StepResp5Auth(r.Auth() + x, l) ==
              Outcome(Next, x, l.(m := Some(l.m.value["auth" := r.AuthEntry()])), [], true)
  {
    var b := r.Auth() + x;
    if r.password {
      assert b[2..] == x;
    } else {
      assert b == x && b[0..] == x;
    }
  }

  lemma {:induction false} ReplyStep(t: AddressText, r: Response5, x: bytes, l: Resp)
    requires r.Wf() && l.m.Some?
    ensures var m := l.m.value["rep" := Int(r.rep)];
            StepResp5ConnInfo(t, r.Packet() + x, l) ==
              if r.dest.Fits() then
                Outcome(Next, x, l.(m := Some(m["addr_type" := Int(r.dest.Type())]["addr" := Text(r.dest.Shown(t))]
                                               ["port" := Int(r.port)])), [], true)
              else Outcome(Crash, x, l.(m := Some(m)), [], false)
  {
    hide PacketOf, ReadPacket, Address, PacketLen;
    PacketRead(r.rep, r.rsv, r.dest, r.port, x);
    PacketAddress(t, r.rep, r.rsv, r.dest, r.port);
  }

  // The fields once the sub-negotiation is over.
  function Authenticated(r: Response5): Resp { Resp(Some(map["auth" := r.AuthEntry()]), SOCKS5, r.Method()) }

  // The machine up to the reply, with anything in its place.
  lemma {:induction false} RunToPacket(t: AddressText, r: Response5, y: bytes)
    ensures Run(RespProg(t), RespInitial(SOCKS5).Push([5] + ([r.Method()] + (r.Auth() + y)))) ==
              Run(RespProg(t), At(RESP5, 3, true, y, Authenticated(r)))
  {
    hide Run;
    var y2 := r.Auth() + y;
    var y1 := [r.Method()] + y2;
    RunFirst(t, SOCKS5, 5, y1);
    var l0 := Blank(SOCKS5);
    var l1 := l0.(chosen := r.Method(), m := Some(map[]));
    assert y1[1..] == y2;
    RunThen(t, RESP5, 1, false, y1, l0, RespOutcome(t, Resp5Method, y1, l0));
    AuthStep(r, y, l1);
    RunThen(t, RESP5, 2, false, y2, l1, RespOutcome(t, Resp5Auth, y2, l1));
  }

  lemma {:induction false} RunToReply(t: AddressText, r: Response5, x: bytes)
    requires r.Wf()
    ensures Run(RespProg(t), RespInitial(SOCKS5).Push(r.Encode() + x)) ==
              Run(RespProg(t), At(RESP5, 3, true, r.Packet() + x, Authenticated(r)))
  {
    hide Run, PacketOf;
    assert r.Encode() + x == [5] + ([r.Method()] + (r.Auth() + (r.Packet() + x)));
    RunToPacket(t, r, r.Packet() + x);
  }

  lemma {:induction false} RunResponse5(t: AddressText, r: Response5, x: bytes)
    requires r.Wf() && r.dest.Fits()
    ensures Run(RespProg(t), RespInitial(SOCKS5).Push(r.Encode() + x)) ==
              At(RESP5, 4, true, x, Resp(Some(r.Fields(t)), SOCKS5, r.Method()))
  {
    hide PacketOf, StepResp5ConnInfo;
    RunToReply(t, r, x);
    var l := Authenticated(r);
    ReplyStep(t, r, x, l);
    var o := RespOutcome(t, Resp5ConnInfo, r.Packet() + x, l);
    assert o.local.m == Some(r.Fields(t));
    RunThen(t, RESP5, 3, true, r.Packet() + x, l, o);
  }

  // SOCKS5 REPLIES. Cut anywhere and followed by anything, a well-formed reply whose domain fits
  // ends the machine behind its fourth step with exactly its fields.
  lemma {:induction false} Response5ThroughMachine(t: AddressText, r: Response5, x: bytes, chunks: seq<bytes>)
    requires r.Wf() && r.dest.Fits() && Flatten(chunks) == r.Encode() + x
    ensures var f := FeedAll(RespProg(t), RespInitial(SOCKS5), chunks, None);
            && f.m.steps == [RespVersion] + RESP5 && f.m.index == 4 && !f.m.Stopped()
            && f.m.buf == x && f.unfed == []
            && f.m.local.m == Some(r.Fields(t)) && f.published == Some(map["resp" := Nested(r.Fields(t))])
  {
    RunResponse5(t, r, x);
    RespGood(t);
    hide Run, Good, FeedAll, PacketOf;
    AnyCut(RespProg(t), RespInitial(SOCKS5), chunks, At(RESP5, 4, true, x,
      Resp(Some(r.Fields(t)), SOCKS5, r.Method())));
  }

  lemma {:induction false} RunPanics(t: AddressText, r: Response5, x: bytes)
    requires r.Wf() && !r.dest.Fits()
    ensures Run(RespProg(t), RespInitial(SOCKS5).Push(r.Encode() + x)).crashed
  {
    RunToReply(t, r, x);
    var l := Authenticated(r);
    var m := At(RESP5, 3, true, r.Packet() + x, l);
    ReplyStep(t, r, x, l);
    hide PacketOf, StepResp5ConnInfo, Run;
    assert m.steps[m.index] == Resp5ConnInfo;
    assert RespOutcome(t, Resp5ConnInfo, m.buf, l).action.Crash?;
    RunCrash(RespProg(t), m);
  }

  // A bound name of more than 250 bytes, and nothing else, makes the machine panic.
  lemma {:induction false} Response5Panics(t: AddressText, r: Response5, x: bytes, chunks: seq<bytes>)
    requires r.Wf() && Flatten(chunks) == r.Encode() + x
    ensures FeedAll(RespProg(t), RespInitial(SOCKS5), chunks, None).m.crashed <==> !r.dest.Fits()
  {
    hide Run, Good, FeedAll, PacketOf;
    if r.dest.Fits() {
      Response5ThroughMachine(t, r, x, chunks);
    } else {
      RunPanics(t, r, x);
      RespGood(t);
      AnyCutEnds(RespProg(t), RespInitial(SOCKS5), chunks, Run(RespProg(t), RespInitial(SOCKS5).Push(r.Encode() + x)));
    }
  }

  // ---- SOCKS4 and 4A ----

  datatype Response4 = Response4(rep: byte, port: u16, ip: bytes)
  {
    predicate Wf() { 0x5A <= rep <= 0x5D && |ip| == 4 }

    function Packet(): bytes { [rep] + Put16(port) + ip }

    function Encode(): bytes { [0] + Packet() }

    function Fields(t: AddressText): PropMap {
      map["rep" := U8(rep), "addr" := Text(t.v4(ip)), "addr_type" := Int(1), "port" := U16Val(port)]
    }
  }

  lemma {:induction false} PacketStep(t: AddressText, r: Response4, x: bytes, l: Resp)
    requires r.Wf()
    ensures StepResp4Packet(t, r.Packet() + x, l) == Outcome(Next, x, l.(m := Some(r.Fields(t))), [], true)
  {
    var b := r.Packet() + x;
    assert b[3..7] == r.ip && b[7..] == x;
    assert [b[1], b[2]] == Put16(r.port);
  }

  // SOCKS4 REPLIES.
  lemma {:induction false} Response4ThroughMachine(
      t: AddressText, version: int, r: Response4, x: bytes, chunks: seq<bytes>)
    requires (version == SOCKS4 || version == SOCKS4A) && r.Wf() && Flatten(chunks) == r.Encode() + x
    ensures var f := FeedAll(RespProg(t), RespInitial(version), chunks, None);
            && f.m.steps == [RespVersion] + RESP4 && f.m.index == 2 && !f.m.Stopped()
            && f.m.buf == x && f.unfed == []
            && f.m.local.m == Some(r.Fields(t)) && f.published == Some(map["resp" := Nested(r.Fields(t))])
  {
    RespGood(t);
    hide Good, FeedAll;
    var y, l, l' := r.Packet() + x, Blank(version), Resp(Some(r.Fields(t)), version, 0);
    assert r.Encode() + x == [0] + y;
    RunFirst(t, version, 0, y);
    PacketStep(t, r, x, l);
    RunThen(t, RESP4, 1, false, y, l, Outcome(Next, x, l', [], true));
    AnyCut(RespProg(t), RespInitial(version), chunks, At(RESP4, 2, true, x, l'));
  }

  // No step goes back.
  lemma {:induction false} NeverBack(t: AddressText, m: Machine<RespStep, Resp>)
    requires RespWf(m.steps, m.index, m.local.m)
    ensures Run(RespProg(t), m).index >= m.index
    decreases Rank(RespProg(t), m)
  {
    if m.index < |m.steps| {
      RespGood(t);
      hide Good, RespWf;
      RunStep(RespProg(t), m);
      assert !RespOutcome(t, m.steps[m.index], m.buf, m.local).action.Reset?;
      if Goes(RespOutcome(t, m.steps[m.index], m.buf, m.local).action) {
        NeverBack(t, After(RespProg(t), m));
      }
    }
  }

  // A reply is given up at its first byte exactly when it does not open with the version of the
  // requests, or comes before any request.
  lemma {:induction false} WrongReplyCancels(t: AddressText, version: int, chunks: seq<bytes>)
    requires INVALID <= version <= SOCKS5 && Flatten(chunks) != []
    ensures var m := FeedAll(RespProg(t), RespInitial(version), chunks, None).m;
            var ver := Flatten(chunks)[0];
            m.index == 0 && m.cancelled <==> version == INVALID || ver != (if version == SOCKS5 then 5 else 0)
  {
    var b := Flatten(chunks);
    var m := RespInitial(version).Push(b);
    assert m.buf == b;
    RespGood(t);
    hide Good, FeedAll, Run;
    RunStep(RespProg(t), m);
    if version != INVALID && b[0] == (if version == SOCKS5 then 5 else 0) {
      NeverBack(t, After(RespProg(t), m));
    }
    AnyCutEnds(RespProg(t), RespInitial(version), chunks, Run(RespProg(t), m));
  }
}
