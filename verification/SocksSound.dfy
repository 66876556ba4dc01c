/** What the SOCKS machines accept: nothing but well-formed requests and replies. */
module SocksSoundness {
  import opened Bytes
  import opened Props
  import opened Lsm
  import opened Socks
  import opened SocksRoundTrip
  import R = SocksReplies

  // ---- Requests ----

  // A step ends the run, or hands over to the next.
  lemma {:induction false} ReqGoesOn(t: AddressText, steps: seq<ReqStep>, index: nat, b: bytes, l: Req)
    requires ReqWf([ReqVersion] + steps, index, l) && 1 <= index <= 3
    ensures var o, r := ReqOutcome(t, ([ReqVersion] + steps)[index], b, l), Run(ReqProg(t), At(steps, index, b, l));
            && (o.action.Pause? ==> !r.cancelled && r.index == index)
            && (o.action.Cancel? ==> r.cancelled && r.index == index)
            && (o.action.Crash? ==> r.crashed && !r.cancelled && r.index == index)
            && (o.action.Next? ==>
                  ReqWf([ReqVersion] + steps, index + 1, o.local)
                  && r == Run(ReqProg(t), At(steps, index + 1, o.rest, o.local)))
            && !o.action.Reset?
  {
    ReqGood(t);
    hide Good;
    var m := At(steps, index, b, l);
    var o := ReqOutcome(t, m.steps[index], b, l);
    RunStep(ReqProg(t), m);
    assert o.appended == [] && !o.action.Reset?;
    hide ReqOutcome;
    if o.action.Next? {
      RunThen(t, steps, index, b, l, o);
    }
  }

  lemma {:induction false} GreetingTaken(b: bytes, l: Req) returns (methods: bytes)
    requires StepReq5Method(b, l).action.Next?
    ensures |methods| < 0x100 && b == [|methods|] + methods + StepReq5Method(b, l).rest
    ensures StepReq5Method(b, l).local == l.(chosen := PickMethod(methods))
  {
    methods := b[1..b[0] as nat + 1];
  }

  lemma {:induction false} AuthTaken(b: bytes, l: Req) returns (auth: Auth)
    requires StepReq5Auth(b, l).action.Next?
    ensures auth.Wf() && l.chosen == auth.Method() && b == auth.Encode() + StepReq5Auth(b, l).rest
  {
    if l.chosen == 0 {
      auth := NoAuth;
    } else {
      var u := b[1] as nat;
      var n := u + b[u + 2] as nat + 3;
      auth := UserPass(b[2..u + 2], b[u + 3..n]);
      assert b[..n] == [1, b[1]] + b[2..u + 2] + ([b[u + 2]] + b[u + 3..n]);
    }
  }

  lemma {:induction false} DestTaken(p: bytes) returns (dest: Dest)
    requires |p| >= 7 && PacketLen(p[3], p[4]) == Some(|p|)
    ensures dest.Wf() && dest.Type() == p[3] && dest.Encode() == p[4..|p| - 2]
  {
    var n := |p|;
    dest := if p[3] == 1 then V4(p[4..8]) else if p[3] == 4 then V6(p[4..20]) else Name(p[5..n - 2]);
    if dest.Name? {
      assert p[4..n - 2] == [p[4]] + p[5..n - 2];
    }
  }

  // A packet that can be read is a code, a destination and a port.
  lemma {:induction false} PacketTaken(b: bytes) returns (code: byte, rsv: byte, dest: Dest, port: u16)
    requires ReadPacket(b).Whole?
    ensures var p := ReadPacket(b).p;
            dest.Wf() && p == PacketOf(code, rsv, dest, port) && p[1] == code && b == p + b[|p|..]
  {
    var p := ReadPacket(b).p;
    var n := |p|;
    code, rsv, port := p[1], p[2], U16(p[n - 2], p[n - 1]);
    dest := DestTaken(p);
    Put16Unique(p[n - 2], p[n - 1]);
    hide Put16, Dest.Encode, Dest.Wf, PacketLen;
    assert p[..4] == [5, code, rsv, dest.Type()];
    assert p[n - 2..] == [p[n - 2], p[n - 1]];
    assert p == p[..4] + (p[4..n - 2] + p[n - 2..]);
  }

  lemma {:induction false} ConnInfoTaken(t: AddressText, b: bytes, l: Req)
    returns (cmd: byte, rsv: byte, dest: Dest, port: u16)
    requires StepReq5ConnInfo(t, b, l).action.Next?
    ensures 1 <= cmd <= 3 && dest.Wf() && dest.Fits()
    ensures b == PacketOf(cmd, rsv, dest, port) + StepReq5ConnInfo(t, b, l).rest
  {
    cmd, rsv, dest, port := PacketTaken(b);
    PacketAddress(t, cmd, rsv, dest, port);
    hide PacketOf, PacketLen, Address;
  }

  lemma {:induction false} Regroup(g: bytes, a: bytes, p: bytes, x: bytes)
    ensures [5] + (g + (a + (p + x))) == [5] + g + a + p + x
  {
  }

  lemma {:induction false} Request5Sound(t: AddressText, y: bytes) returns (r: Request5, x: bytes)
    requires Run(ReqProg(t), REQ_INITIAL.Push([5] + y)).index == 4
    ensures r.Wf() && r.dest.Fits() && [5] + y == r.Encode() + x
  {
    hide Run, StepReq5Method, StepReq5Auth, StepReq5ConnInfo, PacketOf;
    RunFirst(t, 5, y);
    var l1 := Req(Some(map[]), SOCKS5, 0, [], []);
    ReqGoesOn(t, REQ5, 1, y, l1);
    var methods := GreetingTaken(y, l1);
    var o1 := StepReq5Method(y, l1);
    ReqGoesOn(t, REQ5, 2, o1.rest, o1.local);
    var auth := AuthTaken(o1.rest, o1.local);
    var o2 := StepReq5Auth(o1.rest, o1.local);
    ReqGoesOn(t, REQ5, 3, o2.rest, o2.local);
    var cmd, rsv, dest, port := ConnInfoTaken(t, o2.rest, o2.local);
    r, x := Request5(methods, auth, cmd, rsv, dest, port), StepReq5ConnInfo(t, o2.rest, o2.local).rest;
    Regroup(r.Greeting(), auth.Encode(), r.Packet(), x);
  }

  lemma {:induction false} IpAndPortTaken(t: AddressText, b: bytes, l: Req) returns (cmd: byte, port: u16, ip: bytes)
    requires StepReq4IpAndPort(t, b, l).action.Next? && l.version == SOCKS4
    ensures var o := StepReq4IpAndPort(t, b, l);
            && (cmd == 1 || cmd == 2) && |ip| == 4 && b == [cmd] + Put16(port) + ip + o.rest
            && (o.local.version == SOCKS4A <==> ip[0] == 0 && ip[1] == 0 && ip[2] == 0)
  {
    cmd, port, ip := b[0], U16(b[1], b[2]), b[3..7];
    Put16Unique(b[1], b[2]);
    hide Put16;
    assert b == [b[0]] + [b[1], b[2]] + b[3..7] + b[7..];
  }

  // What stands in front of the first NUL.
  lemma {:induction false} UntilNul(b: bytes)
    requires Index(b, [0]).Some?
    ensures var i := Index(b, [0]).value; 0 !in b[..i] && b == b[..i] + [0] + b[i + 1..]
  {
    var i := Index(b, [0]).value;
    forall j | 0 <= j < i ensures b[j] != 0 {
      assert !OccursAt(b, [0], j);
      assert b[j..j + 1] == [b[j]];
    }
    assert b[i..i + 1] == [0];
    assert b == b[..i] + b[i..i + 1] + b[i + 1..];
  }

  lemma {:induction false} UserIdTaken(b: bytes, l: Req) returns (userId: bytes)
    requires StepReq4UserId(b, l).action.Next?
    ensures 0 !in userId && b == userId + [0] + StepReq4UserId(b, l).rest
    ensures StepReq4UserId(b, l).local.version == l.version
  {
    UntilNul(b);
    userId := b[..Index(b, NUL).value];
  }

  lemma {:induction false} HostnameTaken(b: bytes, l: Req) returns (hostname: bytes)
    requires StepReq4Hostname(b, l).action.Next?
    ensures 0 !in hostname && (l.version != SOCKS4A ==> hostname == [])
    ensures b == (if l.version == SOCKS4A then hostname + [0] else []) + StepReq4Hostname(b, l).rest
  {
    if l.version == SOCKS4A {
      UntilNul(b);
      hostname := b[..Index(b, NUL).value];
    } else {
      hostname := [];
    }
  }

  lemma {:induction false} Request4Sound(t: AddressText, y: bytes) returns (r: Request4, x: bytes)
    requires Run(ReqProg(t), REQ_INITIAL.Push([4] + y)).index == 4
    ensures r.Wf() && [4] + y == r.Encode() + x
  {
    hide Run, StepReq4IpAndPort, StepReq4UserId, StepReq4Hostname, Put16;
    RunFirst(t, 4, y);
    var l1 := Req(Some(map[]), SOCKS4, 0, [], []);
    ReqGoesOn(t, REQ4, 1, y, l1);
    var cmd, port, ip := IpAndPortTaken(t, y, l1);
    var o1 := StepReq4IpAndPort(t, y, l1);
    ReqGoesOn(t, REQ4, 2, o1.rest, o1.local);
    var userId := UserIdTaken(o1.rest, o1.local);
    var o2 := StepReq4UserId(o1.rest, o1.local);
    ReqGoesOn(t, REQ4, 3, o2.rest, o2.local);
    var hostname := HostnameTaken(o2.rest, o2.local);
    r, x := Request4(cmd, port, ip, userId, hostname), StepReq4Hostname(o2.rest, o2.local).rest;
    Regroup4(r, x);
  }

  ghost predicate IsRequest5(b: bytes) {
    exists r: Request5, x :: r.Wf() && r.dest.Fits() && b == r.Encode() + x
  }

  ghost predicate IsRequest4(b: bytes) {
    exists r: Request4, x :: r.Wf() && b == r.Encode() + x
  }

  lemma {:induction false} OtherVersion(t: AddressText, b: bytes)
    requires b != [] && b[0] != 4 && b[0] != 5
    ensures var r := Run(ReqProg(t), REQ_INITIAL.Push(b)); r.cancelled && r.index == 0
  {
    assert REQ_INITIAL.Push(b).buf == b;
    RunCancels(ReqProg(t), REQ_INITIAL.Push(b));
  }

  // NOTHING BUT REQUESTS. The machine comes to its end if and only if the client's bytes begin with
  // a well-formed request of either version, however they are cut.
  lemma {:induction false} RequestsExactly(t: AddressText, chunks: seq<bytes>)
    ensures FeedAll(ReqProg(t), REQ_INITIAL, chunks, None).m.index == 4 <==>
              IsRequest5(Flatten(chunks)) || IsRequest4(Flatten(chunks))
  {
    var b := Flatten(chunks);
    hide Run, FeedAll, Request5.Encode, Request4.Encode, Request5.Wf, Request4.Wf;
    if IsRequest5(b) {
      var r: Request5, x :| r.Wf() && r.dest.Fits() && b == r.Encode() + x;
      Request5ThroughMachine(t, r, x, chunks);
    }
    if IsRequest4(b) {
      var r: Request4, x :| r.Wf() && b == r.Encode() + x;
      Request4ThroughMachine(t, r, x, chunks);
    }
    if FeedAll(ReqProg(t), REQ_INITIAL, chunks, None).m.index == 4 {
      RequestThere(t, chunks);
    }
  }

  lemma {:induction false} RequestThere(t: AddressText, chunks: seq<bytes>)
    requires FeedAll(ReqProg(t), REQ_INITIAL, chunks, None).m.index == 4
    ensures IsRequest5(Flatten(chunks)) || IsRequest4(Flatten(chunks))
  {
    var b := Flatten(chunks);
    ReqGood(t);
    hide Run, FeedAll, Good, Request5.Encode, Request4.Encode, Request5.Wf, Request4.Wf;
    if b == [] {
      ChunkIndependence(ReqProg(t), REQ_INITIAL, chunks, None);
    } else {
      AnyCutEnds(ReqProg(t), REQ_INITIAL, chunks, Run(ReqProg(t), REQ_INITIAL.Push(b)));
      assert b == [b[0]] + b[1..];
      if b[0] == 5 {
        var r, x := Request5Sound(t, b[1..]);
      } else if b[0] == 4 {
        var r, x := Request4Sound(t, b[1..]);
      } else {
        OtherVersion(t, b);
      }
    }
  }

  // ---- When requests are given up ----

  lemma {:induction false} ReqThrough(t: AddressText, steps: seq<ReqStep>, b: bytes, l: Req)
    requires |steps| == 3
    ensures Run(ReqProg(t), At(steps, 4, b, l)) == At(steps, 4, b, l)
  {
  }

  // The longest greeting is of 256 bytes, the longest sub-negotiation of 513, and the longest
  // packet of 262.
  lemma {:induction false} GreetingFits(b: bytes, l: Req)
    requires |b| >= 256
    ensures var o := StepReq5Method(b, l); o.action.Next? && |o.rest| >= |b| - 256
  {
  }

  lemma {:induction false} AuthFits(b: bytes, l: Req)
    requires |b| >= 513
    ensures var o := StepReq5Auth(b, l); !o.action.Pause? && (o.action.Next? ==> |o.rest| >= |b| - 513)
  {
  }

  lemma {:induction false} PacketFits(t: AddressText, b: bytes)
    requires |b| >= 262
    ensures forall l :: !StepReq5ConnInfo(t, b, l).action.Pause?
    ensures forall l :: !StepResp5ConnInfo(t, b, l).action.Pause?
  {
    hide Address;
    assert !ReadPacket(b).More?;
  }

  lemma {:induction false} Decided5(t: AddressText, y: bytes)
    requires |y| >= 256 + 513 + 262
    ensures var r := Run(ReqProg(t), REQ_INITIAL.Push([5] + y)); r.index == 4 || r.cancelled || r.crashed
  {
    hide Run, StepReq5Method, StepReq5Auth, StepReq5ConnInfo;
    RunFirst(t, 5, y);
    var l1 := Req(Some(map[]), SOCKS5, 0, [], []);
    ReqGoesOn(t, REQ5, 1, y, l1);
    GreetingFits(y, l1);
    var o1 := StepReq5Method(y, l1);
    ReqGoesOn(t, REQ5, 2, o1.rest, o1.local);
    AuthFits(o1.rest, o1.local);
    var o2 := StepReq5Auth(o1.rest, o1.local);
    if o2.action.Next? {
      ReqGoesOn(t, REQ5, 3, o2.rest, o2.local);
      PacketFits(t, o2.rest);
      var o3 := StepReq5ConnInfo(t, o2.rest, o2.local);
      ReqThrough(t, REQ5, o3.rest, o3.local);
    }
  }

  // Behind its first eight bytes a SOCKS4 request is never given up.
  lemma {:induction false} Kept4(b: bytes, l: Req)
    ensures !StepReq4UserId(b, l).action.Cancel? && !StepReq4Hostname(b, l).action.Cancel?
  {
  }

  lemma {:induction false} Given4(t: AddressText, y: bytes)
    ensures Run(ReqProg(t), REQ_INITIAL.Push([4] + y)).cancelled <==> |y| >= 7 && y[0] != 1 && y[0] != 2
  {
    hide Run, StepReq4UserId, StepReq4Hostname;
    RunFirst(t, 4, y);
    var l1 := Req(Some(map[]), SOCKS4, 0, [], []);
    ReqGoesOn(t, REQ4, 1, y, l1);
    var o1 := StepReq4IpAndPort(t, y, l1);
    if o1.action.Next? {
      hide StepReq4IpAndPort;
      ReqGoesOn(t, REQ4, 2, o1.rest, o1.local);
      Kept4(o1.rest, o1.local);
      var o2 := StepReq4UserId(o1.rest, o1.local);
      if o2.action.Next? {
        ReqGoesOn(t, REQ4, 3, o2.rest, o2.local);
        Kept4(o2.rest, o2.local);
        var o3 := StepReq4Hostname(o2.rest, o2.local);
        ReqThrough(t, REQ4, o3.rest, o3.local);
      }
    }
  }

  // WHEN REQUESTS ARE GIVEN UP: at the first byte if that is no version; after eight bytes of a
  // SOCKS4 request if and only if its command is unknown; and a SOCKS5 request is given up, or
  // read to its end, or makes the machine panic, within as many bytes as the longest one has.
  lemma {:induction false} RequestsDecided(t: AddressText, chunks: seq<bytes>)
    requires Flatten(chunks) != []
    ensures var b, m := Flatten(chunks), FeedAll(ReqProg(t), REQ_INITIAL, chunks, None).m;
            && (b[0] != 4 && b[0] != 5 ==> m.cancelled && m.index == 0)
            && (b[0] == 4 ==> (m.cancelled <==> |b| >= 8 && b[1] != 1 && b[1] != 2))
            && (b[0] == 5 && |b| >= 1032 ==> m.index == 4 || m.cancelled || m.crashed)
  {
    var b := Flatten(chunks);
    ReqGood(t);
    hide Run, FeedAll, Good;
    AnyCutEnds(ReqProg(t), REQ_INITIAL, chunks, Run(ReqProg(t), REQ_INITIAL.Push(b)));
    assert b == [b[0]] + b[1..];
    if b[0] == 5 {
      if |b| >= 1032 {
        Decided5(t, b[1..]);
      }
    } else if b[0] == 4 {
      Given4(t, b[1..]);
    } else {
      OtherVersion(t, b);
    }
  }

  // ---- Replies ----

  lemma {:induction false} Plain(t: AddressText, id: RespStep, b: bytes, l: Resp)
    requires id != RespVersion
    ensures var o := RespOutcome(t, id, b, l); o.appended == [] && !o.action.Reset? && o.local.version == l.version
  {
    hide ReadPacket, Address, Port;
  }

  lemma {:induction false} RespGoesOn(t: AddressText, steps: seq<RespStep>, index: nat, u: bool, b: bytes, l: Resp)
    requires RespWf([RespVersion] + steps, index, l.m) && 1 <= index <= |steps|
    ensures var o := RespOutcome(t, ([RespVersion] + steps)[index], b, l);
            var r := Run(RespProg(t), R.At(steps, index, u, b, l));
            && (o.action.Pause? ==> !r.cancelled && r.index == index)
            && (o.action.Cancel? ==> r.cancelled && r.index == index)
            && (o.action.Crash? ==> r.crashed && !r.cancelled && r.index == index)
            && (o.action.Next? ==>
                  RespWf([RespVersion] + steps, index + 1, o.local.m)
                  && r == Run(RespProg(t), R.At(steps, index + 1, u || o.updated, o.rest, o.local)))
            && !o.action.Reset? && o.local.version == l.version && |r.steps| == |steps| + 1
  {
    RespGood(t);
    hide Good, RespOutcome;
    var m := R.At(steps, index, u, b, l);
    var o := RespOutcome(t, m.steps[index], b, l);
    Plain(t, m.steps[index], b, l);
    RunStep(RespProg(t), m);
    assert m.steps + [] == m.steps;
    if o.action.Next? {
      R.RunThen(t, steps, index, u, b, l, o);
      StepsStay(t, steps, index + 1, u || o.updated, o.rest, o.local);
    }
  }

  lemma {:induction false} StepsStay(t: AddressText, steps: seq<RespStep>, index: nat, u: bool, b: bytes, l: Resp)
    requires RespWf([RespVersion] + steps, index, l.m) && 1 <= index <= |steps| + 1
    ensures Run(RespProg(t), R.At(steps, index, u, b, l)).steps == [RespVersion] + steps
    decreases |steps| + 1 - index
  {
    if index <= |steps| {
      RespGood(t);
      hide Good, RespOutcome;
      var m := R.At(steps, index, u, b, l);
      var o := RespOutcome(t, m.steps[index], b, l);
      Plain(t, m.steps[index], b, l);
      RunStep(RespProg(t), m);
      assert m.steps + [] == m.steps;
      if o.action.Next? {
        R.RunThen(t, steps, index, u, b, l, o);
        StepsStay(t, steps, index + 1, u || o.updated, o.rest, o.local);
      }
    }
  }

  ghost predicate IsReply5(b: bytes) {
    exists r: R.Response5, x :: r.Wf() && r.dest.Fits() && b == r.Encode() + x
  }

  ghost predicate IsReply4(b: bytes) {
    exists r: R.Response4, x :: r.Wf() && b == r.Encode() + x
  }

  lemma {:induction false} Status(b: bytes, l: Resp) returns (password: bool, status: byte)
    requires StepResp5Auth(b, l).action.Next?
    ensures l.chosen == (if password then 2 else 0)
    ensures b == (if password then [1, status] else []) + StepResp5Auth(b, l).rest
  {
    password := l.chosen == 2;
    status := if password then b[1] else 0;
    if password {
      assert b == [b[0], b[1]] + b[2..];
    }
  }

  lemma {:induction false} ReplyTaken(t: AddressText, b: bytes, l: Resp)
    returns (rep: byte, rsv: byte, dest: Dest, port: u16)
    requires StepResp5ConnInfo(t, b, l).action.Next?
    ensures dest.Wf() && dest.Fits()
    ensures b == PacketOf(rep, rsv, dest, port) + StepResp5ConnInfo(t, b, l).rest
  {
    rep, rsv, dest, port := PacketTaken(b);
    PacketAddress(t, rep, rsv, dest, port);
    hide PacketOf, PacketLen, Address;
  }

  lemma {:induction false} Reply5Sound(t: AddressText, y: bytes) returns (r: R.Response5, x: bytes)
    requires Run(RespProg(t), RespInitial(SOCKS5).Push([5] + y)).index == 4
    ensures r.Wf() && r.dest.Fits() && [5] + y == r.Encode() + x
  {
    hide Run, StepResp5Auth, StepResp5ConnInfo, PacketOf;
    R.RunFirst(t, SOCKS5, 5, y);
    var l0 := R.Blank(SOCKS5);
    RespGoesOn(t, RESP5, 1, false, y, l0);
    var o1 := StepResp5Method(y, l0);
    RespGoesOn(t, RESP5, 2, false, o1.rest, o1.local);
    var password, status := Status(o1.rest, o1.local);
    var o2 := StepResp5Auth(o1.rest, o1.local);
    RespGoesOn(t, RESP5, 3, o2.updated, o2.rest, o2.local);
    var rep, rsv, dest, port := ReplyTaken(t, o2.rest, o2.local);
    r, x := R.Response5(password, status, rep, rsv, dest, port), StepResp5ConnInfo(t, o2.rest, o2.local).rest;
    assert y == [y[0]] + y[1..];
    assert r.Encode() + x == [5] + ([r.Method()] + (r.Auth() + (r.Packet() + x)));
  }

  // What a SOCKS4 reply comes to.
  lemma {:induction false} Reply4Ends(t: AddressText, version: int, y: bytes)
    requires version == SOCKS4 || version == SOCKS4A
    ensures var r := Run(RespProg(t), RespInitial(version).Push([0] + y));
            && |r.steps| == 2 && (r.index == 2 <==> |y| >= 7 && 0x5A <= y[0] <= 0x5D)
            && (r.cancelled <==> |y| >= 7 && !(0x5A <= y[0] <= 0x5D))
  {
    R.RunFirst(t, version, 0, y);
    RespGoesOn(t, RESP4, 1, false, y, R.Blank(version));
    var o := StepResp4Packet(t, y, R.Blank(version));
    if o.action.Next? {
      assert Run(RespProg(t), R.At(RESP4, 2, true, o.rest, o.local)) == R.At(RESP4, 2, true, o.rest, o.local);
    }
  }

  lemma {:induction false} Reply4Bytes(b: bytes)
    requires |b| >= 8 && b[0] == 0 && 0x5A <= b[1] <= 0x5D
    ensures IsReply4(b)
  {
    var r := R.Response4(b[1], U16(b[2], b[3]), b[4..8]);
    Put16Unique(b[2], b[3]);
    hide Put16;
    assert b == [0] + ([b[1]] + [b[2], b[3]] + b[4..8]) + b[8..];
    assert r.Wf() && b == r.Encode() + b[8..];
  }

  lemma {:induction false} RespThrough(t: AddressText, steps: seq<RespStep>, u: bool, b: bytes, l: Resp)
    ensures Run(RespProg(t), R.At(steps, |steps| + 1, u, b, l)) == R.At(steps, |steps| + 1, u, b, l)
  {
  }

  lemma {:induction false} StatusFits(b: bytes, l: Resp)
    requires |b| >= 2
    ensures var o := StepResp5Auth(b, l); !o.action.Pause? && (o.action.Next? ==> |o.rest| >= |b| - 2)
  {
  }

  lemma {:induction false} Reply5Decided(t: AddressText, y: bytes)
    requires |y| >= 1 + 2 + 262
    ensures var r := Run(RespProg(t), RespInitial(SOCKS5).Push([5] + y)); r.index == 4 || r.cancelled || r.crashed
  {
    hide Run, StepResp5Auth, StepResp5ConnInfo;
    R.RunFirst(t, SOCKS5, 5, y);
    var l0 := R.Blank(SOCKS5);
    RespGoesOn(t, RESP5, 1, false, y, l0);
    var o1 := StepResp5Method(y, l0);
    RespGoesOn(t, RESP5, 2, false, o1.rest, o1.local);
    StatusFits(o1.rest, o1.local);
    var o2 := StepResp5Auth(o1.rest, o1.local);
    if o2.action.Next? {
      RespGoesOn(t, RESP5, 3, o2.updated, o2.rest, o2.local);
      PacketFits(t, o2.rest);
      var o3 := StepResp5ConnInfo(t, o2.rest, o2.local);
      RespThrough(t, RESP5, o2.updated || o3.updated, o3.rest, o3.local);
    }
  }

  lemma {:induction false} ReplyUnread(t: AddressText, version: int, b: bytes)
    requires b != [] && (version == INVALID || b[0] != (if version == SOCKS5 then 5 else 0))
    requires INVALID <= version <= SOCKS5
    ensures var r := Run(RespProg(t), RespInitial(version).Push(b)); r.cancelled && r.index == 0 && |r.steps| == 1
  {
    var m := RespInitial(version).Push(b);
    assert m.buf == b && m.steps + [] == m.steps;
    RunCancels(RespProg(t), m);
  }

  // NOTHING BUT REPLIES of the version that the requests have settled is read to its end, however
  // the bytes are cut.
  lemma {:induction false} RepliesExactly(t: AddressText, version: int, chunks: seq<bytes>)
    requires INVALID <= version <= SOCKS5
    ensures var m := FeedAll(RespProg(t), RespInitial(version), chunks, None).m;
            m.index == |m.steps| <==>
              && version != INVALID
              && if version == SOCKS5 then IsReply5(Flatten(chunks)) else IsReply4(Flatten(chunks))
  {
    var b := Flatten(chunks);
    hide Run, FeedAll, R.Response5.Encode, R.Response4.Encode, R.Response5.Wf, R.Response4.Wf;
    if version == SOCKS5 && IsReply5(b) {
      var r: R.Response5, x :| r.Wf() && r.dest.Fits() && b == r.Encode() + x;
      R.Response5ThroughMachine(t, r, x, chunks);
    } else if (version == SOCKS4 || version == SOCKS4A) && IsReply4(b) {
      var r: R.Response4, x :| r.Wf() && b == r.Encode() + x;
      R.Response4ThroughMachine(t, version, r, x, chunks);
    } else {
      ReplyNotThere(t, version, chunks);
    }
  }

  lemma {:induction false} ReplyNotThere(t: AddressText, version: int, chunks: seq<bytes>)
    requires INVALID <= version <= SOCKS5
    requires version == SOCKS5 ==> !IsReply5(Flatten(chunks))
    requires version == SOCKS4 || version == SOCKS4A ==> !IsReply4(Flatten(chunks))
    ensures var m := FeedAll(RespProg(t), RespInitial(version), chunks, None).m; m.index != |m.steps|
  {
    var b := Flatten(chunks);
    var m := RespInitial(version);
    RespGood(t);
    hide Run, FeedAll, Good, R.Response5.Encode, R.Response4.Encode, R.Response5.Wf, R.Response4.Wf;
    if b == [] {
      ChunkIndependence(RespProg(t), m, chunks, None);
    } else {
      AnyCutEnds(RespProg(t), m, chunks, Run(RespProg(t), m.Push(b)));
      StepsAlike(t, version, chunks);
      assert b == [b[0]] + b[1..];
      if version == INVALID || b[0] != (if version == SOCKS5 then 5 else 0) {
        ReplyUnread(t, version, b);
      } else if version == SOCKS5 {
        Reply5Steps(t, b[1..]);
        if Run(RespProg(t), m.Push(b)).index == 4 {
          var r, x := Reply5Sound(t, b[1..]);
        }
      } else {
        Reply4Ends(t, version, b[1..]);
        if |b| >= 8 && 0x5A <= b[1] <= 0x5D {
          Reply4Bytes(b);
        }
      }
    }
  }

  lemma {:induction false} Reply5Steps(t: AddressText, y: bytes)
    ensures |Run(RespProg(t), RespInitial(SOCKS5).Push([5] + y)).steps| == 4
  {
    hide Run;
    R.RunFirst(t, SOCKS5, 5, y);
    RespGoesOn(t, RESP5, 1, false, y, R.Blank(SOCKS5));
  }

  lemma {:induction false} StepsAlike(t: AddressText, version: int, chunks: seq<bytes>)
    requires Flatten(chunks) != []
    ensures FeedAll(RespProg(t), RespInitial(version), chunks, None).m.steps ==
              Run(RespProg(t), RespInitial(version).Push(Flatten(chunks))).steps
  {
    RespGood(t);
    hide Good, Run, FeedAll;
    ChunkIndependence(RespProg(t), RespInitial(version), chunks, None);
    assert RespInitial(version).Fresh() == RespInitial(version);
  }

  // WHEN REPLIES ARE GIVEN UP: after eight bytes of a SOCKS4 reply if and only if its code is
  // unknown; and a SOCKS5 reply is given up, or read to its end, or makes the machine panic, within
  // as many bytes as the longest one has.
  lemma {:induction false} RepliesDecided(t: AddressText, version: int, chunks: seq<bytes>)
    requires SOCKS4 <= version <= SOCKS5 && Flatten(chunks) != []
    requires Flatten(chunks)[0] == if version == SOCKS5 then 5 else 0
    ensures var b, m := Flatten(chunks), FeedAll(RespProg(t), RespInitial(version), chunks, None).m;
            && (version != SOCKS5 ==> (m.cancelled <==> |b| >= 8 && !(0x5A <= b[1] <= 0x5D)))
            && (version == SOCKS5 && |b| >= 266 ==> m.index == 4 || m.cancelled || m.crashed)
  {
    var b := Flatten(chunks);
    RespGood(t);
    hide Run, FeedAll, Good;
    AnyCutEnds(RespProg(t), RespInitial(version), chunks, Run(RespProg(t), RespInitial(version).Push(b)));
    assert b == [b[0]] + b[1..];
    if version != SOCKS5 {
      Reply4Ends(t, version, b[1..]);
    } else if |b| >= 266 {
      Reply5Decided(t, b[1..]);
    }
  }

  // ---- What has been published on the way ----

  // A step that waits ends the run where it is.
  lemma {:induction false} Waits(t: AddressText, steps: seq<ReqStep>, index: nat, b: bytes, l: Req)
    requires ReqWf([ReqVersion] + steps, index, l) && 1 <= index <= 3
    requires ReqOutcome(t, ([ReqVersion] + steps)[index], b, l) == Outcome(Pause, b, l, [], false)
    ensures Run(ReqProg(t), At(steps, index, b, l)) == At(steps, index, b, l)
  {
    ReqGood(t);
    hide Good, ReqOutcome;
    var m := At(steps, index, b, l);
    assert m.steps + [] == m.steps;
    RunStep(ReqProg(t), m);
  }

  // A machine that has come there and waits has published the fields it has.
  lemma {:induction false} Stays(t: AddressText, steps: seq<ReqStep>, index: nat, b: bytes, l: Req, chunks: seq<bytes>)
    requires ReqWf([ReqVersion] + steps, index, l) && 1 <= index <= 3 && Flatten(chunks) != []
    requires ReqOutcome(t, ([ReqVersion] + steps)[index], b, l) == Outcome(Pause, b, l, [], false)
    requires Run(ReqProg(t), REQ_INITIAL.Push(Flatten(chunks))) == Run(ReqProg(t), At(steps, index, b, l))
    ensures var f := FeedAll(ReqProg(t), REQ_INITIAL, chunks, None);
            f.published == ReqView(l) && f.m.buf == b && !f.m.Stopped()
  {
    Waits(t, steps, index, b, l);
    ReqGood(t);
    hide Run, Good, FeedAll, ReqOutcome, ReqView;
    AnyCut(ReqProg(t), REQ_INITIAL, chunks, At(steps, index, b, l));
  }

  lemma {:induction false} NoNul(y: bytes)
    requires 0 !in y
    ensures Index(y, NUL).None?
  {
    IndexShift(y, [], NUL);
    assert y + [] == y;
  }

  lemma {:induction false} PacketWaits(t: AddressText, y: bytes, l: Req)
    requires |y| < 5
    ensures ReqOutcome(t, Req5ConnInfo, y, l) == Outcome(Pause, y, l, [], false)
  {
  }

  lemma {:induction false} NulWaits(t: AddressText, y: bytes, l: Req)
    requires 0 !in y
    ensures ReqOutcome(t, Req4UserId, y, l) == Outcome(Pause, y, l, [], false)
    ensures l.version == SOCKS4A ==> ReqOutcome(t, Req4Hostname, y, l) == Outcome(Pause, y, l, [], false)
  {
    NoNul(y);
  }

  lemma {:induction false} NothingWaits(t: AddressText, l: Req)
    ensures ReqOutcome(t, Req5Method, [], l) == Outcome(Pause, [], l, [], false)
    ensures ReqOutcome(t, Req4IpAndPort, [], l) == Outcome(Pause, [], l, [], false)
  {
  }

  // The first byte publishes the version.
  lemma {:induction false} CutVersion(t: AddressText, ver: byte, chunks: seq<bytes>)
    requires (ver == 4 || ver == 5) && Flatten(chunks) == [ver]
    ensures FeedAll(ReqProg(t), REQ_INITIAL, chunks, None).published ==
              Some(map["version" := Int(ver), "req" := Nested(map[])])
  {
    RunFirst(t, ver, []);
    assert [ver] + [] == [ver];
    var l := Req(Some(map[]), if ver == 5 then SOCKS5 else SOCKS4, 0, [], []);
    NothingWaits(t, l);
    hide Run, FeedAll, ReqOutcome;
    Stays(t, if ver == 5 then REQ5 else REQ4, 1, [], l, chunks);
  }

  // A SOCKS5 REQUEST THAT IS CUT SHORT behind the sub-negotiation has published the auth data.
  lemma {:induction false} CutRequest5(t: AddressText, methods: bytes, auth: Auth, y: bytes, chunks: seq<bytes>)
    requires |methods| < 0x100 && auth.Wf() && PickMethod(methods) == auth.Method() && |y| < 5
    requires Flatten(chunks) == [5] + ([|methods|] + methods + (auth.Encode() + y))
    ensures var f := FeedAll(ReqProg(t), REQ_INITIAL, chunks, None);
            && f.published == Some(map["version" := Int(5), "req" := Nested(map["auth" := auth.Entry()])])
            && f.m.buf == y && !f.m.Stopped()
  {
    hide Run, FeedAll, ReqOutcome, PickMethod, Auth.Encode;
    RunToPacket(t, methods, auth, y);
    PacketWaits(t, y, Authenticated(auth));
    Stays(t, REQ5, 3, y, Authenticated(auth), chunks);
  }

  // A SOCKS4 REQUEST THAT IS CUT SHORT has published its command, address and port after eight bytes,
  lemma {:induction false} CutRequest4(t: AddressText, r: Request4, y: bytes, chunks: seq<bytes>)
    requires r.Wf() && 0 !in y && Flatten(chunks) == [4] + ([r.cmd] + Put16(r.port) + r.ip + y)
    ensures var f := FeedAll(ReqProg(t), REQ_INITIAL, chunks, None);
            && f.published == Some(map["version" := Int(4), "req" := Nested(map["cmd" := U8(r.cmd),
                 "addr" := Text(t.v4(r.ip)), "addr_type" := Int(1), "port" := U16Val(r.port)])])
            && f.m.buf == y && !f.m.Stopped()
  {
    hide Run, FeedAll, ReqOutcome, Put16;
    RunToUserId(t, r, y);
    NulWaits(t, y, Addressed(t, r));
    Stays(t, REQ4, 2, y, Addressed(t, r), chunks);
  }

  // and its user ID with the NUL behind that.
  lemma {:induction false} CutRequest4A(t: AddressText, r: Request4, y: bytes, chunks: seq<bytes>)
    requires r.Wf() && r.Is4A() && 0 !in y
    requires Flatten(chunks) == [4] + ([r.cmd] + Put16(r.port) + r.ip + (r.userId + [0] + y))
    ensures var f := FeedAll(ReqProg(t), REQ_INITIAL, chunks, None);
            && f.published == Some(map["version" := Int(4), "req" := Nested(map["cmd" := U8(r.cmd),
                 "addr" := Text(t.v4(r.ip)), "addr_type" := Int(1), "port" := U16Val(r.port),
                   "auth" := Nested(map["user_id" := Text(r.userId)])])])
            && f.m.buf == y && !f.m.Stopped()
  {
    hide Run, FeedAll, ReqOutcome, Put16;
    RunToUserId(t, r, r.userId + [0] + y);
    RunToHostname(t, r, y);
    NulWaits(t, y, Identified(t, r));
    IdentifiedWf(t, r);
    Stays(t, REQ4, 3, y, Identified(t, r), chunks);
  }

  lemma {:induction false} ReplyWaits(t: AddressText, y: bytes, l: Resp)
    requires |y| < 5 && RespWf([RespVersion] + RESP5, 3, l.m)
    ensures Run(RespProg(t), R.At(RESP5, 3, true, y, l)) == R.At(RESP5, 3, true, y, l)
  {
    RespGood(t);
    hide Good;
    var m := R.At(RESP5, 3, true, y, l);
    assert m.steps + [] == m.steps;
    RunStep(RespProg(t), m);
    assert RespOutcome(t, Resp5ConnInfo, y, l) == Outcome(Pause, y, l, [], false);
  }

  // A SOCKS5 REPLY THAT IS CUT SHORT has published the method, and the status if there is one.
  lemma {:induction false} CutReply5(t: AddressText, password: bool, status: byte, y: bytes, chunks: seq<bytes>)
    requires |y| < 5
    requires Flatten(chunks) == [5] + ([if password then 2 else 0] + ((if password then [1, status] else []) + y))
    ensures var f := FeedAll(RespProg(t), RespInitial(SOCKS5), chunks, None);
            && f.published == Some(map["resp" := Nested(map["auth" := Nested(
                 if password then map["method" := Int(2), "status" := Int(status)] else map["method" := Int(0)])])])
            && f.m.buf == y && !f.m.Stopped()
  {
    var r := R.Response5(password, status, 0, 0, V4([0, 0, 0, 0]), 0);
    R.RunToPacket(t, r, y);
    RespGood(t);
    ReplyWaits(t, y, R.Authenticated(r));
    hide Run, Good, FeedAll, RespOutcome;
    AnyCut(RespProg(t), RespInitial(SOCKS5), chunks, R.At(RESP5, 3, true, y, R.Authenticated(r)));
  }
}
