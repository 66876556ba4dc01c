/** What the SOCKS request machine extracts from every well-formed request, however it is cut. */
module SocksRoundTrip {
  import opened Bytes
  import opened Props
  import opened Lsm
  import opened Socks

  // ---- SOCKS5: sections 3 to 5 of RFC 1928, section 2 of RFC 1929 ----

  datatype Auth = NoAuth | UserPass(username: bytes, password: bytes)
  {
    predicate Wf() { UserPass? ==> |username| < 0x100 && |password| < 0x100 }

    function Method(): byte { if NoAuth? then 0 else 2 }

    function Encode(): bytes
      requires Wf()
    {
      if NoAuth? then [] else [1, |username|] + username + ([|password|] + password)
    }

    function Entry(): Value {
      if NoAuth? then Nested(map["method" := Int(0)])
      else Nested(map["method" := Int(2), "username" := Text(username), "password" := Text(password)])
    }
  }

  datatype Dest = V4(ip: bytes) | V6(ip: bytes) | Name(name: bytes)
  {
    predicate Wf() {
      match this
      case V4(ip) => |ip| == 4
      case V6(ip) => |ip| == 16
      case Name(name) => |name| < 0x100
    }

    function Type(): byte { if V4? then 1 else if V6? then 4 else 3 }

    function Encode(): (b: bytes)
      requires Wf()
    {
      match this
      case V4(ip) => ip
      case V6(ip) => ip
      case Name(name) => [|name|] + name
    }

    function Shown(t: AddressText): bytes {
      match this
      case V4(ip) => t.v4(ip)
      case V6(ip) => t.v6(ip)
      case Name(name) => name
    }

    // The names whose slice bound does not wrap.
    predicate Fits() { Name? ==> |name| <= 250 }
  }

  // A request or a reply: its code, the destination or bound address, and the port.
  function PacketOf(code: byte, rsv: byte, dest: Dest, port: u16): (p: bytes)
    requires dest.Wf()
    ensures |p| >= 7
  {
    [5, code, rsv, dest.Type()] + (dest.Encode() + Put16(port))
  }

  datatype Request5 = Request5(methods: bytes, auth: Auth, cmd: byte, rsv: byte, dest: Dest, port: u16)
  {
    predicate Wf() {
      && |methods| < 0x100 && auth.Wf() && PickMethod(methods) == auth.Method()
      && 1 <= cmd <= 3 && dest.Wf()
    }

    function Greeting(): bytes
      requires Wf()
    {
      [|methods|] + methods
    }

    function Packet(): bytes
      requires Wf()
    {
      PacketOf(cmd, rsv, dest, port)
    }

    function Encode(): bytes
      requires Wf()
    {
      [5] + Greeting() + auth.Encode() + Packet()
    }

    function Fields(t: AddressText): PropMap {
      map["auth" := auth.Entry(), "cmd" := Int(cmd), "addr_type" := Int(dest.Type()),
          "addr" := Text(dest.Shown(t)), "port" := Int(port)]
    }
  }

  lemma {:induction false} AuthBytes(username: bytes, password: bytes, x: bytes)
    requires |username| < 0x100 && |password| < 0x100
    ensures var u, p := |username|, |password|;
            var b := [1, u] + username + ([p] + password) + x;
            && |b| >= u + p + 3 && b[0] == 1 && b[1] == u && b[2..u + 2] == username
            && b[u + 2] == p && b[u + 3..u + p + 3] == password && b[u + p + 3..] == x
  {
    var u, p := |username|, |password|;
    var b := [1, u] + username + ([p] + password) + x;
    assert b == [1, u] + (username + ([p] + (password + x)));
  }

  lemma {:induction false} AuthStep(auth: Auth, x: bytes, l: Req)
    requires auth.Wf() && l.chosen == auth.Method() && l.m.Some?
    ensures var l' := if auth.NoAuth? then l else l.(username := auth.username, password := auth.password);
            StepReq5Auth(auth.Encode() + x, l) ==
              Outcome(Next, x, l'.(m := Some(l.m.value["auth" := auth.Entry()])), [], true)
  {
    var b := auth.Encode() + x;
    if auth.NoAuth? {
      assert b[0..] == x;
    } else {
      AuthBytes(auth.username, auth.password, x);
    }
  }

  lemma {:induction false} GreetingStep(methods: bytes, x: bytes, l: Req)
    requires |methods| < 0x100
    ensures StepReq5Method([|methods|] + methods + x, l) ==
              Outcome(Next, x, l.(chosen := PickMethod(methods)), [], false)
  {
    ReadCounted(methods, x);
  }

  lemma {:induction false} PacketRead(code: byte, rsv: byte, dest: Dest, port: u16, x: bytes)
    requires dest.Wf()
    ensures var p := PacketOf(code, rsv, dest, port);
            && ReadPacket(p + x) == Whole(p) && (p + x)[|p|..] == x
            && p[1] == code && p[3] == dest.Type() && Port(p) == port && PacketLen(p[3], p[4]) == Some(|p|)
  {
    var p := PacketOf(code, rsv, dest, port);
    var b := p + x;
    assert b[..|p|] == p;
    assert p[4] == (dest.Encode() + Put16(port))[0];
    assert [p[|p| - 2], p[|p| - 1]] == Put16(port);
  }

  lemma {:induction false} Middle(h: bytes, e: bytes, x: bytes)
    ensures (h + (e + x))[|h|..|h| + |e|] == e
  {
  }

  // The address a packet shows, when its slice does not panic.
  lemma {:induction false} ShownAddress(t: AddressText, p: bytes, dest: Dest)
    requires dest.Wf() && |p| == 6 + |dest.Encode()| && p[3] == dest.Type()
    requires p[4..|p| - 2] == dest.Encode()
    ensures PacketLen(p[3], p[4]) == Some(|p|)
    ensures Address(t, p) == if dest.Fits() then Some(dest.Shown(t)) else None
  {
    if dest.Name? {
      var q := p[4..|p| - 2];
      assert p[4] == q[0] == |dest.name|;
      assert p[5..|p| - 2] == q[1..] == dest.name;
    }
  }

  lemma {:induction false} PacketAddress(t: AddressText, code: byte, rsv: byte, dest: Dest, port: u16)
    requires dest.Wf()
    ensures var p := PacketOf(code, rsv, dest, port);
            && PacketLen(p[3], p[4]) == Some(|p|)
            && Address(t, p) == if dest.Fits() then Some(dest.Shown(t)) else None
  {
    hide Address, PacketLen, Put16;
    var p := PacketOf(code, rsv, dest, port);
    Middle([5, code, rsv, dest.Type()], dest.Encode(), Put16(port));
    ShownAddress(t, p, dest);
  }

  lemma {:induction false} ConnInfoStep(t: AddressText, r: Request5, x: bytes, l: Req)
    requires r.Wf() && l.m.Some?
    ensures var m := l.m.value["cmd" := Int(r.cmd)];
            StepReq5ConnInfo(t, r.Packet() + x, l) ==
              if r.dest.Fits() then
                Outcome(Next, x, l.(m := Some(m["addr_type" := Int(r.dest.Type())]["addr" := Text(r.dest.Shown(t))]
                                               ["port" := Int(r.port)])), [], true)
              else Outcome(Crash, x, l.(m := Some(m)), [], false)
  {
    hide PacketOf, ReadPacket, Address, PacketLen;
    PacketRead(r.cmd, r.rsv, r.dest, r.port, x);
    PacketAddress(t, r.cmd, r.rsv, r.dest, r.port);
  }

  // The request machine once it has seen the version byte.
  function At(steps: seq<ReqStep>, index: nat, buf: bytes, l: Req): Machine<ReqStep, Req> {
    Machine([ReqVersion] + steps, index, false, false, true, buf, l)
  }

  lemma {:induction false} RunFirst(t: AddressText, ver: byte, y: bytes)
    requires ver == 4 || ver == 5
    ensures Run(ReqProg(t), REQ_INITIAL.Push([ver] + y)) ==
              Run(ReqProg(t), At(if ver == 5 then REQ5 else REQ4, 1, y,
                                 Req(Some(map[]), if ver == 5 then SOCKS5 else SOCKS4, 0, [], [])))
  {
    ReqGood(t);
    hide Good, Run;
    var m := REQ_INITIAL.Push([ver] + y);
    assert m.buf == [ver] + y;
    assert m.buf[1..] == y;
    RunNext(ReqProg(t), m, ReqOutcome(t, ReqVersion, m.buf, m.local));
  }

  lemma {:induction false} RunThen(t: AddressText, steps: seq<ReqStep>, index: nat, b: bytes, l: Req,
      o: Outcome<ReqStep, Req>)
    requires ReqWf([ReqVersion] + steps, index, l) && 1 <= index <= 3
    requires o == ReqOutcome(t, ([ReqVersion] + steps)[index], b, l) && o.action.Next? && o.appended == []
    ensures ReqWf([ReqVersion] + steps, index + 1, o.local)
    ensures Run(ReqProg(t), At(steps, index, b, l)) == Run(ReqProg(t), At(steps, index + 1, o.rest, o.local))
  {
    ReqGood(t);
    assert [ReqVersion] + steps + [] == [ReqVersion] + steps;
    RunNext(ReqProg(t), At(steps, index, b, l), o);
  }

  // The fields once the sub-negotiation is over.
  function Authenticated(auth: Auth): Req {
    var l := Req(Some(map["auth" := auth.Entry()]), SOCKS5, auth.Method(), [], []);
    if auth.NoAuth? then l else l.(username := auth.username, password := auth.password)
  }

  lemma {:induction false} Regroup5(r: Request5, x: bytes)
    requires r.Wf()
    ensures r.Encode() + x == [5] + ([|r.methods|] + r.methods + (r.auth.Encode() + (r.Packet() + x)))
  {
  }

  // The machine up to the connection request, with anything in its place.
  lemma {:induction false} RunToPacket(t: AddressText, methods: bytes, auth: Auth, y: bytes)
    requires |methods| < 0x100 && auth.Wf() && PickMethod(methods) == auth.Method()
    ensures Run(ReqProg(t), REQ_INITIAL.Push([5] + ([|methods|] + methods + (auth.Encode() + y)))) ==
              Run(ReqProg(t), At(REQ5, 3, y, Authenticated(auth)))
  {
    var y2 := auth.Encode() + y;
    var y1 := [|methods|] + methods + y2;
    RunFirst(t, 5, y1);
    var l1 := Req(Some(map[]), SOCKS5, 0, [], []);
    GreetingStep(methods, y2, l1);
    RunThen(t, REQ5, 1, y1, l1, ReqOutcome(t, Req5Method, y1, l1));
    var l2 := l1.(chosen := auth.Method());
    AuthStep(auth, y, l2);
    RunThen(t, REQ5, 2, y2, l2, ReqOutcome(t, Req5Auth, y2, l2));
  }

  lemma {:induction false} RunToConnInfo(t: AddressText, r: Request5, x: bytes)
    requires r.Wf()
    ensures Run(ReqProg(t), REQ_INITIAL.Push(r.Encode() + x)) ==
              Run(ReqProg(t), At(REQ5, 3, r.Packet() + x, Authenticated(r.auth)))
  {
    Regroup5(r, x);
    RunToPacket(t, r.methods, r.auth, r.Packet() + x);
  }

  // The request machine at its last step.
  lemma {:induction false} RunConnInfo(t: AddressText, r: Request5, x: bytes)
    requires r.Wf() && r.dest.Fits()
    ensures Run(ReqProg(t), At(REQ5, 3, r.Packet() + x, Authenticated(r.auth))) ==
              At(REQ5, 4, x, Authenticated(r.auth).(m := Some(r.Fields(t))))
  {
    hide PacketOf, StepReq5ConnInfo;
    var l := Authenticated(r.auth);
    ConnInfoStep(t, r, x, l);
    var l' := l.(m := Some(r.Fields(t)));
    assert ReqOutcome(t, Req5ConnInfo, r.Packet() + x, l) == Outcome(Next, x, l', [], true);
    RunThen(t, REQ5, 3, r.Packet() + x, l, Outcome(Next, x, l', [], true));
  }

  lemma {:induction false} RunRequest5(t: AddressText, r: Request5, x: bytes)
    requires r.Wf() && r.dest.Fits()
    ensures Run(ReqProg(t), REQ_INITIAL.Push(r.Encode() + x)) ==
              At(REQ5, 4, x, Authenticated(r.auth).(m := Some(r.Fields(t))))
  {
    RunToConnInfo(t, r, x);
    RunConnInfo(t, r, x);
  }

  // SOCKS5 ROUND TRIP. Cut anywhere and followed by anything, a well-formed exchange whose
  // domain fits ends the machine behind its fourth step with exactly its fields. The step list
  // has grown from one to four.
  lemma {:induction false} Request5ThroughMachine(t: AddressText, r: Request5, x: bytes, chunks: seq<bytes>)
    requires r.Wf() && r.dest.Fits() && Flatten(chunks) == r.Encode() + x
    ensures var f := FeedAll(ReqProg(t), REQ_INITIAL, chunks, None);
            && f.m.steps == [ReqVersion] + REQ5 && f.m.index == 4 && !f.m.Stopped()
            && f.m.buf == x && f.unfed == []
            && f.m.local.m == Some(r.Fields(t))
            && f.published == Some(map["version" := Int(5), "req" := Nested(r.Fields(t))])
  {
    RunRequest5(t, r, x);
    ReqGood(t);
    AnyCut(ReqProg(t), REQ_INITIAL, chunks, At(REQ5, 4, x, Authenticated(r.auth).(m := Some(r.Fields(t)))));
  }

  lemma {:induction false} RunPanics(t: AddressText, r: Request5, x: bytes)
    requires r.Wf() && !r.dest.Fits()
    ensures Run(ReqProg(t), REQ_INITIAL.Push(r.Encode() + x)).crashed
  {
    RunToConnInfo(t, r, x);
    var l := Authenticated(r.auth);
    var m := At(REQ5, 3, r.Packet() + x, l);
    ConnInfoStep(t, r, x, l);
    hide PacketOf, Run, StepReq5ConnInfo;
    assert m.steps[m.index] == Req5ConnInfo;
    assert ReqOutcome(t, Req5ConnInfo, m.buf, l).action.Crash?;
    RunCrash(ReqProg(t), m);
  }

  // A domain of more than 250 bytes, and nothing else, makes the machine panic.
  lemma {:induction false} Request5Panics(t: AddressText, r: Request5, x: bytes, chunks: seq<bytes>)
    requires r.Wf() && Flatten(chunks) == r.Encode() + x
    ensures FeedAll(ReqProg(t), REQ_INITIAL, chunks, None).m.crashed <==> !r.dest.Fits()
  {
    if r.dest.Fits() {
      Request5ThroughMachine(t, r, x, chunks);
    } else {
      RunPanics(t, r, x);
      ReqGood(t);
      AnyCutEnds(ReqProg(t), REQ_INITIAL, chunks, Run(ReqProg(t), REQ_INITIAL.Push(r.Encode() + x)));
    }
  }

  // ---- SOCKS4 and 4A ----

  datatype Request4 = Request4(cmd: byte, port: u16, ip: bytes, userId: bytes, hostname: bytes)
  {
    // A request is 4A when the first three bytes of its address are zero; only then a host name follows.
    predicate Is4A()
      requires |ip| == 4
    {
      ip[0] == 0 && ip[1] == 0 && ip[2] == 0
    }

    predicate Wf() {
      && (cmd == 1 || cmd == 2) && |ip| == 4 && 0 !in userId && 0 !in hostname
      && (!Is4A() ==> hostname == [])
    }

    function Encode(): bytes
      requires Wf()
    {
      [4] + ([cmd] + Put16(port) + ip) + (userId + [0]) + (if Is4A() then hostname + [0] else [])
    }

    function Fields(t: AddressText): PropMap
      requires Wf()
    {
      map["cmd" := U8(cmd), "port" := U16Val(port), "auth" := Nested(map["user_id" := Text(userId)]),
          "addr" := Text(if Is4A() then hostname else t.v4(ip)),
          "addr_type" := Int(if Is4A() then 3 else 1)]
    }
  }

  lemma {:induction false} IpAndPortStep(t: AddressText, r: Request4, x: bytes, l: Req)
    requires r.Wf() && l.m.Some?
    ensures StepReq4IpAndPort(t, [r.cmd] + Put16(r.port) + r.ip + x, l) ==
              Outcome(Next, x, l.(version := if r.Is4A() then SOCKS4A else l.version,
                                  m := Some(l.m.value["cmd" := U8(r.cmd)]["addr" := Text(t.v4(r.ip))]
                                            ["addr_type" := Int(1)]["port" := U16Val(r.port)])), [], true)
  {
    var b := [r.cmd] + Put16(r.port) + r.ip + x;
    assert b[3..7] == r.ip && b[7..] == x;
    assert b[3] == r.ip[0] && b[4] == r.ip[1] && b[5] == r.ip[2];
    assert [b[1], b[2]] == Put16(r.port);
  }

  lemma {:induction false} UserIdStep(userId: bytes, x: bytes, l: Req)
    requires 0 !in userId && l.m.Some?
    ensures StepReq4UserId(userId + NUL + x, l) ==
              Outcome(Next, x, l.(m := Some(l.m.value["auth" := Nested(map["user_id" := Text(userId)])])), [], true)
  {
    IndexOfFirst(userId, NUL, x);
  }

  lemma {:induction false} HostnameStep(r: Request4, x: bytes, l: Req)
    requires r.Wf() && l.m.Some? && (l.version == SOCKS4A <==> r.Is4A())
    ensures var m := if r.Is4A() then l.m.value["addr" := Text(r.hostname)]["addr_type" := Int(3)] else l.m.value;
            StepReq4Hostname((if r.Is4A() then r.hostname + NUL else []) + x, l) ==
              Outcome(Next, x, l.(m := Some(m)), [], r.Is4A())
  {
    if r.Is4A() {
      IndexOfFirst(r.hostname, NUL, x);
    } else {
      assert [] + x == x;
    }
  }

  lemma {:induction false} Regroup4(r: Request4, x: bytes)
    requires r.Wf()
    ensures r.Encode() + x ==
              [4] + ([r.cmd] + Put16(r.port) + r.ip + (r.userId + NUL + ((if r.Is4A() then r.hostname + NUL
                else []) + x)))
  {
  }

  // The fields once the address and port are read.
  function Addressed(t: AddressText, r: Request4): Req
    requires r.Wf()
  {
    Req(Some(map["cmd" := U8(r.cmd), "addr" := Text(t.v4(r.ip)), "addr_type" := Int(1), "port" := U16Val(r.port)]),
        if r.Is4A() then SOCKS4A else SOCKS4, 0, [], [])
  }

  lemma {:induction false} RunToUserId(t: AddressText, r: Request4, y: bytes)
    requires r.Wf()
    ensures Run(ReqProg(t), REQ_INITIAL.Push([4] + ([r.cmd] + Put16(r.port) + r.ip + y))) ==
              Run(ReqProg(t), At(REQ4, 2, y, Addressed(t, r)))
  {
    var y1 := [r.cmd] + Put16(r.port) + r.ip + y;
    RunFirst(t, 4, y1);
    var l1 := Req(Some(map[]), SOCKS4, 0, [], []);
    IpAndPortStep(t, r, y, l1);
    RunThen(t, REQ4, 1, y1, l1, ReqOutcome(t, Req4IpAndPort, y1, l1));
  }

  // The fields once the user ID is read, too.
  function Identified(t: AddressText, r: Request4): Req
    requires r.Wf()
  {
    var l := Addressed(t, r);
    l.(m := Some(l.m.value["auth" := Nested(map["user_id" := Text(r.userId)])]))
  }

  lemma {:induction false} RunToHostname(t: AddressText, r: Request4, y: bytes)
    requires r.Wf()
    ensures Run(ReqProg(t), At(REQ4, 2, r.userId + NUL + y, Addressed(t, r))) ==
              Run(ReqProg(t), At(REQ4, 3, y, Identified(t, r)))
  {
    var l := Addressed(t, r);
    UserIdStep(r.userId, y, l);
    RunThen(t, REQ4, 2, r.userId + NUL + y, l, Outcome(Next, y, Identified(t, r), [], true));
  }

  // What the host name step leaves.
  lemma {:induction false} LastFields(t: AddressText, r: Request4)
    requires r.Wf()
    ensures var m := Identified(t, r).m.value;
            (if r.Is4A() then m["addr" := Text(r.hostname)]["addr_type" := Int(3)] else m) == r.Fields(t)
  {
  }

  lemma {:induction false} IdentifiedWf(t: AddressText, r: Request4)
    requires r.Wf()
    ensures ReqWf([ReqVersion] + REQ4, 3, Identified(t, r))
  {
  }

  lemma {:induction false} RunHostname(t: AddressText, r: Request4, x: bytes) returns (l: Req)
    requires r.Wf()
    ensures Run(ReqProg(t), At(REQ4, 3, (if r.Is4A() then r.hostname + NUL else []) + x, Identified(t, r))) ==
              At(REQ4, 4, x, l)
    ensures l.m == Some(r.Fields(t)) && SocksVersion(l.version) == 4
  {
    var y, l0 := (if r.Is4A() then r.hostname + NUL else []) + x, Identified(t, r);
    HostnameStep(r, x, l0);
    IdentifiedWf(t, r);
    LastFields(t, r);
    hide StepReq4Hostname, Run, ReqWf, Identified;
    l := l0.(m := Some(r.Fields(t)));
    assert ReqOutcome(t, Req4Hostname, y, l0) == Outcome(Next, x, l, [], r.Is4A());
    RunThen(t, REQ4, 3, y, l0, Outcome(Next, x, l, [], r.Is4A()));
  }

  lemma {:induction false} RunRequest4(t: AddressText, r: Request4, x: bytes) returns (l: Req)
    requires r.Wf()
    ensures Run(ReqProg(t), REQ_INITIAL.Push(r.Encode() + x)) == At(REQ4, 4, x, l)
    ensures l.m == Some(r.Fields(t)) && SocksVersion(l.version) == 4
  {
    var y3 := (if r.Is4A() then r.hostname + NUL else []) + x;
    var y2 := r.userId + NUL + y3;
    Regroup4(r, x);
    RunToUserId(t, r, y2);
    RunToHostname(t, r, y3);
    l := RunHostname(t, r, x);
  }

  // SOCKS4 ROUND TRIP.
  lemma {:induction false} Request4ThroughMachine(t: AddressText, r: Request4, x: bytes, chunks: seq<bytes>)
    requires r.Wf() && Flatten(chunks) == r.Encode() + x
    ensures var f := FeedAll(ReqProg(t), REQ_INITIAL, chunks, None);
            && f.m.steps == [ReqVersion] + REQ4 && f.m.index == 4 && !f.m.Stopped()
            && f.m.buf == x && f.unfed == []
            && f.m.local.m == Some(r.Fields(t))
            && f.published == Some(map["version" := Int(4), "req" := Nested(r.Fields(t))])
  {
    var l := RunRequest4(t, r, x);
    ReqGood(t);
    AnyCut(ReqProg(t), REQ_INITIAL, chunks, At(REQ4, 4, x, l));
  }
}
