/** SOCKS 4, 4A and 5 (analyzer/tcp/socks.go): the steps of both directions and what they extract. */
module Socks {
  import opened Bytes
  import opened Props
  import opened Lsm

  // Text forms of the two kinds of IP address.
  datatype AddressText = AddressText(v4: bytes -> bytes, v6: bytes -> bytes)

  // s.version: nothing seen yet, 4, 4A or 5.
  const INVALID: int := 0
  const SOCKS4: int := 1
  const SOCKS4A: int := 2
  const SOCKS5: int := 3

  const NO_AUTH: byte := 0x00
  const PASSWORD: byte := 0x02
  const NO_MATCH: byte := 0xFF

  const IPV4: byte := 0x01
  const DOMAIN: byte := 0x03
  const IPV6: byte := 0x04

  const NUL: bytes := [0]

  function SocksVersion(version: int): int {
    if version == SOCKS4 || version == SOCKS4A then 4 else if version == SOCKS5 then 5 else 0
  }

  datatype ReqStep = ReqVersion | Req5Method | Req5Auth | Req5ConnInfo | Req4IpAndPort | Req4UserId | Req4Hostname

  datatype RespStep = RespVersion | Resp5Method | Resp5Auth | Resp5ConnInfo | Resp4Packet

  const REQ5: seq<ReqStep> := [Req5Method, Req5Auth, Req5ConnInfo]
  const REQ4: seq<ReqStep> := [Req4IpAndPort, Req4UserId, Req4Hostname]
  const RESP5: seq<RespStep> := [Resp5Method, Resp5Auth, Resp5ConnInfo]
  const RESP4: seq<RespStep> := [Resp4Packet]

  // The fields the request steps work on.
  datatype Req = Req(m: Option<PropMap>, version: int, chosen: byte, username: bytes, password: bytes)

  // The fields the response steps work on; they only read the version.
  datatype Resp = Resp(m: Option<PropMap>, version: int, chosen: byte)

  // The i-th method is this one, and none before it can be handled.
  predicate PickedAt(methods: bytes, i: nat, r: byte) {
    i < |methods| && methods[i] == r && 0 !in methods[..i] && 2 !in methods[..i]
  }

  lemma {:induction false} PickedLater(methods: bytes, i: nat, r: byte)
    requires methods != [] && methods[0] != 0 && methods[0] != 2 && PickedAt(methods[1..], i, r)
    ensures PickedAt(methods, i + 1, r)
  {
    assert methods[..i + 1] == [methods[0]] + methods[1..][..i];
  }

  // The first method that can be handled.
  function PickMethod(methods: bytes): (r: byte)
    ensures r == 0xFF <==> 0 !in methods && 2 !in methods
    ensures r != 0xFF ==> (r == 0 || r == 2) && exists i: nat :: PickedAt(methods, i, r)
  {
    if methods == [] then NO_MATCH
    else if methods[0] == NO_AUTH || methods[0] == PASSWORD then
      assert PickedAt(methods, 0, methods[0]);
      methods[0]
    else
      var r := PickMethod(methods[1..]);
      assert methods == [methods[0]] + methods[1..];
      assert r != 0xFF ==> exists i: nat :: PickedAt(methods, i, r) by {
        if r != 0xFF {
          var i: nat :| PickedAt(methods[1..], i, r);
          PickedLater(methods, i, r);
        }
      }
      r
  }

  // The length of a SOCKS5 request or reply from its address type and the byte behind it.
  function PacketLen(addrType: byte, next: byte): Option<nat> {
    if addrType == IPV4 then Some(10)
    else if addrType == DOMAIN then Some(7 + next as nat)
    else if addrType == IPV6 then Some(22)
    else None
  }

  // A whole request or reply at the front of the buffer, or the reason why there is none.
  datatype Packet = More | Bad | Whole(p: bytes)

  function ReadPacket(b: bytes): (r: Packet)
    ensures r.Whole? ==> 7 <= |r.p| <= |b| && r.p == b[..|r.p|] && PacketLen(r.p[3], r.p[4]) == Some(|r.p|)
  {
    if |b| < 5 then More
    else if b[0] != 5 || PacketLen(b[3], b[4]).None? then Bad
    else if |b| < PacketLen(b[3], b[4]).value then More
    else Whole(b[..PacketLen(b[3], b[4]).value])
  }

  lemma {:induction false} ReadPacketAppend(b: bytes, x: bytes)
    ensures !ReadPacket(b).More? ==> ReadPacket(b + x) == ReadPacket(b)
    ensures ReadPacket(b).Whole? ==> (b + x)[|ReadPacket(b).p|..] == b[|ReadPacket(b).p|..] + x
  {
    if ReadPacket(b).Whole? {
      TakeAppend(b, |ReadPacket(b).p|, x);
    }
  }

  // The address of a packet. The upper bound of the domain slice, 5 + length, is computed in
  // eight bits: from 251 on it wraps below 5 and slicing panics.
  function Address(t: AddressText, p: bytes): Option<bytes>
    requires |p| >= 7 && PacketLen(p[3], p[4]) == Some(|p|)
  {
    if p[3] == IPV4 then Some(t.v4(p[4..8]))
    else if p[3] == DOMAIN then
      var end := (5 + p[4] as nat) % 0x100;
      if end < 5 then None else Some(p[5..end])
    else Some(t.v6(p[4..20]))
  }

  function Port(p: bytes): nat
    requires |p| >= 2
  {
    U16(p[|p| - 2], p[|p| - 1])
  }

  function Done<Id, L>(b: bytes, n: nat, l: L): Outcome<Id, L>
    requires n <= |b|
  {
    Outcome(Next, b[n..], l, [], true)
  }

  function Wait<Id, L>(b: bytes, l: L): Outcome<Id, L> { Outcome(Pause, b, l, [], false) }

  function Stop<Id, L>(a: Action, b: bytes, n: nat, l: L): Outcome<Id, L>
    requires n <= |b|
  {
    Outcome(a, b[n..], l, [], false)
  }

  // ---- Request steps ----

  function StepReqVersion(b: bytes, l: Req): Outcome<ReqStep, Req> {
    if |b| < 1 then Wait(b, l)
    else if b[0] != 4 && b[0] != 5 then Stop(Cancel, b, 1, l)
    else if b[0] == 4 then Outcome(Next, b[1..], l.(m := Some(map[]), version := SOCKS4), REQ4, true)
    else Outcome(Next, b[1..], l.(m := Some(map[]), version := SOCKS5), REQ5, true)
  }

  function StepReq5Method(b: bytes, l: Req): Outcome<ReqStep, Req> {
    if |b| < 1 || |b| - 1 < b[0] then Wait(b, l)
    else
      var n := b[0] as nat + 1;
      Outcome(Next, b[n..], l.(chosen := PickMethod(b[1..n])), [], false)
  }

  // The auth entry for a password negotiation.
  function PasswordEntry(username: bytes, password: bytes): Value {
    Nested(map["method" := Int(2), "username" := Text(username), "password" := Text(password)])
  }

  function StepReq5Auth(b: bytes, l: Req): Outcome<ReqStep, Req> {
    if l.chosen == NO_AUTH then
      if l.m.None? then Stop(Crash, b, 0, l)
      else Done(b, 0, l.(m := Some(l.m.value["auth" := Nested(map["method" := Int(0)])])))
    else if l.chosen == PASSWORD then
      if |b| < 2 then Wait(b, l)
      else if b[0] != 1 then Stop(Cancel, b, 0, l)
      else
        var u := b[1] as nat;
        if |b| < u + 3 then Wait(b, l)
        else
          var n := u + b[u + 2] as nat + 3;
          if |b| < n then Wait(b, l)
          else
            var l' := l.(username := b[2..u + 2], password := b[u + 3..n]);
            if l.m.None? then Stop(Crash, b, n, l')
            else Done(b, n, l'.(m := Some(l.m.value["auth" := PasswordEntry(l'.username, l'.password)])))
    else Stop(Cancel, b, 0, l)
  }

  // The outcome of a request packet, with these bytes behind it.
  function RequestPacket(t: AddressText, p: bytes, l: Req, rest: bytes): Outcome<ReqStep, Req>
    requires |p| >= 7 && PacketLen(p[3], p[4]) == Some(|p|)
  {
    if p[1] != 1 && p[1] != 2 && p[1] != 3 then Outcome(Cancel, rest, l, [], false)
    else if l.m.None? then Outcome(Crash, rest, l, [], false)
    else
      var m := l.m.value["cmd" := Int(p[1])];
      match Address(t, p)
      case None => Outcome(Crash, rest, l.(m := Some(m)), [], false)
      case Some(addr) =>
        Outcome(Next, rest, l.(m := Some(m["addr_type" := Int(p[3])]["addr" := Text(addr)]["port" := Int(Port(p))])),
          [], true)
  }

  function StepReq5ConnInfo(t: AddressText, b: bytes, l: Req): Outcome<ReqStep, Req> {
    match ReadPacket(b)
    case More => Wait(b, l)
    case Bad => Stop(Cancel, b, 0, l)
    case Whole(p) => RequestPacket(t, p, l, b[|p|..])
  }

  function StepReq4IpAndPort(t: AddressText, b: bytes, l: Req): Outcome<ReqStep, Req> {
    if |b| < 7 then Wait(b, l)
    else if b[0] != 1 && b[0] != 2 then Stop(Cancel, b, 7, l)
    else
      var l' := if b[3] == 0 && b[4] == 0 && b[5] == 0 then l.(version := SOCKS4A) else l;
      if l.m.None? then Stop(Crash, b, 7, l')
      else
        Done(b, 7, l'.(m := Some(l.m.value["cmd" := U8(b[0])]["addr" := Text(t.v4(b[3..7]))]
                                 ["addr_type" := Int(1)]["port" := U16Val(U16(b[1], b[2]))])))
  }

  function StepReq4UserId(b: bytes, l: Req): Outcome<ReqStep, Req> {
    match Index(b, NUL)
    case None => Wait(b, l)
    case Some(i) =>
      if l.m.None? then Stop(Crash, b, i + 1, l)
      else Done(b, i + 1, l.(m := Some(l.m.value["auth" := Nested(map["user_id" := Text(b[..i])])])))
  }

  function StepReq4Hostname(b: bytes, l: Req): Outcome<ReqStep, Req> {
    if l.version != SOCKS4A then Outcome(Next, b, l, [], false)
    else
      match Index(b, NUL)
      case None => Wait(b, l)
      case Some(i) =>
        if l.m.None? then Stop(Crash, b, i + 1, l)
        else Done(b, i + 1, l.(m := Some(l.m.value["addr" := Text(b[..i])]["addr_type" := Int(3)])))
  }

  function ReqOutcome(t: AddressText, id: ReqStep, b: bytes, l: Req): Outcome<ReqStep, Req> {
    match id
    case ReqVersion => StepReqVersion(b, l)
    case Req5Method => StepReq5Method(b, l)
    case Req5Auth => StepReq5Auth(b, l)
    case Req5ConnInfo => StepReq5ConnInfo(t, b, l)
    case Req4IpAndPort => StepReq4IpAndPort(t, b, l)
    case Req4UserId => StepReq4UserId(b, l)
    case Req4Hostname => StepReq4Hostname(b, l)
  }

  // ---- Response steps ----

  function StepRespVersion(b: bytes, l: Resp): Outcome<RespStep, Resp> {
    if |b| < 1 then Wait(b, l)
    else if ((l.version == SOCKS4 || l.version == SOCKS4A) && b[0] != 0)
            || (l.version == SOCKS5 && b[0] != 5) || l.version == INVALID then Stop(Cancel, b, 1, l)
    else Outcome(Next, b[1..], l, if b[0] == 0 then RESP4 else RESP5, false)
  }

  function StepResp5Method(b: bytes, l: Resp): Outcome<RespStep, Resp> {
    if |b| < 1 then Wait(b, l)
    else Outcome(Next, b[1..], l.(chosen := b[0], m := Some(map[])), [], false)
  }

  function StepResp5Auth(b: bytes, l: Resp): Outcome<RespStep, Resp> {
    if l.chosen == NO_AUTH then
      if l.m.None? then Stop(Crash, b, 0, l)
      else Done(b, 0, l.(m := Some(l.m.value["auth" := Nested(map["method" := Int(0)])])))
    else if l.chosen == PASSWORD then
      if |b| < 2 then Wait(b, l)
      else if b[0] != 1 then Stop(Cancel, b, 2, l)
      else if l.m.None? then Stop(Crash, b, 2, l)
      else Done(b, 2, l.(m := Some(l.m.value["auth" := Nested(map["method" := Int(2), "status" := Int(b[1])])])))
    else Stop(Cancel, b, 0, l)
  }

  // The outcome of a response packet, with these bytes behind it.
  function ResponsePacket(t: AddressText, p: bytes, l: Resp, rest: bytes): Outcome<RespStep, Resp>
    requires |p| >= 7 && PacketLen(p[3], p[4]) == Some(|p|)
  {
    if l.m.None? then Outcome(Crash, rest, l, [], false)
    else
      var m := l.m.value["rep" := Int(p[1])];
      match Address(t, p)
      case None => Outcome(Crash, rest, l.(m := Some(m)), [], false)
      case Some(addr) =>
        Outcome(Next, rest, l.(m := Some(m["addr_type" := Int(p[3])]["addr" := Text(addr)]["port" := Int(Port(p))])),
          [], true)
  }

  function StepResp5ConnInfo(t: AddressText, b: bytes, l: Resp): Outcome<RespStep, Resp> {
    match ReadPacket(b)
    case More => Wait(b, l)
    case Bad => Stop(Cancel, b, 0, l)
    case Whole(p) => ResponsePacket(t, p, l, b[|p|..])
  }

  function StepResp4Packet(t: AddressText, b: bytes, l: Resp): Outcome<RespStep, Resp> {
    if |b| < 7 then Wait(b, l)
    else if !(0x5A <= b[0] <= 0x5D) then Stop(Cancel, b, 7, l)
    else
      Done(b, 7, l.(m := Some(map["rep" := U8(b[0]), "addr" := Text(t.v4(b[3..7])), "addr_type" := Int(1),
                                  "port" := U16Val(U16(b[1], b[2]))])))
  }

  function RespOutcome(t: AddressText, id: RespStep, b: bytes, l: Resp): Outcome<RespStep, Resp> {
    match id
    case RespVersion => StepRespVersion(b, l)
    case Resp5Method => StepResp5Method(b, l)
    case Resp5Auth => StepResp5Auth(b, l)
    case Resp5ConnInfo => StepResp5ConnInfo(t, b, l)
    case Resp4Packet => StepResp4Packet(t, b, l)
  }

  // ---- The two machines ----

  predicate ReqWf(steps: seq<ReqStep>, index: nat, l: Req) {
    || (steps == [ReqVersion] && index == 0 && l.m.None?)
    || (steps == [ReqVersion] + REQ5 && 1 <= index <= 4 && l.m.Some? && l.version == SOCKS5)
    || (steps == [ReqVersion] + REQ4 && 1 <= index <= 4 && l.m.Some? && (l.version == SOCKS4 || l.version == SOCKS4A))
  }

  predicate RespWf(steps: seq<RespStep>, index: nat, m: Option<PropMap>) {
    || (steps == [RespVersion] && index == 0 && m.None?)
    || (steps == [RespVersion] + RESP5 && 1 <= index <= 4
        && (index == 1 ==> m.None?) && (index == 2 ==> m == Some(map[]))
        && (index >= 3 ==> m.Some? && "auth" in m.value))
    || (steps == [RespVersion] + RESP4 && 1 <= index <= 2 && (index == 1 ==> m.None?)
        && (index == 2 ==> m.Some? && "rep" in m.value))
  }

  function ReqView(l: Req): Option<PropMap> {
    if l.m.Some? then Some(map["version" := Int(SocksVersion(l.version)), "req" := Nested(l.m.value)]) else None
  }

  // A map without an auth or reply entry has not been published yet.
  function RespView(l: Resp): Option<PropMap> {
    if l.m.Some? && ("auth" in l.m.value || "rep" in l.m.value) then Some(map["resp" := Nested(l.m.value)]) else None
  }

  function StepsLeft(steps: nat, index: nat): nat {
    if index == 0 then 4 else if index < steps then steps - index else 0
  }

  function ReqProg(t: AddressText): Program<ReqStep, Req> {
    Program((id, b, l) => ReqOutcome(t, id, b, l), (steps, index, l) => ReqWf(steps, index, l),
            (steps: seq<ReqStep>, index, len) => StepsLeft(|steps|, index), l => ReqView(l))
  }

  function RespProg(t: AddressText): Program<RespStep, Resp> {
    Program((id, b, l) => RespOutcome(t, id, b, l), (steps, index, l: Resp) => RespWf(steps, index, l.m),
            (steps: seq<RespStep>, index, len) => StepsLeft(|steps|, index), l => RespView(l))
  }

  lemma {:induction false} UserIdAppend(b: bytes, x: bytes, l: Req)
    requires Index(b, NUL).Some?
    ensures StepReq4UserId(b + x, l) == StepReq4UserId(b, l).(rest := StepReq4UserId(b, l).rest + x)
  {
    IndexAppend(b, NUL, x);
    TakeAppend(b, Index(b, NUL).value, x);
    TakeAppend(b, Index(b, NUL).value + 1, x);
  }

  lemma {:induction false} HostnameAppend(b: bytes, x: bytes, l: Req)
    requires !StepReq4Hostname(b, l).action.Pause?
    ensures StepReq4Hostname(b + x, l) == StepReq4Hostname(b, l).(rest := StepReq4Hostname(b, l).rest + x)
  {
    hide Index;
    if l.version == SOCKS4A {
      IndexAppend(b, NUL, x);
      TakeAppend(b, Index(b, NUL).value, x);
      TakeAppend(b, Index(b, NUL).value + 1, x);
    }
  }

  lemma {:induction false} AuthAppend(b: bytes, x: bytes, l: Req)
    requires !StepReq5Auth(b, l).action.Pause?
    ensures StepReq5Auth(b + x, l) == StepReq5Auth(b, l).(rest := StepReq5Auth(b, l).rest + x)
  {
    if l.chosen == PASSWORD && b[0] == 1 {
      var u := b[1] as nat;
      var n := u + b[u + 2] as nat + 3;
      TakeAppend(b, n, x);
      assert (b + x)[2..u + 2] == b[2..u + 2] && (b + x)[u + 3..n] == b[u + 3..n];
    } else {
      TakeAppend(b, 0, x);
    }
  }

  lemma {:induction false} VersionAppend(b: bytes, x: bytes, l: Req)
    requires !StepReqVersion(b, l).action.Pause?
    ensures StepReqVersion(b + x, l) == StepReqVersion(b, l).(rest := StepReqVersion(b, l).rest + x)
  {
    TakeAppend(b, 1, x);
  }

  lemma {:induction false} MethodAppend(b: bytes, x: bytes, l: Req)
    requires !StepReq5Method(b, l).action.Pause?
    ensures StepReq5Method(b + x, l) == StepReq5Method(b, l).(rest := StepReq5Method(b, l).rest + x)
  {
    var n := b[0] as nat + 1;
    TakeAppend(b, n, x);
    assert (b + x)[1..n] == b[1..n];
  }

  lemma {:induction false} ConnInfoAppend(t: AddressText, b: bytes, x: bytes, l: Req)
    requires !StepReq5ConnInfo(t, b, l).action.Pause?
    ensures StepReq5ConnInfo(t, b + x, l) == StepReq5ConnInfo(t, b, l).(rest := StepReq5ConnInfo(t, b, l).rest + x)
  {
    assert b + x == b[0..] + x;
    ReadPacketAppend(b, x);
  }

  lemma {:induction false} IpAndPortAppend(t: AddressText, b: bytes, x: bytes, l: Req)
    requires !StepReq4IpAndPort(t, b, l).action.Pause?
    ensures StepReq4IpAndPort(t, b + x, l) == StepReq4IpAndPort(t, b, l).(rest := StepReq4IpAndPort(t, b, l).rest + x)
  {
    TakeAppend(b, 7, x);
    assert (b + x)[3..7] == b[3..7];
  }

  lemma {:induction false} ReqOutcomeAppend(t: AddressText, id: ReqStep, b: bytes, x: bytes, l: Req)
    requires !ReqOutcome(t, id, b, l).action.Pause?
    ensures var o := ReqOutcome(t, id, b, l); ReqOutcome(t, id, b + x, l) == o.(rest := o.rest + x)
  {
    match id
    case ReqVersion => VersionAppend(b, x, l);
    case Req5Method => MethodAppend(b, x, l);
    case Req5Auth => AuthAppend(b, x, l);
    case Req5ConnInfo => ConnInfoAppend(t, b, x, l);
    case Req4IpAndPort => IpAndPortAppend(t, b, x, l);
    case Req4UserId => UserIdAppend(b, x, l);
    case Req4Hostname => HostnameAppend(b, x, l);
  }

  lemma {:induction false} RespAuthAppend(b: bytes, x: bytes, l: Resp)
    requires !StepResp5Auth(b, l).action.Pause?
    ensures StepResp5Auth(b + x, l) == StepResp5Auth(b, l).(rest := StepResp5Auth(b, l).rest + x)
  {
    TakeAppend(b, 0, x);
    if l.chosen == PASSWORD {
      TakeAppend(b, 2, x);
    }
  }

  lemma {:induction false} RespConnInfoAppend(t: AddressText, b: bytes, x: bytes, l: Resp)
    requires !StepResp5ConnInfo(t, b, l).action.Pause?
    ensures StepResp5ConnInfo(t, b + x, l) == StepResp5ConnInfo(t, b, l).(rest := StepResp5ConnInfo(t, b, l).rest + x)
  {
    assert b + x == b[0..] + x;
    ReadPacketAppend(b, x);
  }

  lemma {:induction false} Resp4PacketAppend(t: AddressText, b: bytes, x: bytes, l: Resp)
    requires !StepResp4Packet(t, b, l).action.Pause?
    ensures StepResp4Packet(t, b + x, l) == StepResp4Packet(t, b, l).(rest := StepResp4Packet(t, b, l).rest + x)
  {
    TakeAppend(b, 7, x);
    assert (b + x)[3..7] == b[3..7];
  }

  lemma {:induction false} RespOutcomeAppend(t: AddressText, id: RespStep, b: bytes, x: bytes, l: Resp)
    requires !RespOutcome(t, id, b, l).action.Pause?
    ensures var o := RespOutcome(t, id, b, l); RespOutcome(t, id, b + x, l) == o.(rest := o.rest + x)
  {
    match id
    case RespVersion => TakeAppend(b, 1, x);
    case Resp5Method => TakeAppend(b, 1, x);
    case Resp5Auth => RespAuthAppend(b, x, l);
    case Resp5ConnInfo => RespConnInfoAppend(t, b, x, l);
    case Resp4Packet => Resp4PacketAppend(t, b, x, l);
  }

  lemma {:induction false} ReqPausesClean(t: AddressText, id: ReqStep, b: bytes, l: Req)
    requires ReqOutcome(t, id, b, l).action.Pause?
    ensures ReqOutcome(t, id, b, l) == Wait(b, l)
  {
  }

  lemma {:induction false} ReqStable(t: AddressText)
    ensures Stable(ReqProg(t))
  {
    var p := ReqProg(t);
    forall id, b, l | p.step(id, b, l).action.Pause?
      ensures p.step(id, b, l) == Wait(b, l)
    {
      ReqPausesClean(t, id, b, l);
    }
    forall id, b, x, l | !p.step(id, b, l).action.Pause?
      ensures p.step(id, b + x, l) == p.step(id, b, l).(rest := p.step(id, b, l).rest + x)
    {
      ReqOutcomeAppend(t, id, b, x, l);
    }
  }

  // One turn of the request machine: where it may stand afterwards and what it may publish.
  lemma {:induction false} ReqAdvances(t: AddressText, m: Machine<ReqStep, Req>)
    ensures Advances(ReqProg(t), m)
  {
    if ReqWf(m.steps, m.index, m.local) && m.index < |m.steps| {
      var id := m.steps[m.index];
      var o := ReqOutcome(t, id, m.buf, m.local);
      assert id != ReqVersion ==> o.appended == [] && m.steps + [] == m.steps;
    }
  }

  lemma {:induction false} ReqTells(t: AddressText, m: Machine<ReqStep, Req>)
    ensures Tells(ReqProg(t), m)
  {
    if ReqWf(m.steps, m.index, m.local) && m.index < |m.steps| {
      var id := m.steps[m.index];
      var o := ReqOutcome(t, id, m.buf, m.local);
      assert id != ReqVersion ==> o.appended == [] && m.steps + [] == m.steps;
    }
  }

  lemma {:induction false} ReqGood(t: AddressText)
    ensures Good(ReqProg(t))
  {
    ReqStable(t);
    forall m ensures Advances(ReqProg(t), m) && Tells(ReqProg(t), m) {
      ReqAdvances(t, m);
      ReqTells(t, m);
    }
  }

  lemma {:induction false} RespStable(t: AddressText)
    ensures Stable(RespProg(t))
  {
    var p := RespProg(t);
    forall id, b, x, l | !p.step(id, b, l).action.Pause?
      ensures p.step(id, b + x, l) == p.step(id, b, l).(rest := p.step(id, b, l).rest + x)
    {
      RespOutcomeAppend(t, id, b, x, l);
    }
  }

  lemma {:induction false} RespAdvances(t: AddressText, m: Machine<RespStep, Resp>)
    ensures Advances(RespProg(t), m)
  {
    if RespWf(m.steps, m.index, m.local.m) && m.index < |m.steps| {
      var id := m.steps[m.index];
      var o := RespOutcome(t, id, m.buf, m.local);
      assert id != RespVersion ==> o.appended == [] && m.steps + [] == m.steps;
    }
  }

  lemma {:induction false} RespTells(t: AddressText, m: Machine<RespStep, Resp>)
    ensures Tells(RespProg(t), m)
  {
    if RespWf(m.steps, m.index, m.local.m) && m.index < |m.steps| {
      var id := m.steps[m.index];
      var o := RespOutcome(t, id, m.buf, m.local);
      assert id != RespVersion ==> o.appended == [] && m.steps + [] == m.steps;
    }
  }

  // With the version fixed, the response steps too meet the conditions of the theorem.
  lemma {:induction false} RespGood(t: AddressText)
    ensures Good(RespProg(t))
  {
    RespStable(t);
    forall m ensures Advances(RespProg(t), m) && Tells(RespProg(t), m) {
      RespAdvances(t, m);
      RespTells(t, m);
    }
  }

  const REQ_INITIAL: Machine<ReqStep, Req> :=
    Machine([ReqVersion], 0, false, false, false, [], Req(None, INVALID, 0, [], []))

  function RespInitial(version: int): Machine<RespStep, Resp> {
    Machine([RespVersion], 0, false, false, false, [], Resp(None, version, 0))
  }

  // One turn of the loop of Run.
  lemma {:induction false} ReqRunTurn(t: AddressText, m: Machine<ReqStep, Req>)
    requires ReqWf(m.steps, m.index, m.local) && m.index < |m.steps|
    ensures var p, o := ReqProg(t), ReqOutcome(t, m.steps[m.index], m.buf, m.local);
            var n := After(p, m);
            && (if Goes(o.action) then Rank(p, n) < Rank(p, m) && Run(p, m) == Run(p, n) else Run(p, m) == n)
            && (!o.action.Cancel? && !o.action.Crash? ==> ReqWf(n.steps, n.index, n.local))
            && ((m.updated ==> ReqView(m.local).Some?) && n.updated && !o.action.Crash? ==> ReqView(n.local).Some?)
  {
    ReqGood(t);
    RunStep(ReqProg(t), m);
    assert Tells(ReqProg(t), m);
    assert m.steps + [] == m.steps;
  }

  // One turn of the loop of Run.
  lemma {:induction false} RespRunTurn(t: AddressText, m: Machine<RespStep, Resp>)
    requires RespWf(m.steps, m.index, m.local.m) && m.index < |m.steps|
    ensures var p, o := RespProg(t), RespOutcome(t, m.steps[m.index], m.buf, m.local);
            var n := After(p, m);
            && (if Goes(o.action) then Rank(p, n) < Rank(p, m) && Run(p, m) == Run(p, n) else Run(p, m) == n)
            && (!o.action.Cancel? && !o.action.Crash? ==> RespWf(n.steps, n.index, n.local.m))
            && ((m.updated ==> RespView(m.local).Some?) && n.updated && !o.action.Crash? ==> RespView(n.local).Some?)
  {
    RespGood(t);
    RunStep(RespProg(t), m);
    assert Tells(RespProg(t), m);
    assert m.steps + [] == m.steps;
  }

}
