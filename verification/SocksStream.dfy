/** The SOCKS stream (analyzer/tcp/socks.go) in its own form, proved against the steps of Socks. */
module SocksStreams {
  import opened Bytes
  import opened Props
  import opened ByteBuffers
  import opened Lsm
  import opened Socks

  class SocksStream {
    const t: AddressText

    const reqBuf: ByteBuffer
    var reqMap: Option<PropMap>
    var reqUpdated: bool
    const reqLSM: LinearStateMachine<ReqStep>
    var reqDone: bool

    const respBuf: ByteBuffer
    var respMap: Option<PropMap>
    var respUpdated: bool
    const respLSM: LinearStateMachine<RespStep>
    var respDone: bool

    var version: int

    var authReqMethod: byte
    var authUsername: bytes
    var authPassword: bytes

    var authRespMethod: byte

    // Set where a step of the direction panics; nothing is fed after that.
    var reqPanicked: bool
    var respPanicked: bool

    ghost function ReqFields(): Req
      reads `reqMap, `version, `authReqMethod, `authUsername, `authPassword
    {
      Req(reqMap, version, authReqMethod, authUsername, authPassword)
    }

    ghost function RespFields(): Resp
      reads `respMap, `version, `authRespMethod
    {
      Resp(respMap, version, authRespMethod)
    }

    ghost function ReqMachine(): Machine<ReqStep, Req>
      reads `reqMap, `version, `authReqMethod, `authUsername, `authPassword, `reqUpdated, `reqPanicked, reqBuf, reqLSM
    {
      Machine(reqLSM.Steps, reqLSM.index, reqLSM.cancelled, reqPanicked, reqUpdated, reqBuf.Buf, ReqFields())
    }

    ghost function RespMachine(): Machine<RespStep, Resp>
      reads `respMap, `version, `authRespMethod, `respUpdated, `respPanicked, respBuf, respLSM
    {
      Machine(respLSM.Steps, respLSM.index, respLSM.cancelled, respPanicked, respUpdated, respBuf.Buf, RespFields())
    }

    ghost predicate ValidReq()
      reads `reqMap, `version, `authReqMethod, `authUsername, `authPassword, `reqPanicked, `reqDone, reqLSM
    {
      && (!reqLSM.cancelled && !reqPanicked ==> ReqWf(reqLSM.Steps, reqLSM.index, ReqFields()))
      && (!reqLSM.cancelled ==> reqDone == (reqLSM.index >= |reqLSM.Steps|))
    }

    ghost predicate ValidResp()
      reads `respMap, `respPanicked, `respDone, respLSM
    {
      && (!respLSM.cancelled && !respPanicked ==> RespWf(respLSM.Steps, respLSM.index, respMap))
      && (!respLSM.cancelled ==> respDone == (respLSM.index >= |respLSM.Steps|))
    }

    ghost predicate Valid()
      reads this, reqLSM, respLSM
    {
      reqBuf != respBuf && ValidReq() && ValidResp()
    }

    constructor (t: AddressText)
      ensures Valid() && this.t == t && ReqMachine() == REQ_INITIAL && RespMachine() == RespInitial(INVALID)
      ensures fresh(reqBuf) && fresh(respBuf) && fresh(reqLSM) && fresh(respLSM)
    {
      this.t := t;
      reqBuf := new ByteBuffer([]);
      respBuf := new ByteBuffer([]);
      reqLSM := new LinearStateMachine([ReqVersion]);
      respLSM := new LinearStateMachine([RespVersion]);
      reqMap, reqUpdated, reqDone, reqPanicked := None, false, false, false;
      respMap, respUpdated, respDone, respPanicked := None, false, false, false;
      version, authReqMethod, authUsername, authPassword, authRespMethod := INVALID, 0, [], [], 0;
    }

    // ---- Request steps ----

    method ParseSocksReqVersion() returns (a: Action)
      modifies reqBuf, reqLSM`Steps, this`reqMap, this`reqUpdated, this`version
      ensures var o := StepReqVersion(old(reqBuf.Buf), old(ReqFields()));
              && a == o.action && reqBuf.Buf == o.rest && ReqFields() == o.local
              && reqLSM.Steps == old(reqLSM.Steps) + o.appended && reqUpdated == (old(reqUpdated) || o.updated)
    {
      assert reqLSM.Steps + [] == reqLSM.Steps;
      var socksVer, ok := reqBuf.GetByte(true);
      if !ok { return Pause; }
      if socksVer != 4 && socksVer != 5 { return Cancel; }
      reqMap := Some(map[]);
      reqUpdated := true;
      if socksVer == 4 {
        version := SOCKS4;
        reqLSM.AppendSteps(REQ4);
      } else {
        version := SOCKS5;
        reqLSM.AppendSteps(REQ5);
      }
      return Next;
    }

    method ParseSocks5ReqMethod() returns (a: Action)
      modifies reqBuf, this`authReqMethod
      ensures var o := StepReq5Method(old(reqBuf.Buf), old(ReqFields()));
              Outcome(a, reqBuf.Buf, ReqFields(), [], false) == o
    {
      ghost var b := reqBuf.Buf;
      var nMethods, ok := reqBuf.GetByte(false);
      if !ok { return Pause; }
      var methods: bytes;
      methods, ok := reqBuf.Get(nMethods as nat + 1, true);
      if !ok { return Pause; }
      assert methods[1..] == b[1..nMethods as nat + 1];
      authReqMethod := FirstMethod(methods[1..]);
      return Next;
    }

    // The loop over the offered methods.
    static method FirstMethod(methods: bytes) returns (r: byte)
      ensures r == PickMethod(methods)
    {
      for i := 0 to |methods|
        invariant PickMethod(methods[i..]) == PickMethod(methods)
      {
        assert methods[i..][1..] == methods[i + 1..];
        if methods[i] == NO_AUTH || methods[i] == PASSWORD {
          return methods[i];
        }
      }
      return NO_MATCH;
    }

    // The case of a user name and password.
    method ParsePassword() returns (a: Action)
      requires reqMap.Some? && authReqMethod == PASSWORD
      modifies reqBuf, this`reqMap, this`authUsername, this`authPassword
      ensures Outcome(a, reqBuf.Buf, ReqFields(), [], a.Next?) == StepReq5Auth(old(reqBuf.Buf), old(ReqFields()))
    {
      hide PasswordEntry;
      ghost var b := reqBuf.Buf;
      var meta, ok := reqBuf.Get(2, false);
      if !ok { return Pause; }
      if meta[0] != 1 { return Cancel; }
      var usernameLen := meta[1] as nat;
      meta, ok := reqBuf.Get(usernameLen + 3, false);
      if !ok { return Pause; }
      var passwordLen := meta[usernameLen + 2] as nat;
      meta, ok := reqBuf.Get(usernameLen + passwordLen + 3, true);
      if !ok { return Pause; }
      authUsername := meta[2..usernameLen + 2];
      authPassword := meta[usernameLen + 3..];
      assert authUsername == b[2..usernameLen + 2];
      assert authPassword == b[usernameLen + 3..usernameLen + passwordLen + 3];
      reqMap := Some(reqMap.value["auth" := PasswordEntry(authUsername, authPassword)]);
      return Next;
    }

    method ParseSocks5ReqAuth() returns (a: Action)
      requires reqMap.Some?
      modifies reqBuf, this`reqMap, this`reqUpdated, this`authUsername, this`authPassword
      ensures var o := StepReq5Auth(old(reqBuf.Buf), old(ReqFields()));
              && Outcome(a, reqBuf.Buf, ReqFields(), [], o.updated) == o
              && reqUpdated == (old(reqUpdated) || o.updated)
    {
      if authReqMethod == NO_AUTH {
        reqMap := Some(reqMap.value["auth" := Nested(map["method" := Int(0)])]);
      } else if authReqMethod == PASSWORD {
        a := ParsePassword();
        if a != Next { return; }
      } else {
        return Cancel;
      }
      reqUpdated := true;
      return Next;
    }

    method ParseSocks5ReqConnInfo() returns (a: Action)
      requires reqMap.Some?
      modifies reqBuf, this`reqMap, this`reqUpdated
      ensures var o := StepReq5ConnInfo(t, old(reqBuf.Buf), old(ReqFields()));
              && Outcome(a, reqBuf.Buf, ReqFields(), [], o.updated) == o
              && reqUpdated == (old(reqUpdated) || o.updated)
    {
      var preInfo, ok := reqBuf.Get(5, false);
      if !ok { return Pause; }
      if preInfo[0] != 5 { return Cancel; }
      var pktLen := PacketLen(preInfo[3], preInfo[4]);
      if pktLen.None? { return Cancel; }
      var pkt: bytes;
      pkt, ok := reqBuf.Get(pktLen.value, true);
      if !ok { return Pause; }
      var cmd := pkt[1];
      if cmd != 1 && cmd != 2 && cmd != 3 { return Cancel; }
      reqMap := Some(reqMap.value["cmd" := Int(cmd)]);
      var addr := Address(t, pkt);
      if addr.None? { return Crash; }
      reqMap := Some(reqMap.value["addr_type" := Int(pkt[3])]["addr" := Text(addr.value)]["port" := Int(Port(pkt))]);
      reqUpdated := true;
      return Next;
    }

    method ParseSocks4ReqIpAndPort() returns (a: Action)
      requires reqMap.Some?
      modifies reqBuf, this`reqMap, this`reqUpdated, this`version
      ensures var o := StepReq4IpAndPort(t, old(reqBuf.Buf), old(ReqFields()));
              && Outcome(a, reqBuf.Buf, ReqFields(), [], o.updated) == o
              && reqUpdated == (old(reqUpdated) || o.updated)
    {
      var pkt, ok := reqBuf.Get(7, true);
      if !ok { return Pause; }
      if pkt[0] != 1 && pkt[0] != 2 { return Cancel; }
      var dstPort := U16(pkt[1], pkt[2]);
      assert pkt[3..7] == old(reqBuf.Buf)[3..7];
      var dstIp := t.v4(pkt[3..7]);
      if pkt[3] == 0 && pkt[4] == 0 && pkt[5] == 0 {
        version := SOCKS4A;
      }
      reqMap := Some(reqMap.value["cmd" := U8(pkt[0])]["addr" := Text(dstIp)]["addr_type" := Int(1)]
                     ["port" := U16Val(dstPort)]);
      reqUpdated := true;
      return Next;
    }

    method ParseSocks4ReqUserId() returns (a: Action)
      requires reqMap.Some?
      modifies reqBuf, this`reqMap, this`reqUpdated
      ensures var o := StepReq4UserId(old(reqBuf.Buf), old(ReqFields()));
              && Outcome(a, reqBuf.Buf, ReqFields(), [], o.updated) == o
              && reqUpdated == (old(reqUpdated) || o.updated)
    {
      var userIdSlice, ok := reqBuf.GetUntil(NUL, true, true);
      if !ok { return Pause; }
      assert userIdSlice[..|userIdSlice| - 1] == old(reqBuf.Buf)[..Index(old(reqBuf.Buf), NUL).value];
      reqMap := Some(reqMap.value["auth" := Nested(map["user_id" := Text(userIdSlice[..|userIdSlice| - 1])])]);
      reqUpdated := true;
      return Next;
    }

    method ParseSocks4ReqHostname() returns (a: Action)
      requires reqMap.Some?
      modifies reqBuf, this`reqMap, this`reqUpdated
      ensures var o := StepReq4Hostname(old(reqBuf.Buf), old(ReqFields()));
              && Outcome(a, reqBuf.Buf, ReqFields(), [], o.updated) == o
              && reqUpdated == (old(reqUpdated) || o.updated)
    {
      if version != SOCKS4A { return Next; }
      var hostnameSlice, ok := reqBuf.GetUntil(NUL, true, true);
      if !ok { return Pause; }
      assert hostnameSlice[..|hostnameSlice| - 1] == old(reqBuf.Buf)[..Index(old(reqBuf.Buf), NUL).value];
      reqMap := Some(reqMap.value["addr" := Text(hostnameSlice[..|hostnameSlice| - 1])]["addr_type" := Int(3)]);
      reqUpdated := true;
      return Next;
    }

    method StepReq(id: ReqStep) returns (a: Action)
      requires id != ReqVersion ==> reqMap.Some?
      modifies reqBuf, reqLSM`Steps, this`reqMap, this`reqUpdated, this`version, this`authReqMethod,
               this`authUsername, this`authPassword
      ensures var o := ReqOutcome(t, id, old(reqBuf.Buf), old(ReqFields()));
              && a == o.action && reqBuf.Buf == o.rest && ReqFields() == o.local
              && reqLSM.Steps == old(reqLSM.Steps) + o.appended && reqUpdated == (old(reqUpdated) || o.updated)
    {
      assert reqLSM.Steps + [] == reqLSM.Steps;
      match id
      case ReqVersion => a := ParseSocksReqVersion();
      case Req5Method => a := ParseSocks5ReqMethod();
      case Req5Auth => a := ParseSocks5ReqAuth();
      case Req5ConnInfo => a := ParseSocks5ReqConnInfo();
      case Req4IpAndPort => a := ParseSocks4ReqIpAndPort();
      case Req4UserId => a := ParseSocks4ReqUserId();
      case Req4Hostname => a := ParseSocks4ReqHostname();
    }

    // One turn of the loop of reqLSM.Run().
    method TurnReq() returns (stop: bool, cancelled: bool, done: bool)
      requires reqLSM.index < |reqLSM.Steps| && (reqLSM.Steps[reqLSM.index] != ReqVersion ==> reqMap.Some?)
      modifies reqBuf, reqLSM, this`reqMap, this`reqUpdated, this`version, this`authReqMethod, this`authUsername,
               this`authPassword,
               this`reqPanicked
      ensures ReqMachine() == After(ReqProg(t), old(ReqMachine()))
      ensures stop == !Goes(ReqOutcome(t, old(reqLSM.Steps[reqLSM.index]), old(reqBuf.Buf), old(ReqFields())).action)
      ensures stop && !old(reqLSM.cancelled) ==> cancelled == done == reqLSM.cancelled
    {
      var action := StepReq(reqLSM.Steps[reqLSM.index]);
      if action == Crash {
        reqPanicked := true;
      }
      stop, cancelled, done := reqLSM.Answer(action);
    }

    // reqLSM.Run().
    method RunReq() returns (cancelled: bool, done: bool)
      requires ReqWf(reqLSM.Steps, reqLSM.index, ReqFields()) && !ReqMachine().Stopped() && !reqUpdated
      modifies reqBuf, reqLSM, this`reqMap, this`reqUpdated, this`version, this`authReqMethod, this`authUsername,
               this`authPassword,
               this`reqPanicked
      ensures ReqMachine() == Run(ReqProg(t), old(ReqMachine()))
      ensures cancelled == reqLSM.cancelled && done == (cancelled || reqLSM.index >= |reqLSM.Steps|)
      ensures !cancelled && !reqPanicked ==> ReqWf(reqLSM.Steps, reqLSM.index, ReqFields())
      ensures reqUpdated && !reqPanicked ==> ReqView(ReqFields()).Some?
    {
      ghost var p := ReqProg(t);
      done, cancelled := reqLSM.Finished();
      if done { return; }
      while reqLSM.index < |reqLSM.Steps|
        invariant ReqWf(reqLSM.Steps, reqLSM.index, ReqFields())
        invariant Run(p, ReqMachine()) == Run(p, old(ReqMachine()))
        invariant !reqLSM.cancelled && !reqPanicked && (reqUpdated ==> ReqView(ReqFields()).Some?)
        decreases Rank(p, ReqMachine())
      {
        ReqRunTurn(t, ReqMachine());
        var stop: bool;
        stop, cancelled, done := TurnReq();
        if stop { return; }
      }
      return false, true;
    }

    // ---- Response steps ----

    method ParseSocksRespVersion() returns (a: Action)
      modifies respBuf, respLSM`Steps
      ensures var o := StepRespVersion(old(respBuf.Buf), RespFields());
              && a == o.action && respBuf.Buf == o.rest && RespFields() == o.local && !o.updated
              && respLSM.Steps == old(respLSM.Steps) + o.appended
    {
      assert respLSM.Steps + [] == respLSM.Steps;
      var socksVer, ok := respBuf.GetByte(true);
      if !ok { return Pause; }
      if ((version == SOCKS4 || version == SOCKS4A) && socksVer != 0)
         || (version == SOCKS5 && socksVer != 5) || version == INVALID
      {
        return Cancel;
      }
      if socksVer == 0 {
        respLSM.AppendSteps(RESP4);
      } else {
        respLSM.AppendSteps(RESP5);
      }
      return Next;
    }

    method ParseSocks5RespMethod() returns (a: Action)
      modifies respBuf, this`respMap, this`authRespMethod
      ensures Outcome(a, respBuf.Buf, RespFields(), [], false) == StepResp5Method(old(respBuf.Buf), old(RespFields()))
    {
      var chosen, ok := respBuf.Get(1, true);
      if !ok { return Pause; }
      authRespMethod := chosen[0];
      respMap := Some(map[]);
      return Next;
    }

    method ParseSocks5RespAuth() returns (a: Action)
      requires respMap.Some?
      modifies respBuf, this`respMap, this`respUpdated
      ensures var o := StepResp5Auth(old(respBuf.Buf), old(RespFields()));
              && Outcome(a, respBuf.Buf, RespFields(), [], o.updated) == o
              && respUpdated == (old(respUpdated) || o.updated)
    {
      if authRespMethod == NO_AUTH {
        respMap := Some(respMap.value["auth" := Nested(map["method" := Int(0)])]);
      } else if authRespMethod == PASSWORD {
        var authResp, ok := respBuf.Get(2, true);
        if !ok { return Pause; }
        if authResp[0] != 1 { return Cancel; }
        respMap := Some(respMap.value["auth" := Nested(map["method" := Int(2), "status" := Int(authResp[1])])]);
      } else {
        return Cancel;
      }
      respUpdated := true;
      return Next;
    }

    method ParseSocks5RespConnInfo() returns (a: Action)
      requires respMap.Some?
      modifies respBuf, this`respMap, this`respUpdated
      ensures var o := StepResp5ConnInfo(t, old(respBuf.Buf), old(RespFields()));
              && Outcome(a, respBuf.Buf, RespFields(), [], o.updated) == o
              && respUpdated == (old(respUpdated) || o.updated)
    {
      var preInfo, ok := respBuf.Get(5, false);
      if !ok { return Pause; }
      if preInfo[0] != 5 { return Cancel; }
      var pktLen := PacketLen(preInfo[3], preInfo[4]);
      if pktLen.None? { return Cancel; }
      var pkt: bytes;
      pkt, ok := respBuf.Get(pktLen.value, true);
      if !ok { return Pause; }
      respMap := Some(respMap.value["rep" := Int(pkt[1])]);
      var addr := Address(t, pkt);
      if addr.None? { return Crash; }
      respMap := Some(respMap.value["addr_type" := Int(pkt[3])]["addr" := Text(addr.value)]["port" := Int(Port(pkt))]);
      respUpdated := true;
      return Next;
    }

    method ParseSocks4RespPacket() returns (a: Action)
      modifies respBuf, this`respMap, this`respUpdated
      ensures var o := StepResp4Packet(t, old(respBuf.Buf), old(RespFields()));
              && Outcome(a, respBuf.Buf, RespFields(), [], o.updated) == o
              && respUpdated == (old(respUpdated) || o.updated)
    {
      var pkt, ok := respBuf.Get(7, true);
      if !ok { return Pause; }
      if pkt[0] != 0x5A && pkt[0] != 0x5B && pkt[0] != 0x5C && pkt[0] != 0x5D { return Cancel; }
      assert pkt[3..7] == old(respBuf.Buf)[3..7];
      respMap := Some(map["rep" := U8(pkt[0]), "addr" := Text(t.v4(pkt[3..7])), "addr_type" := Int(1),
                          "port" := U16Val(U16(pkt[1], pkt[2]))]);
      respUpdated := true;
      return Next;
    }

    method StepResp(id: RespStep) returns (a: Action)
      requires id == Resp5Auth || id == Resp5ConnInfo ==> respMap.Some?
      modifies respBuf, respLSM`Steps, this`respMap, this`respUpdated, this`authRespMethod
      ensures var o := RespOutcome(t, id, old(respBuf.Buf), old(RespFields()));
              && a == o.action && respBuf.Buf == o.rest && RespFields() == o.local
              && respLSM.Steps == old(respLSM.Steps) + o.appended && respUpdated == (old(respUpdated) || o.updated)
    {
      assert respLSM.Steps + [] == respLSM.Steps;
      match id
      case RespVersion => a := ParseSocksRespVersion();
      case Resp5Method => a := ParseSocks5RespMethod();
      case Resp5Auth => a := ParseSocks5RespAuth();
      case Resp5ConnInfo => a := ParseSocks5RespConnInfo();
      case Resp4Packet => a := ParseSocks4RespPacket();
    }

    // One turn of the loop of respLSM.Run().
    method TurnResp() returns (stop: bool, cancelled: bool, done: bool)
      requires respLSM.index < |respLSM.Steps|
      requires respLSM.Steps[respLSM.index] == Resp5Auth || respLSM.Steps[respLSM.index] == Resp5ConnInfo ==>
                 respMap.Some?
      modifies respBuf, respLSM, this`respMap, this`respUpdated, this`authRespMethod, this`respPanicked
      ensures RespMachine() == After(RespProg(t), old(RespMachine()))
      ensures stop == !Goes(RespOutcome(t, old(respLSM.Steps[respLSM.index]), old(respBuf.Buf),
                old(RespFields())).action)
      ensures stop && !old(respLSM.cancelled) ==> cancelled == done == respLSM.cancelled
    {
      var action := StepResp(respLSM.Steps[respLSM.index]);
      if action == Crash {
        respPanicked := true;
      }
      stop, cancelled, done := respLSM.Answer(action);
    }

    // respLSM.Run().
    method RunResp() returns (cancelled: bool, done: bool)
      requires RespWf(respLSM.Steps, respLSM.index, respMap) && !RespMachine().Stopped() && !respUpdated
      modifies respBuf, respLSM, this`respMap, this`respUpdated, this`authRespMethod, this`respPanicked
      ensures RespMachine() == Run(RespProg(t), old(RespMachine()))
      ensures cancelled == respLSM.cancelled && done == (cancelled || respLSM.index >= |respLSM.Steps|)
      ensures !cancelled && !respPanicked ==> RespWf(respLSM.Steps, respLSM.index, respMap)
      ensures respUpdated && !respPanicked ==> RespView(RespFields()).Some?
    {
      ghost var p := RespProg(t);
      done, cancelled := respLSM.Finished();
      if done { return; }
      while respLSM.index < |respLSM.Steps|
        invariant RespWf(respLSM.Steps, respLSM.index, respMap)
        invariant Run(p, RespMachine()) == Run(p, old(RespMachine()))
        invariant !respLSM.cancelled && !respPanicked && (respUpdated ==> RespView(RespFields()).Some?)
        decreases Rank(p, RespMachine())
      {
        RespRunTurn(t, RespMachine());
        var stop: bool;
        stop, cancelled, done := TurnResp();
        if stop { return; }
      }
      return false, true;
    }

    // ---- Feed ----

    method FeedReq(data: bytes) returns (u: Option<PropUpdate>, cancelled: bool)
      requires ValidReq() && !reqLSM.cancelled && !reqPanicked && data != []
      modifies reqBuf, reqLSM, this`reqMap, this`reqUpdated, this`version, this`authReqMethod, this`authUsername,
               this`authPassword,
               this`reqPanicked, this`reqDone
      ensures ValidReq()
      ensures var (m, v) := Lsm.Feed(ReqProg(t), old(ReqMachine()), data);
              ReqMachine() == m && (!reqPanicked ==> u == (if v.Some? then Some(PropUpdate(Merge, v.value)) else None))
      ensures cancelled == reqLSM.cancelled && reqDone == (cancelled || reqLSM.index >= |reqLSM.Steps|)
    {
      reqBuf.Append(data);
      reqUpdated := false;
      assert ReqMachine() == old(ReqMachine()).Fresh().Push(data);
      cancelled, reqDone := RunReq();
      assert ReqProg(t).view(ReqFields()) == ReqView(ReqFields());
      ghost var r := ReqMachine();
      u := None;
      if reqUpdated && !reqPanicked {
        u := Some(PropUpdate(Merge, map["version" := Int(SocksVersion(version)), "req" := Nested(reqMap.value)]));
      }
      reqUpdated := false;
      assert ReqMachine() == r.Fresh();
    }

    method FeedResp(data: bytes) returns (u: Option<PropUpdate>, cancelled: bool)
      requires ValidResp() && !respLSM.cancelled && !respPanicked && data != []
      modifies respBuf, respLSM, this`respMap, this`respUpdated, this`authRespMethod, this`respPanicked, this`respDone
      ensures ValidResp()
      ensures var (m, v) := Lsm.Feed(RespProg(t), old(RespMachine()), data);
              && RespMachine() == m
              && (!respPanicked ==> u == (if v.Some? then Some(PropUpdate(Merge, v.value)) else None))
      ensures cancelled == respLSM.cancelled && respDone == (cancelled || respLSM.index >= |respLSM.Steps|)
    {
      respBuf.Append(data);
      respUpdated := false;
      assert RespMachine() == old(RespMachine()).Fresh().Push(data);
      cancelled, respDone := RunResp();
      assert RespProg(t).view(RespFields()) == RespView(RespFields());
      ghost var r := RespMachine();
      u := None;
      if respUpdated && !respPanicked {
        u := Some(PropUpdate(Merge, map["resp" := Nested(respMap.value)]));
      }
      respUpdated := false;
      assert RespMachine() == r.Fresh();
    }

    // The engine never feeds a stream that has been cancelled, and nothing runs after a panic.
    method Feed(rev: bool, skip: int, data: bytes) returns (u: Option<PropUpdate>, done: bool)
      requires Valid() && !reqLSM.cancelled && !respLSM.cancelled && !reqPanicked && !respPanicked
      modifies this, reqBuf, respBuf, reqLSM, respLSM
      ensures Valid()
      ensures skip != 0 || data == [] ==>
                && u == None && done == (skip != 0)
                && ReqMachine() == old(ReqMachine()) && RespMachine() == old(RespMachine())
      ensures skip == 0 && data != [] && !rev ==>
                var (m, v) := Lsm.Feed(ReqProg(t), old(ReqMachine()), data);
                && ReqMachine() == m && RespMachine() ==
                  old(RespMachine()).(local := old(RespFields()).(version := version))
                && (!reqPanicked ==> u == (if v.Some? then Some(PropUpdate(Merge, v.value)) else None))
      ensures skip == 0 && data != [] && rev ==>
                var (m, v) := Lsm.Feed(RespProg(t), old(RespMachine()), data);
                && RespMachine() == m && ReqMachine() == old(ReqMachine())
                && (!respPanicked ==> u == (if v.Some? then Some(PropUpdate(Merge, v.value)) else None))
      ensures skip == 0 && data != [] ==>
                done == (reqLSM.cancelled || respLSM.cancelled
                         || (reqLSM.index >= |reqLSM.Steps| && respLSM.index >= |respLSM.Steps|))
    {
      hide Lsm.Feed, ReqProg, RespProg, ReqWf, RespWf;
      if skip != 0 {
        return None, true;
      }
      if |data| == 0 {
        return None, false;
      }
      var cancelled: bool;
      if rev {
        u, cancelled := FeedResp(data);
      } else {
        u, cancelled := FeedReq(data);
      }
      done := cancelled || (reqDone && respDone);
    }
  }
}
