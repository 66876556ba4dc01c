/** The TLS stream analyzer (analyzer/tcp/tls.go). */
module TlsStreams {
  import opened Bytes
  import opened Props
  import opened ByteBuffers
  import opened Lsm
  import opened TlsHello
  import TlsParser

  datatype Side = Client | Server
  {
    function HelloType(): byte { if Client? then 1 else 2 }

    function MinDataSize(): nat { if Client? then 41 else 38 }

    function Parse(b: bytes): Option<PropMap> { if Client? then ParseClientHello(b) else ParseServerHello(b) }
  }

  datatype StepId = Preprocess | ParseData

  // The fields of one direction: the extracted map and the announced length of the hello.
  datatype Half = Half(m: Option<PropMap>, helloLen: nat)

  const HEADERS_SIZE: nat := 9
  const RECORD_TYPE_HANDSHAKE: byte := 0x16

  function Step(side: Side, id: StepId, b: bytes, l: Half): Outcome<StepId, Half> {
    match id
    case Preprocess =>
      if |b| < HEADERS_SIZE then Outcome(Pause, b, l, [], false)
      else if b[0] != RECORD_TYPE_HANDSHAKE || b[5] != side.HelloType()
        then Outcome(Cancel, b[HEADERS_SIZE..], l, [], false)
      else
        var l' := l.(helloLen := U24(b[6], b[7], b[8]));
        Outcome(if l'.helloLen < side.MinDataSize() then Cancel else Next, b[HEADERS_SIZE..], l', [], false)
    case ParseData =>
      if |b| < l.helloLen then Outcome(Pause, b, l, [], false)
      else
        match side.Parse(b[..l.helloLen])
        case None => Outcome(Cancel, b[l.helloLen..], l, [], false)
        case Some(m) => Outcome(Next, b[l.helloLen..], l.(m := Some(m)), [], true)
  }

  function Prog(side: Side): Program<StepId, Half> {
    Program((id, b, l) => Step(side, id, b, l),
            (steps, index, l) => true,
            (steps: seq<StepId>, index, len) => if index < |steps| then |steps| - index else 0,
            (l: Half) => l.m)
  }

  lemma {:induction false} StepAppend(side: Side, id: StepId, b: bytes, x: bytes, l: Half)
    requires !Step(side, id, b, l).action.Pause?
    ensures var o := Step(side, id, b, l); Step(side, id, b + x, l) == o.(rest := o.rest + x)
  {
    TakeAppend(b, if id.Preprocess? then HEADERS_SIZE else l.helloLen, x);
  }

  // The TLS steps meet the conditions of the chunk-independence theorem.
  lemma {:induction false} ProgGood(side: Side)
    ensures Good(Prog(side))
  {
    var p := Prog(side);
    forall id, b, x, l | !p.step(id, b, l).action.Pause?
      ensures p.step(id, b + x, l) == p.step(id, b, l).(rest := p.step(id, b, l).rest + x)
    {
      StepAppend(side, id, b, x, l);
    }
    forall m ensures Advances(p, m) && Tells(p, m) {}
  }

  // One turn of the loop of Run.
  lemma {:induction false} RunTurn(side: Side, m: Machine<StepId, Half>)
    requires m.index < |m.steps|
    ensures var p, o := Prog(side), Step(side, m.steps[m.index], m.buf, m.local);
            if Goes(o.action) then
              Rank(p, After(p, m)) < Rank(p, m) && Run(p, m) == Run(p, After(p, m))
            else Run(p, m) == After(p, m)
  {
    ProgGood(side);
    RunStep(Prog(side), m);
  }

  const INITIAL: Machine<StepId, Half> :=
    Machine([Preprocess, ParseData], 0, false, false, false, [], Half(None, 0))

  // ---- A hello in one handshake record ----

  function Record(side: Side, version: u16, recordLen: u16, body: bytes): bytes
    requires |body| < 0x100_0000
  {
    [0x16] + Put16(version) + Put16(recordLen) + [if side.Client? then 1 else 2] + Put24(|body|) + body
  }

  lemma {:induction false} StepHeader(side: Side, version: u16, recordLen: u16, body: bytes, x: bytes, l: Half)
    requires side.MinDataSize() <= |body| < 0x100_0000
    ensures Step(side, Preprocess, Record(side, version, recordLen, body) + x, l) ==
              Outcome(Next, body + x, l.(helloLen := |body|), [], false)
  {
    var front := [0x16] + Put16(version) + Put16(recordLen) + [if side.Client? then 1 else 2];
    var b := Record(side, version, recordLen, body) + x;
    hide Put16, U24;
    Assoc(front + Put24(|body|), body, x);
    assert |front| == 6 && front[0] == 0x16 && front[5] == if side.Client? then 1 else 2;
    HeaderParts(front, Put24(|body|), body + x);
  }

  lemma {:induction false} HeaderParts(front: bytes, len: bytes, rest: bytes)
    requires |front| == 6 && |len| == 3
    ensures var b := front + len + rest;
            && |b| == 9 + |rest| && b[0] == front[0] && b[5] == front[5] && b[9..] == rest
            && b[6] == len[0] && b[7] == len[1] && b[8] == len[2]
  {
  }

  lemma {:induction false} StepBody(side: Side, body: bytes, x: bytes, l: Half)
    requires side.Parse(body).Some? && l.helloLen == |body|
    ensures Step(side, ParseData, body + x, l) == Outcome(Next, x, l.(m := side.Parse(body)), [], true)
  {
    assert (body + x)[..|body|] == body && (body + x)[|body|..] == x;
  }

  // What the machine does with a record whose body parses, in one piece.
  lemma {:induction false} RunRecord(side: Side, version: u16, recordLen: u16, body: bytes, x: bytes)
    requires side.MinDataSize() <= |body| < 0x100_0000 && side.Parse(body).Some?
    ensures Run(Prog(side), INITIAL.Push(Record(side, version, recordLen, body) + x)) ==
              INITIAL.(index := 2, updated := true, buf := x, local := Half(side.Parse(body), |body|))
  {
    ProgGood(side);
    var m0 := INITIAL.Push(Record(side, version, recordLen, body) + x);
    var l := Half(None, |body|);
    assert INITIAL.steps + [] == INITIAL.steps;
    StepHeader(side, version, recordLen, body, x, m0.local);
    assert m0.buf == Record(side, version, recordLen, body) + x;
    RunNext(Prog(side), m0, Outcome(Next, body + x, l, [], false));
    StepBody(side, body, x, l);
    RunNext(Prog(side), m0.(index := 1, buf := body + x, local := l),
      Outcome(Next, x, l.(m := side.Parse(body)), [], true));
  }

  // HELLO ROUND TRIP THROUGH THE MACHINE. Every hello, in one record, cut anywhere and followed
  // by anything, ends the machine with exactly the fields it encodes, published once.
  lemma {:induction false} HelloThroughMachine(side: Side, version: u16, recordLen: u16, body: bytes, x: bytes,
      chunks: seq<bytes>)
    requires side.MinDataSize() <= |body| < 0x100_0000 && side.Parse(body).Some?
    requires Flatten(chunks) == Record(side, version, recordLen, body) + x
    ensures FeedAll(Prog(side), INITIAL, chunks, None) ==
              Fed(INITIAL.(index := 2, buf := x, local := Half(side.Parse(body), |body|)), [], side.Parse(body))
  {
    RunRecord(side, version, recordLen, body, x);
    ProgGood(side);
    AnyCut(Prog(side), INITIAL, chunks, Run(Prog(side), INITIAL.Push(Record(side, version, recordLen, body) + x)));
  }

  lemma {:induction false} ClientHelloThroughMachine(h: ClientHello, version: u16, recordLen: u16, x: bytes,
      chunks: seq<bytes>)
    requires h.Wf() && 41 <= |h.Encode()| < 0x100_0000
    requires Flatten(chunks) ==
               [0x16] + Put16(version) + Put16(recordLen) + [1] + Put24(|h.Encode()|) + h.Encode() + x
    ensures var f := FeedAll(Prog(Client), INITIAL, chunks, None);
            f.published == Some(h.Fields()) && f.m.local.m == Some(h.Fields())
            && f.m.index == 2 && !f.m.Stopped() && f.m.buf == x
  {
    ClientHelloRoundTrip(h);
    HelloThroughMachine(Client, version, recordLen, h.Encode(), x, chunks);
  }

  lemma {:induction false} ServerHelloThroughMachine(h: ServerHello, version: u16, recordLen: u16, x: bytes,
      chunks: seq<bytes>)
    requires h.Wf() && |h.Encode()| < 0x100_0000
    requires Flatten(chunks) ==
               [0x16] + Put16(version) + Put16(recordLen) + [2] + Put24(|h.Encode()|) + h.Encode() + x
    ensures var f := FeedAll(Prog(Server), INITIAL, chunks, None);
            f.published == Some(h.Fields()) && f.m.local.m == Some(h.Fields())
            && f.m.index == 2 && !f.m.Stopped() && f.m.buf == x
  {
    ServerHelloRoundTrip(h);
    HelloThroughMachine(Server, version, recordLen, h.Encode(), x, chunks);
  }

  // What the first nine bytes of a direction decide.
  function Announced(b: bytes): nat
    requires |b| >= 9
  {
    0x1_0000 * (b[6] as nat) + 0x100 * (b[7] as nat) + b[8] as nat
  }

  predicate HelloAhead(side: Side, b: bytes)
    requires |b| >= 9
  {
    && b[0] == 0x16 && b[5] == (if side.Client? then 1 else 2)
    && Announced(b) >= (if side.Client? then 41 else 38)
  }

  lemma {:induction false} StepAhead(side: Side, b: bytes, l: Half)
    requires |b| >= 9
    ensures var o := Step(side, Preprocess, b, l);
            if HelloAhead(side, b) then o == Outcome(Next, b[9..], l.(helloLen := Announced(b)), [], false)
            else o.action.Cancel? && !o.updated && o.local.m == l.m
  {
  }

  lemma {:induction false} RunAhead(side: Side, b: bytes)
    requires |b| >= 9
    ensures var r := Run(Prog(side), INITIAL.Push(b));
            if HelloAhead(side, b) then
              r == Run(Prog(side), INITIAL.(index := 1, buf := b[9..], local := Half(None, Announced(b))))
            else r.cancelled && r.index == 0 && !r.updated && !r.crashed
  {
    ProgGood(side);
    var p, m := Prog(side), INITIAL.Push(b);
    assert m.buf == b && m.steps + [] == m.steps && m.steps[0] == Preprocess;
    StepAhead(side, b, m.local);
    assert p.step(Preprocess, b, m.local) == Step(side, Preprocess, b, m.local);
    hide Good, Run, Step, HelloAhead, Announced, Prog;
    if HelloAhead(side, b) {
      RunNext(p, m, Outcome(Next, b[9..], Half(None, Announced(b)), [], false));
    } else {
      RunCancels(p, m);
    }
  }

  lemma {:induction false} RunBody(side: Side, b: bytes, n: nat)
    ensures var r := Run(Prog(side), INITIAL.(index := 1, buf := b, local := Half(None, n)));
            && !r.crashed && r.index >= 1
            && (r.cancelled <==> n <= |b| && side.Parse(b[..n]).None?)
            && (r.updated <==> n <= |b| && side.Parse(b[..n]).Some?)
            && r.local.m == (if n <= |b| then side.Parse(b[..n]) else None)
  {
    ProgGood(side);
    hide Good, Side.Parse;
    var m := INITIAL.(index := 1, buf := b, local := Half(None, n));
    assert m.steps + [] == m.steps;
    RunStep(Prog(side), m);
  }

  lemma {:induction false} RunWhole(side: Side, b: bytes)
    requires |b| >= 9
    ensures var r, end := Run(Prog(side), INITIAL.Fresh().Push(b)), 9 + Announced(b);
            var m := if HelloAhead(side, b) && end <= |b| then side.Parse(b[9..end]) else None;
            && !r.crashed && (!HelloAhead(side, b) <==> r.cancelled && r.index == 0)
            && (r.cancelled <==> !HelloAhead(side, b) || (end <= |b| && side.Parse(b[9..end]).None?))
            && (if r.updated then r.local.m else None) == m
  {
    assert INITIAL.Fresh() == INITIAL;
    RunAhead(side, b);
    RunBody(side, b[9..], Announced(b));
    hide Run, HelloAhead, Announced, Side.Parse;
    assert 9 + Announced(b) <= |b| ==> b[9..][..Announced(b)] == b[9..9 + Announced(b)];
  }

  // EVERY INPUT, cut in any way: given up at once unless the first nine bytes announce a hello of
  // this side, and not too short a one; then nothing until it is there, and published exactly when
  // it parses.
  lemma {:induction false} RecordDecides(side: Side, chunks: seq<bytes>)
    requires |Flatten(chunks)| >= 9
    ensures var b, f := Flatten(chunks), FeedAll(Prog(side), INITIAL, chunks, None);
            var end := 9 + Announced(b);
            && (!HelloAhead(side, b) <==> f.m.cancelled && f.m.index == 0)
            && (f.m.cancelled <==> !HelloAhead(side, b) || (end <= |b| && side.Parse(b[9..end]).None?))
            && f.published == if HelloAhead(side, b) && end <= |b| then side.Parse(b[9..end]) else None
  {
    ProgGood(side);
    hide Good, Run, FeedAll, HelloAhead, Announced, Side.Parse;
    RunWhole(side, Flatten(chunks));
    ChunkIndependence(Prog(side), INITIAL, chunks, None);
  }

  // The machine does not stop by itself: only the engine keeps a cancelled stream from being fed.
  // After nine bytes that cancel it, a hello is still extracted, with the cancelled flag up.
  lemma {:induction false} CancelIsNotAbsorbing(side: Side, junk: bytes, version: u16, recordLen: u16, body: bytes)
    requires |junk| == HEADERS_SIZE && junk[0] != RECORD_TYPE_HANDSHAKE
    requires side.MinDataSize() <= |body| < 0x100_0000 && side.Parse(body).Some?
    ensures var c := Run(Prog(side), INITIAL.Push(junk));
            && c == INITIAL.(cancelled := true)
            && Run(Prog(side), c.Push(Record(side, version, recordLen, body))) ==
                 INITIAL.(index := 2, cancelled := true, updated := true, local := Half(side.Parse(body), |body|))
  {
    ProgGood(side);
    var p := Prog(side);
    var c := Run(p, INITIAL.Push(junk));
    assert c == INITIAL.(cancelled := true);
    var r := Record(side, version, recordLen, body);
    assert r + [] == r;
    RunRecord(side, version, recordLen, body, []);
    RunCancelled(p, INITIAL.Push(r));
    assert c.Push(r) == INITIAL.Push(r).(cancelled := true);
  }

  lemma {:induction false} NeverCrashes(side: Side, m: Machine<StepId, Half>)
    requires !m.crashed
    ensures !Run(Prog(side), m).crashed
    decreases Rank(Prog(side), m)
  {
    var p := Prog(side);
    if m.index < |m.steps| {
      var n := After(p, m);
      if Goes(p.step(m.steps[m.index], m.buf, m.local).action) && Rank(p, n) < Rank(p, m) {
        NeverCrashes(side, n);
      }
    }
  }

  // ---- The stream ----

  class TlsStream {
    const reqBuf: ByteBuffer
    var reqMap: Option<PropMap>
    var reqUpdated: bool
    const reqLSM: LinearStateMachine<StepId>
    var reqDone: bool

    const respBuf: ByteBuffer
    var respMap: Option<PropMap>
    var respUpdated: bool
    const respLSM: LinearStateMachine<StepId>
    var respDone: bool

    var clientHelloLen: nat
    var serverHelloLen: nat

    ghost predicate Valid()
      reads this, reqLSM, respLSM
    {
      && reqBuf != respBuf && reqLSM != respLSM
      && (!reqLSM.cancelled ==> reqDone == (reqLSM.index >= |reqLSM.Steps|))
      && (!respLSM.cancelled ==> respDone == (respLSM.index >= |respLSM.Steps|))
    }

    ghost function Req(): Machine<StepId, Half>
      reads `reqMap, `reqUpdated, `clientHelloLen, reqBuf, reqLSM
    {
      Machine(reqLSM.Steps, reqLSM.index, reqLSM.cancelled, false, reqUpdated, reqBuf.Buf, Half(reqMap, clientHelloLen))
    }

    ghost function Resp(): Machine<StepId, Half>
      reads `respMap, `respUpdated, `serverHelloLen, respBuf, respLSM
    {
      Machine(respLSM.Steps, respLSM.index, respLSM.cancelled, false, respUpdated, respBuf.Buf,
        Half(respMap, serverHelloLen))
    }

    constructor ()
      ensures Valid() && Req() == INITIAL && Resp() == INITIAL && !reqDone && !respDone
      ensures fresh(reqBuf) && fresh(respBuf) && fresh(reqLSM) && fresh(respLSM)
    {
      reqBuf := new ByteBuffer([]);
      respBuf := new ByteBuffer([]);
      reqLSM := new LinearStateMachine([Preprocess, ParseData]);
      respLSM := new LinearStateMachine([Preprocess, ParseData]);
      reqMap, reqUpdated, reqDone := None, false, false;
      respMap, respUpdated, respDone := None, false, false;
      clientHelloLen, serverHelloLen := 0, 0;
    }

    method TlsClientHelloPreprocess() returns (a: Action)
      modifies reqBuf, this`clientHelloLen
      ensures Outcome(a, reqBuf.Buf, Half(reqMap, clientHelloLen), [], false) ==
                Step(Client, Preprocess, old(reqBuf.Buf), old(Half(reqMap, clientHelloLen)))
    {
      var header, ok := reqBuf.Get(HEADERS_SIZE, true);
      if !ok { return Pause; }
      if header[0] != RECORD_TYPE_HANDSHAKE || header[5] != Side.Client.HelloType() { return Cancel; }
      clientHelloLen := U24(header[6], header[7], header[8]);
      if clientHelloLen < Side.Client.MinDataSize() { return Cancel; }
      return Next;
    }

    method TlsServerHelloPreprocess() returns (a: Action)
      modifies respBuf, this`serverHelloLen
      ensures Outcome(a, respBuf.Buf, Half(respMap, serverHelloLen), [], false) ==
                Step(Server, Preprocess, old(respBuf.Buf), old(Half(respMap, serverHelloLen)))
    {
      var header, ok := respBuf.Get(HEADERS_SIZE, true);
      if !ok { return Pause; }
      if header[0] != RECORD_TYPE_HANDSHAKE || header[5] != Side.Server.HelloType() { return Cancel; }
      serverHelloLen := U24(header[6], header[7], header[8]);
      if serverHelloLen < Side.Server.MinDataSize() { return Cancel; }
      return Next;
    }

    method ParseClientHelloData() returns (a: Action)
      modifies reqBuf, this`reqMap, this`reqUpdated
      ensures var o := Step(Client, ParseData, old(reqBuf.Buf), old(Half(reqMap, clientHelloLen)));
              && Outcome(a, reqBuf.Buf, Half(reqMap, clientHelloLen), [], o.updated) == o
              && reqUpdated == (old(reqUpdated) || o.updated)
    {
      var chBuf, ok := reqBuf.GetSubBuffer(clientHelloLen, true);
      if !ok { return Pause; }
      var m := TlsParser.ParseTLSClientHelloMsgData(chBuf);
      if m.None? { return Cancel; }
      reqUpdated := true;
      reqMap := m;
      return Next;
    }

    method ParseServerHelloData() returns (a: Action)
      modifies respBuf, this`respMap, this`respUpdated
      ensures var o := Step(Server, ParseData, old(respBuf.Buf), old(Half(respMap, serverHelloLen)));
              && Outcome(a, respBuf.Buf, Half(respMap, serverHelloLen), [], o.updated) == o
              && respUpdated == (old(respUpdated) || o.updated)
    {
      var shBuf, ok := respBuf.GetSubBuffer(serverHelloLen, true);
      if !ok { return Pause; }
      var m := TlsParser.ParseTLSServerHelloMsgData(shBuf);
      if m.None? { return Cancel; }
      respUpdated := true;
      respMap := m;
      return Next;
    }

    // One turn of the loop of reqLSM.Run().
    method TurnReq() returns (stop: bool, cancelled: bool, done: bool)
      requires reqBuf != respBuf && reqLSM != respLSM && reqLSM.index < |reqLSM.Steps|
      modifies reqBuf, reqLSM, this`reqMap, this`reqUpdated, this`clientHelloLen
      ensures Req() == After(Prog(Client), old(Req()))
      ensures stop == !Goes(Step(Client, old(reqLSM.Steps[reqLSM.index]), old(reqBuf.Buf),
                old(Half(reqMap, clientHelloLen))).action)
      ensures stop && !old(reqLSM.cancelled) ==> cancelled == done == reqLSM.cancelled
    {
      assert reqLSM.Steps + [] == reqLSM.Steps;
      var action: Action;
      match reqLSM.Steps[reqLSM.index] {
        case Preprocess => action := TlsClientHelloPreprocess();
        case ParseData => action := ParseClientHelloData();
      }
      stop, cancelled, done := reqLSM.Answer(action);
    }

    // reqLSM.Run().
    method RunReq() returns (cancelled: bool, done: bool)
      requires Valid()
      modifies reqBuf, reqLSM, this`reqMap, this`reqUpdated, this`clientHelloLen
      ensures Req() == Run(Prog(Client), old(Req()))
      ensures !old(reqLSM.cancelled) ==>
                cancelled == reqLSM.cancelled && done == (cancelled || reqLSM.index >= |reqLSM.Steps|)
    {
      ghost var p := Prog(Client);
      done, cancelled := reqLSM.Finished();
      if done { return; }
      while reqLSM.index < |reqLSM.Steps|
        invariant Run(p, Req()) == Run(p, old(Req()))
        invariant reqLSM.cancelled == old(reqLSM.cancelled)
        decreases Rank(p, Req())
      {
        RunTurn(Client, Req());
        var stop: bool;
        stop, cancelled, done := TurnReq();
        if stop { return; }
      }
      return false, true;
    }

    // The branch of Feed for one direction.
    method FeedReq(data: bytes) returns (u: Option<PropUpdate>, cancelled: bool)
      requires Valid() && !reqLSM.cancelled && data != []
      modifies reqBuf, reqLSM, this`reqMap, this`reqUpdated, this`clientHelloLen, this`reqDone
      ensures Valid()
      ensures var (m, v) := Lsm.Feed(Prog(Client), old(Req()), data); Req() == m && u == MergeUnder("req", v)
      ensures cancelled == reqLSM.cancelled && reqDone == (cancelled || reqLSM.index >= |reqLSM.Steps|)
    {
      reqBuf.Append(data);
      reqUpdated := false;
      cancelled, reqDone := RunReq();
      u := None;
      if reqUpdated {
        u := MergeUnder("req", reqMap);
        reqUpdated := false;
      }
    }

    // One turn of the loop of respLSM.Run().
    method TurnResp() returns (stop: bool, cancelled: bool, done: bool)
      requires reqBuf != respBuf && reqLSM != respLSM && respLSM.index < |respLSM.Steps|
      modifies respBuf, respLSM, this`respMap, this`respUpdated, this`serverHelloLen
      ensures Resp() == After(Prog(Server), old(Resp()))
      ensures stop == !Goes(Step(Server, old(respLSM.Steps[respLSM.index]), old(respBuf.Buf),
                old(Half(respMap, serverHelloLen))).action)
      ensures stop && !old(respLSM.cancelled) ==> cancelled == done == respLSM.cancelled
    {
      assert respLSM.Steps + [] == respLSM.Steps;
      var action: Action;
      match respLSM.Steps[respLSM.index] {
        case Preprocess => action := TlsServerHelloPreprocess();
        case ParseData => action := ParseServerHelloData();
      }
      stop, cancelled, done := respLSM.Answer(action);
    }

    // respLSM.Run().
    method RunResp() returns (cancelled: bool, done: bool)
      requires Valid()
      modifies respBuf, respLSM, this`respMap, this`respUpdated, this`serverHelloLen
      ensures Resp() == Run(Prog(Server), old(Resp()))
      ensures !old(respLSM.cancelled) ==>
                cancelled == respLSM.cancelled && done == (cancelled || respLSM.index >= |respLSM.Steps|)
    {
      ghost var p := Prog(Server);
      done, cancelled := respLSM.Finished();
      if done { return; }
      while respLSM.index < |respLSM.Steps|
        invariant Run(p, Resp()) == Run(p, old(Resp()))
        invariant respLSM.cancelled == old(respLSM.cancelled)
        decreases Rank(p, Resp())
      {
        RunTurn(Server, Resp());
        var stop: bool;
        stop, cancelled, done := TurnResp();
        if stop { return; }
      }
      return false, true;
    }

    // The branch of Feed for one direction.
    method FeedResp(data: bytes) returns (u: Option<PropUpdate>, cancelled: bool)
      requires Valid() && !respLSM.cancelled && data != []
      modifies respBuf, respLSM, this`respMap, this`respUpdated, this`serverHelloLen, this`respDone
      ensures Valid()
      ensures var (m, v) := Lsm.Feed(Prog(Server), old(Resp()), data); Resp() == m && u == MergeUnder("resp", v)
      ensures cancelled == respLSM.cancelled && respDone == (cancelled || respLSM.index >= |respLSM.Steps|)
    {
      respBuf.Append(data);
      respUpdated := false;
      cancelled, respDone := RunResp();
      u := None;
      if respUpdated {
        u := MergeUnder("resp", respMap);
        respUpdated := false;
      }
    }

    // The engine never feeds a stream that has been cancelled.
    method Feed(rev: bool, skip: int, data: bytes) returns (u: Option<PropUpdate>, done: bool)
      requires Valid() && !reqLSM.cancelled && !respLSM.cancelled
      modifies this, reqBuf, respBuf, reqLSM, respLSM
      ensures Valid()
      ensures skip != 0 || data == [] ==>
                u == None && done == (skip != 0) && Req() == old(Req()) && Resp() == old(Resp())
      ensures skip == 0 && data != [] && !rev ==>
                && var (m, v) := Lsm.Feed(Prog(Client), old(Req()), data);
                && Req() == m && Resp() == old(Resp()) && u == MergeUnder("req", v)
      ensures skip == 0 && data != [] && rev ==>
                && var (m, v) := Lsm.Feed(Prog(Server), old(Resp()), data);
                && Resp() == m && Req() == old(Req()) && u == MergeUnder("resp", v)
      ensures skip == 0 && data != [] ==>
                done == (reqLSM.cancelled || respLSM.cancelled
                         || (reqLSM.index >= |reqLSM.Steps| && respLSM.index >= |respLSM.Steps|))
    {
      if skip != 0 {
        return None, true;
      }
      if |data| == 0 {
        return None, false;
      }
      var cancelled: bool;
      if rev {
        u, cancelled := FeedResp(data);
      } else {
        u, cancelled := FeedReq(data);
      }
      done := cancelled || (reqDone && respDone);
    }
  }

  lemma {:induction false} AtStart(side: Side)
    ensures Going(Prog(side), INITIAL)
  {
    ProgGood(side);
  }

  // A WHOLE STREAM: the engine's loop over the chunks of both directions, until one machine gives
  // up or both are through. Of `n` chunks fed, each direction has had just its own bytes, at once
  // for all one can tell: that is what it publishes.
  method Drive(cs: seq<(bool, bytes)>)
    returns (n: nat, asked: Option<PropUpdate>, answered: Option<PropUpdate>)
    ensures n <= |cs|
    ensures var (req, u) := Lsm.Feed(Prog(Client), INITIAL, BytesOf(cs[..n], false));
            var (resp, v) := Lsm.Feed(Prog(Server), INITIAL, BytesOf(cs[..n], true));
            && asked == MergeUnder("req", u) && answered == MergeUnder("resp", v)
            && (n < |cs| ==> Both(req, resp, u, v).Over())
  {
    ghost var p, q := Prog(Client), Prog(Server);
    ghost var b0 := Both(INITIAL, INITIAL, None, None);
    ghost var b := b0;
    hide Lsm.Feed, Prog, FeedBoth, Reached, BytesOf;
    ReachedFirst(p, q, b0, cs);
    var s := new TlsStream();
    var done := false;
    n, asked, answered := 0, None, None;
    while !done && n < |cs|
      invariant n <= |cs| && done == b.Over() && Reached(p, q, b0, cs, n, b)
      invariant s.Valid() && fresh(s) && fresh(s.reqBuf) && fresh(s.respBuf) && fresh(s.reqLSM) && fresh(s.respLSM)
      invariant s.Req() == b.req && s.Resp() == b.resp
      invariant asked == MergeUnder("req", b.asked) && answered == MergeUnder("resp", b.answered)
    {
      var (rev, data) := cs[n];
      ReachedNext(p, q, b0, cs, n, b);
      var u: Option<PropUpdate>;
      u, done := s.Feed(rev, 0, data);
      if u.Some? {
        if rev {
          answered := u;
        } else {
          asked := u;
        }
      }
      b := FeedOne(p, q, b, rev, data);
      n := n + 1;
    }
    AtStart(Client);
    AtStart(Server);
    ReachedLast(p, q, b0, cs, n, b);
  }
}
