/** DNS over TCP (analyzer/udp/dns.go): two-byte length framing by a machine that resets. */
module Dns {
  import opened Bytes
  import opened Props
  import opened ByteBuffers
  import opened Lsm

  // parseDNSMessage: which byte strings are DNS messages, and what is extracted from them.
  type Parser = bytes -> Option<PropMap>

  datatype StepId = Length | Message

  // The fields of one direction, with the byte strings handed to the parser so far.
  datatype Half = Half(m: Option<PropMap>, msgLen: nat, parsed: seq<bytes>)

  function Step(parse: Parser, id: StepId, b: bytes, l: Half): Outcome<StepId, Half> {
    match id
    case Length =>
      if |b| < 2 then Outcome(Pause, b, l, [], false)
      else Outcome(Next, b[2..], l.(msgLen := U16(b[0], b[1])), [], false)
    case Message =>
      if |b| < l.msgLen then Outcome(Pause, b, l, [], false)
      else
        var l' := l.(parsed := l.parsed + [b[..l.msgLen]]);
        match parse(b[..l.msgLen])
        case None => Outcome(Cancel, b[l.msgLen..], l', [], false)
        case Some(m) => Outcome(Reset, b[l.msgLen..], l'.(m := Some(m)), [], true)
  }

  const STEPS: seq<StepId> := [Length, Message]

  // Each cycle consumes the two length bytes at least, so the resetting machine terminates.
  function Prog(parse: Parser): Program<StepId, Half> {
    Program((id, b, l) => Step(parse, id, b, l),
            (steps, index, l) => steps == STEPS && index < 2,
            (steps, index, len) => 2 * len + (if index == 0 then 0 else 1),
            (l: Half) => l.m)
  }

  lemma {:induction false} ProgGood(parse: Parser)
    ensures Good(Prog(parse))
  {
    var p := Prog(parse);
    forall id, b, x, l | !p.step(id, b, l).action.Pause?
      ensures p.step(id, b + x, l) == p.step(id, b, l).(rest := p.step(id, b, l).rest + x)
    {
      TakeAppend(b, if id.Length? then 2 else l.msgLen, x);
    }
    forall m ensures Advances(p, m) && Tells(p, m) {}
  }

  // One turn of the loop of Run.
  lemma {:induction false} RunTurn(parse: Parser, m: Machine<StepId, Half>)
    requires Wf(Prog(parse), m)
    ensures var p, o := Prog(parse), Step(parse, m.steps[m.index], m.buf, m.local);
            if Goes(o.action) then
              Wf(p, After(p, m)) && Rank(p, After(p, m)) < Rank(p, m) && Run(p, m) == Run(p, After(p, m))
            else Run(p, m) == After(p, m)
  {
    ProgGood(parse);
    RunStep(Prog(parse), m);
  }

  const INITIAL: Machine<StepId, Half> := Machine(STEPS, 0, false, false, false, [], Half(None, 0, []))

  // ---- Framing, section 4.2.2 of RFC 1035 ----

  predicate FramesWf(fs: seq<bytes>) {
    forall f :: f in fs ==> |f| < 0x1_0000
  }

  function Encode(fs: seq<bytes>): bytes
    requires FramesWf(fs)
  {
    if fs == [] then [] else Put16(|fs[0]|) + fs[0] + Encode(fs[1..])
  }

  predicate Incomplete(rest: bytes) {
    |rest| < 2 || |rest| < 2 + U16(rest[0], rest[1])
  }

  // b is the complete frames fs followed by less than a frame.
  predicate Framing(b: bytes, fs: seq<bytes>, rest: bytes) {
    FramesWf(fs) && b == Encode(fs) + rest && Incomplete(rest)
  }

  lemma {:induction false} ReadFrame(f: bytes, x: bytes)
    requires |f| < 0x1_0000
    ensures var b := Put16(|f|) + f + x;
            |b| >= 2 + |f| && U16(b[0], b[1]) == |f| && b[2..] == f + x && b[2..2 + |f|] == f && b[2 + |f|..] == x
  {
  }

  // Every byte string has a framing, and only one.
  lemma {:induction false} FramingExists(b: bytes) returns (fs: seq<bytes>, rest: bytes)
    ensures Framing(b, fs, rest)
    decreases |b|
  {
    if Incomplete(b) {
      fs, rest := [], b;
    } else {
      var n := 2 + U16(b[0], b[1]);
      var tail;
      tail, rest := FramingExists(b[n..]);
      fs := [b[2..n]] + tail;
      assert fs[1..] == tail;
      Put16Unique(b[0], b[1]);
      assert b == [b[0], b[1]] + b[2..n] + b[n..];
    }
  }

  lemma {:induction false} FirstFrame(fs: seq<bytes>, rest: bytes)
    requires FramesWf(fs) && fs != []
    ensures var b, n := Encode(fs) + rest, 2 + |fs[0]|;
            && |b| >= n && U16(b[0], b[1]) == |fs[0]|
            && b[2..n] == fs[0] && b[n..] == Encode(fs[1..]) + rest
  {
    ReadFrame(fs[0], Encode(fs[1..]) + rest);
    assert Encode(fs) + rest == Put16(|fs[0]|) + fs[0] + (Encode(fs[1..]) + rest);
  }

  lemma {:induction false} FramingUnique(fs: seq<bytes>, rest: bytes, gs: seq<bytes>, last: bytes)
    requires FramesWf(fs) && FramesWf(gs) && Incomplete(rest) && Incomplete(last)
    requires Encode(fs) + rest == Encode(gs) + last
    ensures fs == gs && rest == last
    decreases |fs|
  {
    assert Encode([]) + rest == rest && Encode([]) + last == last;
    if fs != [] {
      FirstFrame(fs, rest);
    }
    if gs != [] {
      FirstFrame(gs, last);
    }
    if fs != [] && gs != [] {
      assert fs[0] == gs[0];
      FramingUnique(fs[1..], rest, gs[1..], last);
      assert fs == [fs[0]] + fs[1..] && gs == [gs[0]] + gs[1..];
    }
  }

  // The frames that reach the parser: all of them, or up to the first it rejects.
  function Reached(parse: Parser, fs: seq<bytes>): (k: nat)
    ensures k <= |fs|
    ensures forall i :: 0 <= i < k - 1 ==> parse(fs[i]).Some?
    ensures k < |fs| ==> k > 0 && parse(fs[k - 1]).None?
  {
    if fs == [] then 0
    else if parse(fs[0]).None? then 1
    else 1 + Reached(parse, fs[1..])
  }

  predicate Rejects(parse: Parser, fs: seq<bytes>) {
    exists i :: 0 <= i < |fs| && parse(fs[i]).None?
  }

  // The map of the last accepted frame.
  function LastMap(parse: Parser, fs: seq<bytes>, m: Option<PropMap>): Option<PropMap> {
    if fs == [] || parse(fs[0]).None? then m else LastMap(parse, fs[1..], parse(fs[0]))
  }

  // Where the machine waits when `rest` is all it has of the next frame.
  function Waiting(rest: bytes, l: Half, updated: bool): Machine<StepId, Half> {
    if |rest| < 2 then Machine(STEPS, 0, false, false, updated, rest, l)
    else Machine(STEPS, 1, false, false, updated, rest[2..], l.(msgLen := U16(rest[0], rest[1])))
  }

  // What a run over whole frames and an incomplete rest must end in.
  ghost predicate Processed(parse: Parser, fs: seq<bytes>, rest: bytes, l: Half, r: Machine<StepId, Half>)
    requires FramesWf(fs)
  {
    var k := Reached(parse, fs);
    && r.local.parsed == l.parsed + fs[..k]
    && r.local.m == LastMap(parse, fs, l.m)
    && !r.crashed
    && (r.cancelled <==> Rejects(parse, fs))
    && (r.cancelled ==> FramesWf(fs[k..]) && r.buf == Encode(fs[k..]) + rest)
    && (!r.cancelled ==> k == |fs| && exists len, u :: r == Waiting(rest, r.local.(msgLen := len), u))
  }

  // Two steps over one frame.
  lemma {:induction false} RunFrame(parse: Parser, f: bytes, x: bytes, m: Machine<StepId, Half>)
    requires |f| < 0x1_0000
    requires m.steps == STEPS && m.index == 0 && !m.Stopped() && m.buf == Put16(|f|) + f + x
    ensures var l := Half(if parse(f).Some? then parse(f) else m.local.m, |f|, m.local.parsed + [f]);
            if parse(f).None? then
              Run(Prog(parse), m) == Machine(STEPS, 1, true, false, m.updated, x, l)
            else
              Run(Prog(parse), m) == Run(Prog(parse), Machine(STEPS, 0, false, false, true, x, l))
  {
    var p := Prog(parse);
    ReadFrame(f, x);
    assert Advances(p, m);
    assert STEPS + [] == STEPS;
    var m1 := After(p, m);
    assert m1 == m.(index := 1, buf := f + x, local := m.local.(msgLen := |f|));
    assert Advances(p, m1);
    assert (f + x)[..|f|] == f && (f + x)[|f|..] == x;
    var m2 := After(p, m1);
    assert Run(p, m) == Run(p, m1);
  }

  // A frame in front of processed frames.
  lemma {:induction false} ProcessedCons(parse: Parser, fs: seq<bytes>, rest: bytes, l: Half, r: Machine<StepId, Half>)
    requires fs != [] && FramesWf(fs) && parse(fs[0]).Some?
    requires Processed(parse, fs[1..], rest, Half(parse(fs[0]), |fs[0]|, l.parsed + [fs[0]]), r)
    ensures Processed(parse, fs, rest, l, r)
  {
    var k := Reached(parse, fs);
    assert [fs[0]] + fs[1..][..k - 1] == fs[..k];
    assert l.parsed + [fs[0]] + fs[1..][..k - 1] == l.parsed + ([fs[0]] + fs[1..][..k - 1]);
    assert fs[1..][k - 1..] == fs[k..];
    assert forall i :: 0 <= i < |fs[1..]| ==> fs[1..][i] == fs[i + 1];
    assert Rejects(parse, fs) <==> Rejects(parse, fs[1..]);
  }

  lemma {:induction false} RunFrames(parse: Parser, fs: seq<bytes>, rest: bytes, m: Machine<StepId, Half>)
    requires FramesWf(fs) && Incomplete(rest)
    requires m.steps == STEPS && m.index == 0 && !m.Stopped() && m.buf == Encode(fs) + rest
    ensures Processed(parse, fs, rest, m.local, Run(Prog(parse), m))
    decreases |fs|
  {
    if fs == [] {
      assert m.buf == rest;
      RunRest(parse, rest, m);
      assert m.local.parsed + fs[..0] == m.local.parsed;
      var r := Run(Prog(parse), m);
      assert r == Waiting(rest, r.local.(msgLen := m.local.msgLen), m.updated);
    } else {
      var f, x := fs[0], Encode(fs[1..]) + rest;
      assert m.buf == Put16(|f|) + f + x;
      RunFrame(parse, f, x, m);
      if parse(f).None? {
        assert fs[..1] == [f];
      } else {
        RunFrames(parse, fs[1..], rest, Machine(STEPS, 0, false, false, true, x,
          Half(parse(f), |f|, m.local.parsed + [f])));
        ProcessedCons(parse, fs, rest, m.local, Run(Prog(parse), m));
      }
    }
  }

  lemma {:induction false} RunRest(parse: Parser, rest: bytes, m: Machine<StepId, Half>)
    requires Incomplete(rest)
    requires m.steps == STEPS && m.index == 0 && !m.Stopped() && m.buf == rest
    ensures Run(Prog(parse), m) == Waiting(rest, m.local, m.updated)
  {
    var p := Prog(parse);
    assert Advances(p, m);
    assert m.steps + [] == m.steps;
    if |rest| >= 2 {
      var m1 := After(p, m);
      assert Advances(p, m1);
      assert m1.steps + [] == m1.steps;
    }
  }

  // DNS-OVER-TCP FRAMING. However a stream is cut, the byte strings that reach the parser are the
  // complete frames of the stream, in order, up to and including the first one it rejects; the
  // stream is cancelled exactly when there is such a frame; what has not been handed to the
  // parser is the rest of the stream; and the map published last is that of the last accepted one.
  lemma {:induction false} FramingThroughMachine(parse: Parser, chunks: seq<bytes>, fs: seq<bytes>, rest: bytes)
    requires Framing(Flatten(chunks), fs, rest) && Flatten(chunks) != []
    ensures var f := FeedAll(Prog(parse), INITIAL, chunks, None);
            && Processed(parse, fs, rest, INITIAL.local, f.m.Push(Flatten(f.unfed)))
            && f.published == LastMap(parse, fs, None)
  {
    ProgGood(parse);
    var p := Prog(parse);
    var m := INITIAL.Fresh().Push(Flatten(chunks));
    RunFrames(parse, fs, rest, m);
    ChunkIndependence(p, INITIAL, chunks, None);
    RunHonest(p, m);
    var r := Run(p, m);
    if !r.cancelled {
      var len, u :| r == Waiting(rest, r.local.(msgLen := len), u);
      assert r.Fresh() == Waiting(rest, r.local.(msgLen := len), false);
    }
  }

  // ---- The stream ----

  class DnsTcpStream {
    const parse: Parser

    const reqBuf: ByteBuffer
    var reqMap: Option<PropMap>
    var reqUpdated: bool
    const reqLSM: LinearStateMachine<StepId>
    var reqDone: bool
    var reqMsgLen: nat
    ghost var reqParsed: seq<bytes>

    const respBuf: ByteBuffer
    var respMap: Option<PropMap>
    var respUpdated: bool
    const respLSM: LinearStateMachine<StepId>
    var respDone: bool
    var respMsgLen: nat
    ghost var respParsed: seq<bytes>

    ghost predicate Valid()
      reads this, reqLSM, respLSM
    {
      && reqBuf != respBuf && reqLSM != respLSM
      && reqLSM.Steps == STEPS && respLSM.Steps == STEPS && reqLSM.index < 2 && respLSM.index < 2
      && (!reqLSM.cancelled ==> !reqDone) && (!respLSM.cancelled ==> !respDone)
    }

    constructor (parse: Parser)
      ensures Valid() && this.parse == parse && Req() == INITIAL && Resp() == INITIAL
      ensures fresh(reqBuf) && fresh(respBuf) && fresh(reqLSM) && fresh(respLSM)
      ensures !reqLSM.cancelled && !respLSM.cancelled
    {
      this.parse := parse;
      reqBuf := new ByteBuffer([]);
      respBuf := new ByteBuffer([]);
      reqLSM := new LinearStateMachine(STEPS);
      respLSM := new LinearStateMachine(STEPS);
      reqMap, reqUpdated, reqDone, reqMsgLen, reqParsed := None, false, false, 0, [];
      respMap, respUpdated, respDone, respMsgLen, respParsed := None, false, false, 0, [];
    }

    ghost function Req(): Machine<StepId, Half>
      reads `reqMap, `reqUpdated, `reqMsgLen, `reqParsed, reqBuf, reqLSM
    {
      Machine(reqLSM.Steps, reqLSM.index, reqLSM.cancelled, false, reqUpdated, reqBuf.Buf,
              Half(reqMap, reqMsgLen, reqParsed))
    }

    method GetReqMessageLength() returns (a: Action)
      modifies reqBuf, this`reqMsgLen
      ensures Outcome(a, reqBuf.Buf, Half(reqMap, reqMsgLen, reqParsed), [], false) ==
                Step(parse, Length, old(reqBuf.Buf), old(Half(reqMap, reqMsgLen, reqParsed)))
    {
      var bs, ok := reqBuf.Get(2, true);
      if !ok { return Pause; }
      reqMsgLen := U16(bs[0], bs[1]);
      return Next;
    }

    method GetReqMessage() returns (a: Action)
      modifies reqBuf, this`reqMap, this`reqUpdated, this`reqParsed
      ensures var o := Step(parse, Message, old(reqBuf.Buf), old(Half(reqMap, reqMsgLen, reqParsed)));
              && Outcome(a, reqBuf.Buf, Half(reqMap, reqMsgLen, reqParsed), [], o.updated) == o
              && reqUpdated == (old(reqUpdated) || o.updated)
    {
      var bs, ok := reqBuf.Get(reqMsgLen, true);
      if !ok { return Pause; }
      reqParsed := reqParsed + [bs];
      var m := parse(bs);
      if m.None? { return Cancel; }
      reqMap := m;
      reqUpdated := true;
      return Reset;
    }

    // One turn of the loop of reqLSM.Run().
    method TurnReq() returns (stop: bool, cancelled: bool, done: bool)
      requires reqBuf != respBuf && reqLSM != respLSM
      requires reqLSM.Steps == STEPS && reqLSM.index < 2
      modifies reqBuf, reqLSM, this`reqMap, this`reqUpdated, this`reqMsgLen, this`reqParsed
      ensures Req() == After(Prog(parse), old(Req()))
      ensures stop == !Goes(Step(parse, old(STEPS[reqLSM.index]), old(reqBuf.Buf),
                old(Half(reqMap, reqMsgLen, reqParsed))).action)
      ensures stop && !old(reqLSM.cancelled) ==> cancelled == done == reqLSM.cancelled
    {
      assert STEPS + [] == STEPS;
      var action: Action;
      match reqLSM.Steps[reqLSM.index] {
        case Length => action := GetReqMessageLength();
        case Message => action := GetReqMessage();
      }
      stop, cancelled, done := reqLSM.Answer(action);
    }

    // reqLSM.Run().
    method RunReq() returns (cancelled: bool, done: bool)
      requires Valid()
      modifies reqBuf, reqLSM, this`reqMap, this`reqUpdated, this`reqMsgLen, this`reqParsed
      ensures Req() == Run(Prog(parse), old(Req()))
      ensures reqLSM.Steps == STEPS && reqLSM.index < 2
      ensures !old(reqLSM.cancelled) ==> cancelled == done == reqLSM.cancelled
    {
      ghost var p := Prog(parse);
      done, cancelled := reqLSM.Finished();
      if done { return; }
      while reqLSM.index < |reqLSM.Steps|
        invariant Wf(p, Req()) && Run(p, Req()) == Run(p, old(Req()))
        invariant reqLSM.cancelled == old(reqLSM.cancelled)
        decreases Rank(p, Req())
      {
        RunTurn(parse, Req());
        var stop: bool;
        stop, cancelled, done := TurnReq();
        if stop { return; }
      }
      return false, true;
    }

    // The branch of Feed for one direction.
    method FeedReq(data: bytes) returns (u: Option<PropUpdate>, cancelled: bool)
      requires Valid() && !reqLSM.cancelled && data != []
      modifies reqBuf, reqLSM, this`reqMap, this`reqUpdated, this`reqMsgLen, this`reqParsed, this`reqDone
      ensures Valid()
      ensures var (m, v) := Lsm.Feed(Prog(parse), old(Req()), data); Req() == m && u == ReplaceBy(v)
      ensures cancelled == reqLSM.cancelled && reqDone == cancelled
    {
      reqBuf.Append(data);
      reqUpdated := false;
      cancelled, reqDone := RunReq();
      u := None;
      if reqUpdated {
        u := ReplaceBy(reqMap);
        reqUpdated := false;
      }
    }

    ghost function Resp(): Machine<StepId, Half>
      reads `respMap, `respUpdated, `respMsgLen, `respParsed, respBuf, respLSM
    {
      Machine(respLSM.Steps, respLSM.index, respLSM.cancelled, false, respUpdated, respBuf.Buf,
              Half(respMap, respMsgLen, respParsed))
    }

    method GetRespMessageLength() returns (a: Action)
      modifies respBuf, this`respMsgLen
      ensures Outcome(a, respBuf.Buf, Half(respMap, respMsgLen, respParsed), [], false) ==
                Step(parse, Length, old(respBuf.Buf), old(Half(respMap, respMsgLen, respParsed)))
    {
      var bs, ok := respBuf.Get(2, true);
      if !ok { return Pause; }
      respMsgLen := U16(bs[0], bs[1]);
      return Next;
    }

    method GetRespMessage() returns (a: Action)
      modifies respBuf, this`respMap, this`respUpdated, this`respParsed
      ensures var o := Step(parse, Message, old(respBuf.Buf), old(Half(respMap, respMsgLen, respParsed)));
              && Outcome(a, respBuf.Buf, Half(respMap, respMsgLen, respParsed), [], o.updated) == o
              && respUpdated == (old(respUpdated) || o.updated)
    {
      var bs, ok := respBuf.Get(respMsgLen, true);
      if !ok { return Pause; }
      respParsed := respParsed + [bs];
      var m := parse(bs);
      if m.None? { return Cancel; }
      respMap := m;
      respUpdated := true;
      return Reset;
    }

    // One turn of the loop of respLSM.Run().
    method TurnResp() returns (stop: bool, cancelled: bool, done: bool)
      requires reqBuf != respBuf && reqLSM != respLSM
      requires respLSM.Steps == STEPS && respLSM.index < 2
      modifies respBuf, respLSM, this`respMap, this`respUpdated, this`respMsgLen, this`respParsed
      ensures Resp() == After(Prog(parse), old(Resp()))
      ensures stop == !Goes(Step(parse, old(STEPS[respLSM.index]), old(respBuf.Buf),
                old(Half(respMap, respMsgLen, respParsed))).action)
      ensures stop && !old(respLSM.cancelled) ==> cancelled == done == respLSM.cancelled
    {
      assert STEPS + [] == STEPS;
      var action: Action;
      match respLSM.Steps[respLSM.index] {
        case Length => action := GetRespMessageLength();
        case Message => action := GetRespMessage();
      }
      stop, cancelled, done := respLSM.Answer(action);
    }

    // respLSM.Run().
    method RunResp() returns (cancelled: bool, done: bool)
      requires Valid()
      modifies respBuf, respLSM, this`respMap, this`respUpdated, this`respMsgLen, this`respParsed
      ensures Resp() == Run(Prog(parse), old(Resp()))
      ensures respLSM.Steps == STEPS && respLSM.index < 2
      ensures !old(respLSM.cancelled) ==> cancelled == done == respLSM.cancelled
    {
      ghost var p := Prog(parse);
      done, cancelled := respLSM.Finished();
      if done { return; }
      while respLSM.index < |respLSM.Steps|
        invariant Wf(p, Resp()) && Run(p, Resp()) == Run(p, old(Resp()))
        invariant respLSM.cancelled == old(respLSM.cancelled)
        decreases Rank(p, Resp())
      {
        RunTurn(parse, Resp());
        var stop: bool;
        stop, cancelled, done := TurnResp();
        if stop { return; }
      }
      return false, true;
    }

    // The branch of Feed for one direction.
    method FeedResp(data: bytes) returns (u: Option<PropUpdate>, cancelled: bool)
      requires Valid() && !respLSM.cancelled && data != []
      modifies respBuf, respLSM, this`respMap, this`respUpdated, this`respMsgLen, this`respParsed, this`respDone
      ensures Valid()
      ensures var (m, v) := Lsm.Feed(Prog(parse), old(Resp()), data); Resp() == m && u == ReplaceBy(v)
      ensures cancelled == respLSM.cancelled && respDone == cancelled
    {
      respBuf.Append(data);
      respUpdated := false;
      cancelled, respDone := RunResp();
      u := None;
      if respUpdated {
        u := ReplaceBy(respMap);
        respUpdated := false;
      }
    }

    // The engine never feeds a stream that has been cancelled.
    method Feed(rev: bool, skip: int, data: bytes) returns (u: Option<PropUpdate>, done: bool)
      requires Valid() && !reqLSM.cancelled && !respLSM.cancelled
      modifies this, reqBuf, respBuf, reqLSM, respLSM
      ensures Valid()
      ensures skip != 0 || data == [] ==>
                u == None && done == (skip != 0) && Req() == old(Req()) && Resp() == old(Resp())
      ensures skip == 0 && data != [] && !rev ==>
                && var (m, v) := Lsm.Feed(Prog(parse), old(Req()), data);
                && Req() == m && Resp() == old(Resp()) && done == m.cancelled
                && u == (if v.Some? then Some(PropUpdate(Replace, v.value)) else None)
      ensures skip == 0 && data != [] && rev ==>
                && var (m, v) := Lsm.Feed(Prog(parse), old(Resp()), data);
                && Resp() == m && Req() == old(Req()) && done == m.cancelled
                && u == (if v.Some? then Some(PropUpdate(Replace, v.value)) else None)
    {
      if skip != 0 {
        return None, true;
      }
      if |data| == 0 {
        return None, false;
      }
      var cancelled: bool;
      if rev {
        u, cancelled := FeedResp(data);
      } else {
        u, cancelled := FeedReq(data);
      }
      done := cancelled || (reqDone && respDone);
    }
  }

  lemma {:induction false} AtStart(parse: Parser)
    ensures Going(Prog(parse), INITIAL)
  {
    ProgGood(parse);
  }

  // A WHOLE STREAM: the engine's loop over the chunks of both directions, until one machine gives
  // up or both are through. Of `n` chunks fed, each direction has had just its own bytes, at once
  // for all one can tell: that is what it publishes.
  method Drive(parse: Parser, cs: seq<(bool, bytes)>)
    returns (n: nat, asked: Option<PropUpdate>, answered: Option<PropUpdate>)
    ensures n <= |cs|
    ensures var (req, u) := Lsm.Feed(Prog(parse), INITIAL, BytesOf(cs[..n], false));
            var (resp, v) := Lsm.Feed(Prog(parse), INITIAL, BytesOf(cs[..n], true));
            && asked == (if u.Some? then Some(PropUpdate(Replace, u.value)) else None)
            && answered == (if v.Some? then Some(PropUpdate(Replace, v.value)) else None)
            && (n < |cs| ==> Both(req, resp, u, v).Over())
  {
    ghost var p, q := Prog(parse), Prog(parse);
    ghost var b0 := Both(INITIAL, INITIAL, None, None);
    ghost var b := b0;
    hide Lsm.Feed, Prog, FeedBoth, Lsm.Reached, BytesOf;
    ReachedFirst(p, q, b0, cs);
    var s := new DnsTcpStream(parse);
    var done := false;
    n, asked, answered := 0, None, None;
    while !done && n < |cs|
      invariant n <= |cs| && done == b.Over() && Lsm.Reached(p, q, b0, cs, n, b)
      invariant s.Valid() && fresh(s) && fresh(s.reqBuf) && fresh(s.respBuf) && fresh(s.reqLSM) && fresh(s.respLSM)
                  && s.parse == parse
      invariant s.Req() == b.req && s.Resp() == b.resp
      invariant asked == ReplaceBy(b.asked) && answered == ReplaceBy(b.answered)
    {
      var (rev, data) := cs[n];
      ReachedNext(p, q, b0, cs, n, b);
      var u: Option<PropUpdate>;
      u, done := s.Feed(rev, 0, data);
      if u.Some? {
        if rev {
          answered := u;
        } else {
          asked := u;
        }
      }
      b := FeedOne(p, q, b, rev, data);
      n := n + 1;
    }
    AtStart(parse);
    ReachedLast(p, q, b0, cs, n, b);
  }
}
