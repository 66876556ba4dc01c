/** A SOCKS conversation: the two directions share the version, which the requests set and the
    replies are read with. */
module SocksTalks {
  import opened Bytes
  import opened Props
  import opened Lsm
  import opened Socks
  import opened SocksStreams

  // The two machines and what each direction has published.
  type Talk = Both<ReqStep, Req, RespStep, Resp>

  const START: Talk := Both(REQ_INITIAL, RespInitial(INVALID), None, None)

  // The reply machine with another version.
  function Know(m: Machine<RespStep, Resp>, version: int): Machine<RespStep, Resp> {
    m.(local := m.local.(version := version))
  }

  // One call of SocksStream.Feed without a gap.
  ghost function FeedChunk(t: AddressText, b: Talk, rev: bool, data: bytes): Talk {
    var n := FeedOne(ReqProg(t), RespProg(t), b, rev, data);
    if rev then n else n.(resp := Know(n.resp, n.req.local.version))
  }

  // The conversation after the chunks that are fed, and how many that are.
  ghost function FeedTalk(t: AddressText, b: Talk, cs: seq<(bool, bytes)>): (r: (Talk, nat))
    ensures r.1 <= |cs|
    decreases |cs|
  {
    if cs == [] || b.Over() then (b, 0)
    else
      var (r, n) := FeedTalk(t, FeedChunk(t, b, cs[0].0, cs[0].1), cs[1..]);
      (r, n + 1)
  }

  lemma {:induction false} TalkStep(t: AddressText, b: Talk, cs: seq<(bool, bytes)>)
    ensures cs == [] || b.Over() ==> FeedTalk(t, b, cs) == (b, 0)
    ensures cs != [] && !b.Over() ==>
              var (r, n) := FeedTalk(t, FeedChunk(t, b, cs[0].0, cs[0].1), cs[1..]);
              FeedTalk(t, b, cs) == (r, n + 1)
  {
    hide FeedChunk;
  }

  // Versions the replies cannot tell apart: 4 and 4A.
  predicate SameKind(v: int, w: int) {
    v == w || ((v == SOCKS4 || v == SOCKS4A) && (w == SOCKS4 || w == SOCKS4A))
  }

  lemma {:induction false} OutcomeKind(t: AddressText, id: RespStep, b: bytes, l: Resp, w: int)
    requires SameKind(l.version, w)
    ensures var o := RespOutcome(t, id, b, l);
            && RespOutcome(t, id, b, l.(version := w)) == o.(local := o.local.(version := w))
            && o.local.version == l.version
  {
    hide ReadPacket, Address, Port;
  }

  lemma {:induction false} RunKind(t: AddressText, m: Machine<RespStep, Resp>, w: int)
    requires RespWf(m.steps, m.index, m.local.m) && SameKind(m.local.version, w)
    ensures Run(RespProg(t), Know(m, w)) == Know(Run(RespProg(t), m), w)
    ensures Run(RespProg(t), m).local.version == m.local.version
    decreases Rank(RespProg(t), m)
  {
    if m.index < |m.steps| {
      RespRunTurn(t, m);
      RespRunTurn(t, Know(m, w));
      hide Run, RespOutcome, RespWf;
      OutcomeKind(t, m.steps[m.index], m.buf, m.local, w);
      assert After(RespProg(t), Know(m, w)) == Know(After(RespProg(t), m), w);
      if Goes(RespOutcome(t, m.steps[m.index], m.buf, m.local).action) {
        RunKind(t, After(RespProg(t), m), w);
      }
    }
  }

  lemma {:induction false} FeedKind(t: AddressText, m: Machine<RespStep, Resp>, data: bytes, w: int)
    requires RespWf(m.steps, m.index, m.local.m) && SameKind(m.local.version, w)
    ensures var (r, u) := Feed(RespProg(t), m, data);
            Feed(RespProg(t), Know(m, w), data) == (Know(r, w), u) && r.local.version == m.local.version
  {
    hide Run, RespWf;
    if data != [] {
      var s := m.Fresh().Push(data);
      assert Know(m, w).Fresh().Push(data) == Know(s, w);
      RunKind(t, s, w);
    }
  }

  // Once the requests have a version, it stays of its kind.
  lemma {:induction false} StepKeepsKind(t: AddressText, id: ReqStep, b: bytes, l: Req)
    requires id != ReqVersion && (id == Req4IpAndPort ==> SameKind(l.version, SOCKS4))
    ensures SameKind(l.version, ReqOutcome(t, id, b, l).local.version)
  {
    hide ReadPacket, Address, Port, Index;
  }

  lemma {:induction false} RunKeepsKind(t: AddressText, m: Machine<ReqStep, Req>)
    requires ReqWf(m.steps, m.index, m.local) && m.index >= 1
    ensures SameKind(m.local.version, Run(ReqProg(t), m).local.version) && Run(ReqProg(t), m).index >= 1
    decreases Rank(ReqProg(t), m)
  {
    if m.index < |m.steps| {
      ReqRunTurn(t, m);
      StepKeepsKind(t, m.steps[m.index], m.buf, m.local);
      hide Run, ReqWf;
      var o := ReqOutcome(t, m.steps[m.index], m.buf, m.local);
      assert !o.action.Reset?;
      if Goes(o.action) {
        RunKeepsKind(t, After(ReqProg(t), m));
      }
    }
  }

  // The requests have settled the version.
  ghost predicate Settled(t: AddressText, b: Talk) {
    && Going(ReqProg(t), b.req) && Going(RespProg(t), b.resp) && b.req.index >= 1
    && b.resp.local.version == b.req.local.version
  }

  lemma {:induction false} ChunkKeeps(t: AddressText, b: Talk, rev: bool, data: bytes)
    requires Settled(t, b)
    ensures var n := FeedChunk(t, b, rev, data);
            && SameKind(b.req.local.version, n.req.local.version)
            && n.resp.local.version == n.req.local.version
            && (!n.req.Stopped() && !n.resp.Stopped() ==> Settled(t, n))
  {
    hide Run, Good, ReqWf, RespWf;
    if rev {
      StillGoing(RespProg(t), b.resp, data);
      FeedKind(t, b.resp, data, b.resp.local.version);
    } else {
      StillGoing(ReqProg(t), b.req, data);
      if data != [] {
        RunKeepsKind(t, b.req.Fresh().Push(data));
      }
    }
  }

  // The conversation with the replies read with another version.
  function Reading(b: Talk, w: int): (r: Talk)
    ensures r.Over() == b.Over() && r.req == b.req
  {
    b.(resp := Know(b.resp, w))
  }

  lemma {:induction false} ChunkIsOne(t: AddressText, b: Talk, rev: bool, data: bytes, w: int)
    requires Settled(t, b) && SameKind(b.req.local.version, w)
    ensures FeedOne(ReqProg(t), RespProg(t), Reading(b, w), rev, data) == Reading(FeedChunk(t, b, rev, data), w)
  {
    hide Feed, Good;
    if rev {
      FeedKind(t, b.resp, data, w);
    }
  }

  // From there on the conversation is that of two machines that share nothing, the replies being
  // read with any version of the same kind.
  lemma {:induction false} TalkIsBoth(t: AddressText, b: Talk, w: int, cs: seq<(bool, bytes)>)
    requires Settled(t, b) && SameKind(b.req.local.version, w)
    ensures Alike(t, b, w, cs)
    decreases |cs|
  {
    hide FeedOne, FeedChunk, Reading, Alike;
    if cs == [] || b.Over() {
      AlikeOver(t, b, w, cs);
    } else {
      var (rev, data) := cs[0];
      var n := FeedChunk(t, b, rev, data);
      ChunkKeeps(t, b, rev, data);
      ChunkIsOne(t, b, rev, data, w);
      if n.Over() {
        AlikeOver(t, n, w, cs[1..]);
      } else {
        TalkIsBoth(t, n, w, cs[1..]);
      }
      AlikeNext(t, b, w, cs);
    }
  }

  ghost predicate Alike(t: AddressText, b: Talk, w: int, cs: seq<(bool, bytes)>) {
    var r := FeedTalk(t, b, cs);
    && FeedBoth(ReqProg(t), RespProg(t), Reading(b, w), cs) == (Reading(r.0, w), r.1)
    && SameKind(b.req.local.version, r.0.req.local.version)
    && r.0.resp.local.version == r.0.req.local.version
  }

  lemma {:induction false} AlikeOver(t: AddressText, b: Talk, w: int, cs: seq<(bool, bytes)>)
    requires (cs == [] || b.Over()) && b.resp.local.version == b.req.local.version
    ensures Alike(t, b, w, cs)
  {
  }

  lemma {:induction false} AlikeNext(t: AddressText, b: Talk, w: int, cs: seq<(bool, bytes)>)
    requires cs != [] && !b.Over()
    requires var n := FeedChunk(t, b, cs[0].0, cs[0].1);
             && Alike(t, n, w, cs[1..]) && SameKind(b.req.local.version, n.req.local.version)
             && FeedOne(ReqProg(t), RespProg(t), Reading(b, w), cs[0].0, cs[0].1) == Reading(n, w)
    ensures Alike(t, b, w, cs)
  {
    TalkStep(t, b, cs);
    BothStep(ReqProg(t), RespProg(t), Reading(b, w), cs);
    hide FeedTalk, FeedBoth, FeedOne, FeedChunk, Reading, ReqProg, RespProg;
  }

  // Which direction the first byte has.
  function Opener(cs: seq<(bool, bytes)>): Option<bool> {
    if cs == [] then None else if cs[0].1 == [] then Opener(cs[1..]) else Some(cs[0].0)
  }

  lemma {:induction false} StartGood(t: AddressText)
    ensures Going(ReqProg(t), REQ_INITIAL)
    ensures forall v :: Going(RespProg(t), RespInitial(v))
  {
    ReqGood(t);
    RespGood(t);
  }

  // The first bytes of the requests settle the version or end the conversation.
  lemma {:induction false} FirstRequest(t: AddressText, data: bytes)
    requires data != []
    ensures var b := FeedChunk(t, START, false, data);
            && b.resp == RespInitial(b.req.local.version)
            && (!b.req.Stopped() ==> Settled(t, b))
            && (b.req.Stopped() ==> b.Over())
  {
    StartGood(t);
    StillGoing(ReqProg(t), REQ_INITIAL, data);
    FirstByte(t, data);
    hide Good, Run;
  }

  lemma {:induction false} FirstByte(t: AddressText, data: bytes)
    requires data != []
    ensures var m := Run(ReqProg(t), REQ_INITIAL.Push(data)); m.index >= 1 || m.cancelled
  {
    ReqGood(t);
    hide Good;
    var m := REQ_INITIAL.Push(data);
    assert m.buf == data;
    RunStep(ReqProg(t), m);
    if ReqOutcome(t, ReqVersion, data, m.local).action.Next? {
      RunKeepsKind(t, After(ReqProg(t), m));
    }
  }

  lemma {:induction false} NothingYet(t: AddressText, rev: bool)
    ensures FeedChunk(t, START, rev, []) == START
  {
  }

  // A CONVERSATION. When the requests come first, then however the two directions interleave, the
  // requests end as when all their bytes are fed at once, and the replies as when all of theirs
  // are read by a machine that has known the version from the start.
  lemma {:induction false} RequestsFirst(t: AddressText, cs: seq<(bool, bytes)>)
    requires Opener(cs) != Some(true)
    ensures var (r, n) := FeedTalk(t, START, cs);
            && Got(ReqProg(t), REQ_INITIAL, None, BytesOf(cs[..n], false), r.req, r.asked)
            && Got(RespProg(t), RespInitial(r.req.local.version), None, BytesOf(cs[..n], true), r.resp, r.answered)
            && (n < |cs| ==> r.Over())
  {
    StartGood(t);
    hide Run, Good, Feed, Wf;
    GotNothing(ReqProg(t), REQ_INITIAL, None);
    GotNothing(RespProg(t), RespInitial(INVALID), None);
    if cs != [] {
      var (rev, data) := cs[0];
      var (r, m) := FeedTalk(t, FeedChunk(t, START, rev, data), cs[1..]);
      FirstBytes(cs, m, false);
      FirstBytes(cs, m, true);
      if data == [] {
        NothingYet(t, rev);
        RequestsFirst(t, cs[1..]);
        assert forall d: bytes :: [] + d == d;
      } else {
        AfterFirst(t, data, cs[1..]);
      }
    }
  }

  lemma {:induction false} AfterFirst(t: AddressText, data: bytes, cs: seq<(bool, bytes)>)
    requires data != []
    ensures var (r, n) := FeedTalk(t, FeedChunk(t, START, false, data), cs);
            && Got(ReqProg(t), REQ_INITIAL, None, data + BytesOf(cs[..n], false), r.req, r.asked)
            && Got(RespProg(t), RespInitial(r.req.local.version), None, BytesOf(cs[..n], true), r.resp, r.answered)
            && (n < |cs| ==> r.Over())
  {
    StartGood(t);
    FirstRequest(t, data);
    hide Run, Good, Wf, Settled;
    var b := FeedChunk(t, START, false, data);
    var (r, n) := FeedTalk(t, b, cs);
    if b.req.Stopped() {
      GotMore(ReqProg(t), REQ_INITIAL, None, data, [], b.req, b.asked);
      GotNothing(RespProg(t), b.resp, None);
    } else {
      SettledGoes(t, b);
      TalkIsBoth(t, b, b.req.local.version, cs);
      TalkIsBoth(t, b, r.req.local.version, cs);
      var a := b.(resp := RespInitial(r.req.local.version));
      assert a == Reading(b, r.req.local.version);
      DirectionsIndependent(ReqProg(t), RespProg(t), a, cs);
      assert r.(resp := Know(r.resp, r.req.local.version)) == r;
      GotMore(ReqProg(t), REQ_INITIAL, None, data, BytesOf(cs[..n], false), r.req, r.asked);
    }
  }

  lemma {:induction false} SettledGoes(t: AddressText, b: Talk)
    requires Settled(t, b)
    ensures Going(ReqProg(t), b.req) && b.resp.local.version == b.req.local.version
  {
  }

  // When a reply comes first, the stream is given up at its first byte, with nothing published.
  lemma {:induction false} ReplyFirst(t: AddressText, cs: seq<(bool, bytes)>)
    requires Opener(cs) == Some(true)
    ensures var r := FeedTalk(t, START, cs).0;
            r.resp.cancelled && r.resp.index == 0 && r.req == REQ_INITIAL && r.asked.None? && r.answered.None?
  {
    var (rev, data) := cs[0];
    if data == [] {
      NothingYet(t, rev);
      ReplyFirst(t, cs[1..]);
    } else {
      RespGood(t);
      hide Good;
      var m := RespInitial(INVALID).Push(data);
      assert m.buf == data;
      RunStep(RespProg(t), m);
    }
  }

  // Feeding chunk by chunk has come to this conversation after n chunks.
  ghost predicate Come(t: AddressText, cs: seq<(bool, bytes)>, n: nat, b: Talk) {
    && n <= |cs| && !b.req.updated && !b.resp.updated
    && FeedTalk(t, START, cs) == (FeedTalk(t, b, cs[n..]).0, n + FeedTalk(t, b, cs[n..]).1)
  }

  lemma {:induction false} ComeFirst(t: AddressText, cs: seq<(bool, bytes)>)
    ensures Come(t, cs, 0, START)
  {
    assert cs[0..] == cs;
  }

  lemma {:induction false} ComeNext(t: AddressText, cs: seq<(bool, bytes)>, n: nat, b: Talk)
    requires Come(t, cs, n, b) && n < |cs| && !b.Over() && b.resp.local.version == b.req.local.version
    ensures var (rev, data) := cs[n];
            && Come(t, cs, n + 1, FeedChunk(t, b, rev, data))
            && (data == [] ==> FeedChunk(t, b, rev, data) == b)
  {
    hide FeedTalk, FeedChunk;
    assert cs[n..][1..] == cs[n + 1..];
    TalkStep(t, b, cs[n..]);
    ChunkFresh(t, b, cs[n].0, cs[n].1);
  }

  // A call of Feed leaves the flags down, and an empty chunk does nothing.
  lemma {:induction false} ChunkFresh(t: AddressText, b: Talk, rev: bool, data: bytes)
    requires !b.req.updated && !b.resp.updated && b.resp.local.version == b.req.local.version
    ensures var n := FeedChunk(t, b, rev, data);
            !n.req.updated && !n.resp.updated && (data == [] ==> n == b)
  {
    hide Run;
    assert b.req.Fresh() == b.req && b.resp.Fresh() == b.resp;
  }

  // The engine's loop over the chunks of both directions, until one machine stops or both are
  // through, or a step panics.
  method Drive(t: AddressText, cs: seq<(bool, bytes)>)
    returns (n: nat, asked: Option<PropUpdate>, answered: Option<PropUpdate>, panicked: bool)
    ensures var (r, fed) := FeedTalk(t, START, cs);
            && n == fed && panicked == (r.req.crashed || r.resp.crashed)
            && asked == (if r.asked.Some? then Some(PropUpdate(Merge, r.asked.value)) else None)
            && answered == (if r.answered.Some? then Some(PropUpdate(Merge, r.answered.value)) else None)
  {
    ghost var b := START;
    hide FeedTalk, Come, Run, ReqProg, RespProg;
    ComeFirst(t, cs);
    var s := new SocksStream(t);
    var done := false;
    n, asked, answered, panicked := 0, None, None, false;
    while !done && !panicked && n < |cs|
      invariant n <= |cs| && (done || panicked) == b.Over() && panicked == (b.req.crashed || b.resp.crashed)
      invariant s.Valid() && fresh(s) && fresh(s.reqBuf) && fresh(s.respBuf) && fresh(s.reqLSM) && fresh(s.respLSM)
      invariant s.t == t && s.ReqMachine() == b.req && s.RespMachine() == b.resp
      invariant asked == Told(b.asked) && answered == Told(b.answered)
      invariant Come(t, cs, n, b)
    {
      var (rev, data) := cs[n];
      ComeNext(t, cs, n, b);
      var u: Option<PropUpdate>;
      u, done := s.Feed(rev, 0, data);
      panicked := s.reqPanicked || s.respPanicked;
      if u.Some? && !panicked {
        if rev {
          answered := u;
        } else {
          asked := u;
        }
      }
      b := FeedChunk(t, b, rev, data);
      n := n + 1;
    }
    ComeLast(t, cs, n, b);
  }

  lemma {:induction false} ComeLast(t: AddressText, cs: seq<(bool, bytes)>, n: nat, b: Talk)
    requires Come(t, cs, n, b) && (b.Over() || n == |cs|)
    ensures FeedTalk(t, START, cs) == (b, n)
  {
  }

  function Told(m: Option<PropMap>): Option<PropUpdate> {
    if m.Some? then Some(PropUpdate(Merge, m.value)) else None
  }
}
