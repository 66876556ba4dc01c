/** The stream parsers in the engine: from the pieces of a TCP stream to the properties a ruleset is
    shown (analyzer/tcp/tls.go:13-93, analyzer/tcp/http.go:13-90, engine/tcp.go:128-207). */
module EngineParsers {
  import opened Bytes
  import opened Props
  import opened Lsm
  import E = Entries
  import P = Publications
  import Rulesets
  import Streams
  import TcpEngine
  import TlsStreams
  import TlsHello
  import Http

  // Gaps end the analysis; nothing else is not read.
  predicate Reads(c: E.Call) { c.Feed? && c.chunk.Segment? && c.chunk.skip == 0 }

  // The two machines of a stream after a call, and its answer.
  ghost function TakeCall<I(!new), L(!new), J(!new), M(!new)>(
    p: Program<I, L>, q: Program<J, M>, b: Both<I, L, J, M>, c: E.Call): Both<I, L, J, M>
  {
    if Reads(c) then FeedOne(p, q, b, c.chunk.rev, c.chunk.data) else b
  }

  ghost function AnswerTo<I(!new), L(!new), J(!new), M(!new)>(
    p: Program<I, L>, q: Program<J, M>, b: Both<I, L, J, M>, c: E.Call): E.Answer
  {
    if c.Close? then E.Answer(None, false, None)
    else if !Reads(c) then E.Answer(None, true, None)
    else if c.chunk.data == [] then E.Answer(None, false, None)
    else
      var u := if c.chunk.rev then MergeUnder("resp", Feed(q, b.resp, c.chunk.data).1)
               else MergeUnder("req", Feed(p, b.req, c.chunk.data).1);
      E.Answer(u, TakeCall(p, q, b, c).Over(), None)
  }

  ghost function Talk<I(!new), L(!new), J(!new), M(!new)>(
    p: Program<I, L>, q: Program<J, M>, b: Both<I, L, J, M>, calls: seq<E.Call>): Both<I, L, J, M>
  {
    if calls == [] then b else TakeCall(p, q, Talk(p, q, b, calls[..|calls| - 1]), calls[|calls| - 1])
  }

  ghost function Reply<I(!new), L(!new), J(!new), M(!new)>(
    p: Program<I, L>, q: Program<J, M>, b: Both<I, L, J, M>, calls: seq<E.Call>): E.Answer
  {
    if calls == [] then E.Answer(None, false, None)
    else AnswerTo(p, q, Talk(p, q, b, calls[..|calls| - 1]), calls[|calls| - 1])
  }

  // The stream as an analyzer.
  ghost function Parser<I(!new), L(!new), J(!new), M(!new)>(
    p: Program<I, L>, q: Program<J, M>, b: Both<I, L, J, M>): E.Analyzer
  {
    calls => Reply(p, q, b, calls)
  }

  // Parsers copy what they are fed and write nothing into it.
  lemma {:induction false} ParserGentle<I(!new), L(!new), J(!new), M(!new)>(
    p: Program<I, L>, q: Program<J, M>, b: Both<I, L, J, M>)
    ensures E.Gentle(Parser(p, q, b))
  {
    forall calls ensures Parser(p, q, b)(calls).left.None? {
      assert Parser(p, q, b)(calls) == Reply(p, q, b, calls);
    }
  }

  // And they publish nothing in closing.
  lemma {:induction false} ParserQuiet<I(!new), L(!new), J(!new), M(!new)>(
    p: Program<I, L>, q: Program<J, M>, b: Both<I, L, J, M>)
    ensures P.Quiet(Parser(p, q, b))
  {
    forall calls: seq<E.Call> | calls != [] && calls[|calls| - 1].Close?
      ensures Parser(p, q, b)(calls).update.None?
    {
      assert Parser(p, q, b)(calls) == Reply(p, q, b, calls);
    }
  }

  // A stream at its start.
  ghost predicate Fresh<I(!new), L(!new), J(!new), M(!new)>(
    p: Program<I, L>, q: Program<J, M>, b: Both<I, L, J, M>)
  {
    Going(p, b.req) && Going(q, b.resp) && !b.Over() && b.asked.None? && b.answered.None?
  }

  // What the two directions have published, under their two keys.
  function Shown(asked: Option<PropMap>, answered: Option<PropMap>): Option<PropMap> {
    if asked.None? && answered.None? then None
    else
      Some((if asked.Some? then map["req" := Nested(asked.value)] else map[])
           + (if answered.Some? then map["resp" := Nested(answered.value)] else map[]))
  }

  lemma {:induction false} TalkSnoc<I(!new), L(!new), J(!new), M(!new)>(
    p: Program<I, L>, q: Program<J, M>, b: Both<I, L, J, M>, calls: seq<E.Call>, n: nat)
    requires n < |calls|
    ensures Talk(p, q, b, calls[..n + 1]) == TakeCall(p, q, Talk(p, q, b, calls[..n]), calls[n])
    ensures Reply(p, q, b, calls[..n + 1]) == AnswerTo(p, q, Talk(p, q, b, calls[..n]), calls[n])
  {
    assert calls[..n + 1][..n] == calls[..n];
  }

  lemma {:induction false} FeedLowers<I(!new), L(!new), J(!new), M(!new)>(
    p: Program<I, L>, q: Program<J, M>, b: Both<I, L, J, M>, rev: bool, data: bytes)
    requires !b.req.updated && !b.resp.updated
    ensures var n := FeedOne(p, q, b, rev, data);
            !n.req.updated && !n.resp.updated && (data == [] ==> n == b)
  {
    hide Run;
    assert b.req.Fresh() == b.req && b.resp.Fresh() == b.resp;
  }

  lemma {:induction false} TalkLowers<I(!new), L(!new), J(!new), M(!new)>(
    p: Program<I, L>, q: Program<J, M>, b: Both<I, L, J, M>, calls: seq<E.Call>)
    requires !b.req.updated && !b.resp.updated
    ensures !Talk(p, q, b, calls).req.updated && !Talk(p, q, b, calls).resp.updated
  {
    hide FeedOne;
    if calls != [] {
      var n := |calls| - 1;
      TalkLowers(p, q, b, calls[..n]);
      if Reads(calls[n]) {
        FeedLowers(p, q, Talk(p, q, b, calls[..n]), calls[n].chunk.rev, calls[n].chunk.data);
      }
    }
  }

  lemma {:induction false} NothingShown()
    ensures Shown(None, None) == None
  {
  }

  lemma {:induction false} AskedMore(asked: Option<PropMap>, answered: Option<PropMap>, v: Option<PropMap>)
    ensures P.Updated(Shown(asked, answered), MergeUnder("req", v)) == Shown(Or(v, asked), answered)
  {
    if v.Some? {
      var m := if asked.None? && answered.None? then map[] else Shown(asked, answered).value;
      assert m + map["req" := Nested(v.value)] == Shown(v, answered).value;
    }
  }

  lemma {:induction false} AnsweredMore(asked: Option<PropMap>, answered: Option<PropMap>, v: Option<PropMap>)
    ensures P.Updated(Shown(asked, answered), MergeUnder("resp", v)) == Shown(asked, Or(v, answered))
  {
    if v.Some? {
      var m := if asked.None? && answered.None? then map[] else Shown(asked, answered).value;
      assert m + map["resp" := Nested(v.value)] == Shown(asked, v).value;
    }
  }

  // What the analyzer has published is what its machines have.
  lemma {:induction false} PublishedIsShown<I(!new), L(!new), J(!new), M(!new)>(
    p: Program<I, L>, q: Program<J, M>, b: Both<I, L, J, M>, calls: seq<E.Call>)
    requires !b.req.updated && !b.resp.updated && b.asked.None? && b.answered.None?
    ensures var t := Talk(p, q, b, calls); P.Published(Parser(p, q, b), calls) == Shown(t.asked, t.answered)
  {
    hide Feed, Shown, Both.Over;
    if calls == [] {
      assert Shown(None, None) == None by {
        NothingShown();
      }
    } else {
      var n := |calls| - 1;
      var b1 := Talk(p, q, b, calls[..n]);
      PublishedIsShown(p, q, b, calls[..n]);
      TalkLowers(p, q, b, calls[..n]);
      if Reads(calls[n]) {
        var c := calls[n].chunk;
        FeedLowers(p, q, b1, c.rev, c.data);
        AskedMore(b1.asked, b1.answered, Feed(p, b1.req, c.data).1);
        AnsweredMore(b1.asked, b1.answered, Feed(q, b1.resp, c.data).1);
      }
    }
  }

  // ---- What is fed ----

  // The chunks that are read among some calls.
  function ChunksOf(calls: seq<E.Call>): seq<(bool, bytes)> {
    if calls == [] then []
    else
      var c := calls[|calls| - 1];
      ChunksOf(calls[..|calls| - 1]) + if Reads(c) then [(c.chunk.rev, c.chunk.data)] else []
  }

  // Nothing is fed after the analyzer has said it is done.
  ghost predicate Orderly(a: E.Analyzer, calls: seq<E.Call>) {
    forall k, j :: 0 < k <= j < |calls| && calls[k - 1].Feed? && calls[j].Feed? ==> !a(calls[..k]).done
  }

  // Where a call of Feed comes, the stream is not over.
  lemma {:induction false} NotOver<I(!new), L(!new), J(!new), M(!new)>(
    p: Program<I, L>, q: Program<J, M>, b: Both<I, L, J, M>, calls: seq<E.Call>, n: nat)
    requires !b.req.updated && !b.resp.updated && !b.Over() && n <= |calls|
    requires forall k :: 0 < k <= n && calls[k - 1].Feed? ==> !Reply(p, q, b, calls[..k]).done
    ensures !Talk(p, q, b, calls[..n]).Over()
  {
    hide FeedOne, Both.Over;
    if n > 0 {
      NotOver(p, q, b, calls, n - 1);
      TalkSnoc(p, q, b, calls, n - 1);
      assert calls[..n][..n - 1] == calls[..n - 1];
      if Reads(calls[n - 1]) {
        TalkLowers(p, q, b, calls[..n - 1]);
        FeedLowers(p, q, Talk(p, q, b, calls[..n - 1]), calls[n - 1].chunk.rev, calls[n - 1].chunk.data);
        assert !Reply(p, q, b, calls[..n]).done;
      }
    }
  }

  lemma {:induction false} ChunksSnoc(calls: seq<E.Call>, n: nat)
    requires n < |calls|
    ensures ChunksOf(calls[..n + 1]) ==
              ChunksOf(calls[..n]) + if Reads(calls[n]) then [(calls[n].chunk.rev, calls[n].chunk.data)] else []
  {
    assert calls[..n + 1][..n] == calls[..n];
  }

  lemma {:induction false} ChunksFront(calls: seq<E.Call>, n: nat)
    requires n <= |calls|
    ensures ChunksOf(calls[..n]) <= ChunksOf(calls)
    decreases |calls| - n
  {
    if n < |calls| {
      ChunksSnoc(calls, n);
      ChunksFront(calls, n + 1);
    } else {
      assert calls[..n] == calls;
    }
  }

  lemma {:induction false} OrderlyNotOver<I(!new), L(!new), J(!new), M(!new)>(
    p: Program<I, L>, q: Program<J, M>, b: Both<I, L, J, M>, calls: seq<E.Call>, n: nat)
    requires !b.req.updated && !b.resp.updated && !b.Over() && Orderly(Parser(p, q, b), calls)
    requires n < |calls| && calls[n].Feed?
    ensures !Talk(p, q, b, calls[..n]).Over()
  {
    hide Reply, Talk, Both.Over;
    forall k | 0 < k <= n && calls[k - 1].Feed? ensures !Reply(p, q, b, calls[..k]).done {
      assert !Parser(p, q, b)(calls[..k]).done;
    }
    NotOver(p, q, b, calls, n);
  }

  lemma {:induction false} TalkReached<I(!new), L(!new), J(!new), M(!new)>(
    p: Program<I, L>, q: Program<J, M>, b: Both<I, L, J, M>, calls: seq<E.Call>, n: nat)
    requires !b.req.updated && !b.resp.updated && !b.Over() && n <= |calls| && Orderly(Parser(p, q, b), calls)
    ensures Reached(p, q, b, ChunksOf(calls), |ChunksOf(calls[..n])|, Talk(p, q, b, calls[..n]))
  {
    var cs := ChunksOf(calls);
    if n == 0 {
      ReachedFirst(p, q, b, cs);
    } else {
      hide Reached, FeedOne, Talk, ChunksOf, Both.Over, Orderly, Parser;
      TalkReached(p, q, b, calls, n - 1);
      TalkSnoc(p, q, b, calls, n - 1);
      ChunksSnoc(calls, n - 1);
      ChunksFront(calls, n);
      var c, before := calls[n - 1], ChunksOf(calls[..n - 1]);
      if Reads(c) {
        OrderlyNotOver(p, q, b, calls, n - 1);
        assert cs[|before|] == (before + [(c.chunk.rev, c.chunk.data)])[|before|];
        ReachedNext(p, q, b, cs, |before|, Talk(p, q, b, calls[..n - 1]));
      } else {
        assert before + [] == before;
      }
    }
  }

  // Each direction has published what its bytes at once would.
  lemma {:induction false} TalkGot<I(!new), L(!new), J(!new), M(!new)>(
    p: Program<I, L>, q: Program<J, M>, b: Both<I, L, J, M>, calls: seq<E.Call>)
    requires Fresh(p, q, b) && Orderly(Parser(p, q, b), calls)
    ensures var t, cs := Talk(p, q, b, calls), ChunksOf(calls);
            && Got(p, b.req, None, BytesOf(cs, false), t.req, t.asked)
            && Got(q, b.resp, None, BytesOf(cs, true), t.resp, t.answered)
  {
    var cs := ChunksOf(calls);
    TalkReached(p, q, b, calls, |calls|);
    assert calls[..|calls|] == calls;
    ReachedLast(p, q, b, cs, |cs|, Talk(p, q, b, calls));
    assert cs[..|cs|] == cs;
  }

  // ---- In a TCP stream ----

  // What the analyzer of a direction publishes for bytes fed to it at once.
  ghost function Parsed<Id(!new), L(!new)>(p: Program<Id, L>, m: Machine<Id, L>, data: bytes): Option<PropMap> {
    Feed(p, m, data).1
  }

  lemma {:induction false} EntryOrderly(e: E.Entry, ds: seq<E.Chunk>)
    requires E.Active(e, ds) || E.Done(e, ds)
    ensures Orderly(e.analyzer, e.calls)
  {
    hide E.Active, E.Done;
    forall k, j | 0 < k <= j < |e.calls| && e.calls[k - 1].Feed? && e.calls[j].Feed?
      ensures !e.analyzer(e.calls[..k]).done
    {
      E.NothingAfterDone(e, ds, k - 1);
      assert e.calls[k..][j - k] == e.calls[j];
    }
  }

  // The entry of a plan in a run.
  lemma {:induction false} EntryOf(flow: Rulesets.Flow, r: Rulesets.Ruleset, packets: seq<TcpEngine.Packet>, i: nat)
    returns (e: E.Entry)
    requires P.Planned(r.analyzers(flow), i)
    ensures var t, plan := TcpEngine.After(Streams.NewStream(flow, r), packets), r.analyzers(flow)[i];
            && (e in t.lists.active || e in t.lists.done) && E.Origin(e) == E.Start(plan)
            && e.name == plan.name && e.analyzer == plan.analyzer
            && E.At(t.lists.props, e.name) == P.Published(e.analyzer, e.calls)
  {
    hide TcpEngine.After, Streams.NewStream, E.At, P.Published;
    var plan := r.analyzers(flow)[i];
    var s := TcpEngine.After(Streams.NewStream(flow, r), packets).lists;
    TcpEngine.PropertiesPublished(flow, r, packets);
    assert P.OwnedBy(s, plan);
    e :| P.Owns(s, plan.name, e) && E.Origin(e) == E.Start(plan);
    assert e in P.Named(s.active, plan.name) + P.Named(s.done, plan.name);
  }

  // Once an analyzer has been called its ruleset has been asked, and what it was last shown under
  // the analyzer's name is what stands there.
  ghost predicate LastShown(t: Streams.Stream, e: E.Entry) {
    && (e.calls != [] ==> t.matched != [])
    && (t.matched != [] ==> E.At(t.matched[|t.matched| - 1], e.name) == E.At(t.lists.props, e.name))
  }

  lemma {:induction false} EntryShown(flow: Rulesets.Flow, r: Rulesets.Ruleset, packets: seq<TcpEngine.Packet>, i: nat,
                                      e: E.Entry)
    requires P.Planned(r.analyzers(flow), i) && P.Quiet(r.analyzers(flow)[i].analyzer)
    requires e.name == r.analyzers(flow)[i].name
    requires var s := TcpEngine.After(Streams.NewStream(flow, r), packets).lists; e in s.active || e in s.done
    ensures LastShown(TcpEngine.After(Streams.NewStream(flow, r), packets), e)
  {
    var t := TcpEngine.After(Streams.NewStream(flow, r), packets);
    TcpEngine.RulesetShown(flow, r, packets);
    TcpEngine.RunStays(Streams.NewStream(flow, r), packets);
    var plan := r.analyzers(flow)[i];
    hide TcpEngine.After, P.Planned, P.Quiet, E.At, P.PublishedBy;
    assert Streams.ShownUnder(t, plan.name, plan.analyzer);
  }

  // FROM SEGMENTS TO PROPERTIES. In every run of a TCP stream in the engine, whatever the other
  // analyzers and the rules do, what stands under the name of a parser is exactly what its two
  // directions publish for the bytes it has been fed, each direction's at once, and that is what the
  // ruleset was last shown; and as long as it is in use and nobody writes into the pieces, these are
  // all the bytes of the stream.
  lemma {:induction false} PropertiesParsed<I(!new), L(!new), J(!new), M(!new)>(
    p: Program<I, L>, q: Program<J, M>, b: Both<I, L, J, M>,
    flow: Rulesets.Flow, r: Rulesets.Ruleset, packets: seq<TcpEngine.Packet>, i: nat)
    returns (e: E.Entry)
    requires Fresh(p, q, b) && P.Planned(r.analyzers(flow), i)
    requires r.analyzers(flow)[i].analyzer == Parser(p, q, b)
    ensures var t := TcpEngine.After(Streams.NewStream(flow, r), packets);
            var cs := ChunksOf(e.calls);
            && (e in t.lists.active || e in t.lists.done) && E.Origin(e) == E.Start(r.analyzers(flow)[i])
            && LastShown(t, e)
            && (!Feed(p, b.req, BytesOf(cs, false)).0.crashed && !Feed(q, b.resp, BytesOf(cs, true)).0.crashed ==>
                  E.At(t.lists.props, e.name) ==
                    Shown(Parsed(p, b.req, BytesOf(cs, false)), Parsed(q, b.resp, BytesOf(cs, true))))
            && (E.GentlePlans(r.analyzers(flow)) && e in t.lists.active ==>
                  e.calls == E.Feeds(TcpEngine.Seen(Streams.NewStream(flow, r), packets)))
  {
    hide Feed, E.Active, E.Done, TcpEngine.After, TcpEngine.Seen, E.GentlePlans, Streams.NewStream, P.Planned, Talk,
      E.Sound, ChunksOf;
    var plans := r.analyzers(flow);
    var s := Streams.NewStream(flow, r);
    var t := TcpEngine.After(s, packets);
    e := EntryOf(flow, r, packets, i);
    TcpEngine.AnalyzersAccounted(flow, r, packets, false);
    var ds := E.OfferedTo(t.lists, E.Origins(E.StartAll(plans)), TcpEngine.Seen(s, packets), false, e);
    EntryOrderly(e, ds);
    ParserQuiet(p, q, b);
    EntryShown(flow, r, packets, i, e);
    PublishedIsShown(p, q, b, e.calls);
    TalkGot(p, q, b, e.calls);
    if E.GentlePlans(plans) && e in t.lists.active {
      TcpEngine.AnalyzersAccounted(flow, r, packets, true);
      StillFed(t.lists, E.Origins(E.StartAll(plans)), TcpEngine.Seen(s, packets), e);
    }
  }

  lemma {:induction false} StillFed(s: E.Lists, initial: multiset<E.Entry>, cs: seq<E.Chunk>, e: E.Entry)
    requires E.Sound(s, initial, cs, true) && e in s.active
    ensures e.calls == E.Feeds(cs)
  {
    assert E.ActiveIn(e, cs, true);
  }

  // ---- TLS and HTTP ----

  // Both analyzers ask for no more than this (analyzer/tcp/tls.go:18-20, analyzer/tcp/http.go:20-22).
  const LIMIT: int := 8192

  ghost function TlsAnalyzer(): E.Analyzer {
    Parser(TlsStreams.Prog(TlsStreams.Client), TlsStreams.Prog(TlsStreams.Server),
           Both(TlsStreams.INITIAL, TlsStreams.INITIAL, None, None))
  }

  ghost function HttpAnalyzer(t: Http.Tokens): E.Analyzer {
    Parser(Http.Prog(t, Http.Request), Http.Prog(t, Http.Response), Both(Http.INITIAL, Http.INITIAL, None, None))
  }

  // What a message fed at once publishes, from what it publishes in any pieces.
  lemma {:induction false} InOnePiece<Id(!new), L(!new)>(p: Program<Id, L>, m: Machine<Id, L>, data: bytes)
    requires Going(p, m)
    ensures Flatten([data]) == data
    ensures !Feed(p, m, data).0.crashed ==> FeedAll(p, m, [data], None).published == Parsed(p, m, data)
  {
    assert data + [] == data;
    ChunkIndependence(p, m, [data], None);
  }

  lemma {:induction false} TlsSafe(side: TlsStreams.Side, data: bytes)
    ensures !Feed(TlsStreams.Prog(side), TlsStreams.INITIAL, data).0.crashed
  {
    TlsStreams.NeverCrashes(side, TlsStreams.INITIAL.Fresh().Push(data));
  }

  lemma {:induction false} HttpSafe(t: Http.Tokens, side: Http.Side, data: bytes)
    ensures !Feed(Http.Prog(t, side), Http.INITIAL, data).0.crashed
  {
    Http.NeverCrashes(t, side, Http.INITIAL.Fresh().Push(data));
  }

  // The fields under a key of what stands under a name.
  function FieldsAt(props: E.CombinedProps, name: string, key: string): Option<PropMap> {
    if name in props && key in props[name] && props[name][key].Nested? then Some(props[name][key].props) else None
  }

  // A parser's plan in a ruleset, under a name that no other plan has.
  ghost predicate Uses(r: Rulesets.Ruleset, flow: Rulesets.Flow, i: nat, name: string, a: E.Analyzer) {
    P.Planned(r.analyzers(flow), i) && r.analyzers(flow)[i] == E.Plan(name, a, LIMIT)
  }

  // CLIENT HELLO IN THE ENGINE. In every run of a TCP stream whose ruleset asks for the TLS
  // analyzer: as soon as the client's bytes it has been fed begin with a hello in a record, the
  // ruleset has been asked, and was last shown exactly the fields of that hello, to the end of the
  // stream.
  lemma {:induction false} HelloShown(flow: Rulesets.Flow, r: Rulesets.Ruleset, packets: seq<TcpEngine.Packet>, i: nat,
                                      h: TlsHello.ClientHello, version: u16, recordLen: u16, x: bytes)
    returns (e: E.Entry)
    requires Uses(r, flow, i, "tls", TlsAnalyzer())
    requires h.Wf() && 41 <= |h.Encode()| < 0x100_0000
    ensures var t := TcpEngine.After(Streams.NewStream(flow, r), packets);
            && (e in t.lists.active || e in t.lists.done) && e.name == "tls" && e.limit == 8192
            && (BytesOf(ChunksOf(e.calls), false) ==
                  [0x16] + Put16(version) + Put16(recordLen) + [1] + Put24(|h.Encode()|) + h.Encode() + x
                ==> t.matched != [] && FieldsAt(t.matched[|t.matched| - 1], "tls", "req") == Some(h.Fields()))
            && (E.GentlePlans(r.analyzers(flow)) && e in t.lists.active ==>
                  e.calls == E.Feeds(TcpEngine.Seen(Streams.NewStream(flow, r), packets)))
  {
    hide TcpEngine.After, TcpEngine.Seen, Streams.NewStream, E.GentlePlans, P.Planned, Feed, Put16, Put24;
    var p, q := TlsStreams.Prog(TlsStreams.Client), TlsStreams.Prog(TlsStreams.Server);
    TlsStreams.AtStart(TlsStreams.Client);
    TlsStreams.AtStart(TlsStreams.Server);
    e := PropertiesParsed(p, q, Both(TlsStreams.INITIAL, TlsStreams.INITIAL, None, None), flow, r, packets, i);
    var data := BytesOf(ChunksOf(e.calls), false);
    TlsSafe(TlsStreams.Client, data);
    TlsSafe(TlsStreams.Server, BytesOf(ChunksOf(e.calls), true));
    InOnePiece(p, TlsStreams.INITIAL, data);
    if data == [0x16] + Put16(version) + Put16(recordLen) + [1] + Put24(|h.Encode()|) + h.Encode() + x {
      TlsStreams.ClientHelloThroughMachine(h, version, recordLen, x, [data]);
    }
  }

  // REQUESTS IN THE ENGINE: the same for HTTP, with the fields of the request line in their order
  // and every header.
  lemma {:induction false} RequestShown(t: Http.Tokens, flow: Rulesets.Flow, r: Rulesets.Ruleset,
                                        packets: seq<TcpEngine.Packet>, i: nat,
                                        line: bytes, hs: seq<Http.Header>, x: bytes)
    returns (e: E.Entry)
    requires Uses(r, flow, i, "http", HttpAnalyzer(t))
    requires 13 !in line && Http.HeadersWf(hs)
    requires var f := t.fields(line); |f| == 3 && [72, 84, 84, 80, 47] <= f[2]
    ensures var s := TcpEngine.After(Streams.NewStream(flow, r), packets);
            var f, headers := t.fields(line), Http.HeaderFields(t, hs, map[]);
            && Http.HeadersRead(t, hs, headers)
            && (e in s.lists.active || e in s.lists.done) && e.name == "http" && e.limit == 8192
            && (BytesOf(ChunksOf(e.calls), false) ==
                  line + [13, 10] + (Http.Joined(Http.Lines(hs)) + [13, 10, 13, 10] + x)
                ==> s.matched != [] && FieldsAt(s.matched[|s.matched| - 1], "http", "req") ==
                      Some(map["method" := Text(f[0]), "path" := Text(f[1]), "version" := Text(f[2]),
                               "headers" := Nested(headers)]))
            && (E.GentlePlans(r.analyzers(flow)) && e in s.lists.active ==>
                  e.calls == E.Feeds(TcpEngine.Seen(Streams.NewStream(flow, r), packets)))
  {
    hide TcpEngine.After, TcpEngine.Seen, Streams.NewStream, E.GentlePlans, P.Planned, Feed;
    hide Http.HeaderFields, Http.HeadersRead, Http.Joined, Http.Lines;
    var p, q := Http.Prog(t, Http.Request), Http.Prog(t, Http.Response);
    Http.AtStart(t, Http.Request);
    Http.AtStart(t, Http.Response);
    Http.HeadersMean(t, hs);
    e := PropertiesParsed(p, q, Both(Http.INITIAL, Http.INITIAL, None, None), flow, r, packets, i);
    var data := BytesOf(ChunksOf(e.calls), false);
    HttpSafe(t, Http.Request, data);
    HttpSafe(t, Http.Response, BytesOf(ChunksOf(e.calls), true));
    InOnePiece(p, Http.INITIAL, data);
    if data == line + [13, 10] + (Http.Joined(Http.Lines(hs)) + [13, 10, 13, 10] + x) {
      Http.RequestThroughMachine(t, line, hs, x, [data]);
    }
  }

  // The stream object answers the engine's calls as the analyzer does.
  method ServeTls(calls: seq<E.Call>) returns (answers: seq<E.Answer>)
    requires Orderly(TlsAnalyzer(), calls)
    ensures |answers| == |calls| && forall k :: 0 <= k < |calls| ==> answers[k] == TlsAnalyzer()(calls[..k + 1])
  {
    ghost var p, q := TlsStreams.Prog(TlsStreams.Client), TlsStreams.Prog(TlsStreams.Server);
    ghost var b := Both(TlsStreams.INITIAL, TlsStreams.INITIAL, None, None);
    answers := [];
    var s := new TlsStreams.TlsStream();
    assert Talk(p, q, b, calls[..0]) == b;
    hide Talk, Reply, TakeCall, AnswerTo, TlsStreams.Prog;
    for i := 0 to |calls|
      invariant |answers| == i && forall k :: 0 <= k < i ==> answers[k] == Reply(p, q, b, calls[..k + 1])
      invariant s.Valid() && fresh(s) && fresh(s.reqBuf) && fresh(s.respBuf) && fresh(s.reqLSM) && fresh(s.respLSM)
      invariant s.Req() == Talk(p, q, b, calls[..i]).req && s.Resp() == Talk(p, q, b, calls[..i]).resp
    {
      TalkSnoc(p, q, b, calls, i);
      if calls[i].Feed? {
        TlsReady(calls, i);
      }
      var a := ServeOne(s, calls[i], Talk(p, q, b, calls[..i]));
      answers := answers + [a];
    }
  }

  lemma {:induction false} TlsReady(calls: seq<E.Call>, i: nat)
    requires Orderly(TlsAnalyzer(), calls) && i < |calls| && calls[i].Feed?
    ensures var b := Both(TlsStreams.INITIAL, TlsStreams.INITIAL, None, None);
            var t := Talk(TlsStreams.Prog(TlsStreams.Client), TlsStreams.Prog(TlsStreams.Server), b, calls[..i]);
            !t.Over() && !t.req.updated && !t.resp.updated
  {
    var p, q := TlsStreams.Prog(TlsStreams.Client), TlsStreams.Prog(TlsStreams.Server);
    var b := Both(TlsStreams.INITIAL, TlsStreams.INITIAL, None, None);
    hide Talk, Reply;
    OrderlyNotOver(p, q, b, calls, i);
    TalkLowers(p, q, b, calls[..i]);
  }

  // One call.
  method ServeOne(s: TlsStreams.TlsStream, c: E.Call,
                  ghost b: Both<TlsStreams.StepId, TlsStreams.Half, TlsStreams.StepId, TlsStreams.Half>)
    returns (a: E.Answer)
    requires s.Valid() && s.Req() == b.req && s.Resp() == b.resp
    requires c.Feed? ==> !b.Over() && !b.req.updated && !b.resp.updated
    modifies s, s.reqBuf, s.respBuf, s.reqLSM, s.respLSM
    ensures s.Valid()
    ensures var p, q := TlsStreams.Prog(TlsStreams.Client), TlsStreams.Prog(TlsStreams.Server);
            && a == AnswerTo(p, q, b, c)
            && s.Req() == TakeCall(p, q, b, c).req && s.Resp() == TakeCall(p, q, b, c).resp
  {
    match c {
      case Close(_) => return E.Answer(None, false, None);
      case Feed(chunk) =>
        if !(chunk.Segment? && chunk.skip == 0) { return E.Answer(None, true, None); }
        ghost var p, q := TlsStreams.Prog(TlsStreams.Client), TlsStreams.Prog(TlsStreams.Server);
        FeedLowers(p, q, b, chunk.rev, chunk.data);
        hide TlsStreams.Prog;
        var u, done := s.Feed(chunk.rev, chunk.skip, chunk.data);
        return E.Answer(u, done, None);
    }
  }
}
