/** UDP streams in the workers: the dispatcher put together with the stream tables
    (engine/worker.go:136-186, engine/udp.go:119-152). */
module UdpWorkers {
  import opened Bytes
  import opened Rulesets
  import opened Streams
  import Udp = UdpEngine
  import opened Dispatch

  // What the packet decoder finds: UDP, or anything else, which the tables never see.
  datatype Layer = UdpLayer(flow: Flow, payload: bytes) | OtherLayer

  // A worker's streams; X stands for the TCP ones.
  datatype Both<X> = Both(table: Udp.Table, tcp: X)

  // The surroundings: the decoder, the serialiser of modified packets, which may fail, the choice
  // of the stream that makes room, and the TCP half.
  datatype World<!X> = World(parse: bytes -> Layer, serializes: (bytes, bytes) -> bool, victim: Udp.Table -> nat,
                             bound: nat, tcpStart: X, tcp: (X, Job) -> (X, Verdict), tcpLoad: (X, Ruleset) -> X)

  // What the worker makes of an answer: a modified packet that cannot be serialised is let through
  // as it is.
  function Final<X>(w: World<X>, j: Job, a: Udp.Sent): Verdict {
    if a.verdict.AcceptModify? && a.packet.Some? && !w.serializes(j.data, a.packet.value) then Accept else a.verdict
  }

  function EventOf<X>(w: World<X>, t: Udp.Table, j: Job): Udp.Event
    requires w.parse(j.data).UdpLayer?
  {
    Udp.Packet(j.streamId, w.parse(j.data).flow, w.parse(j.data).payload, w.victim(t))
  }

  function Handled<X>(w: World<X>, b: Both<X>, j: Job): (Both<X>, Verdict) {
    match w.parse(j.data)
    case UdpLayer(flow, payload) =>
      (Both(Udp.Step(b.table, EventOf(w, b.table, j)), b.tcp),
       Final(w, j, Udp.SentFor(Udp.Visit(Udp.Lookup(b.table, j.streamId), b.table.ruleset, flow, payload))))
    case OtherLayer =>
      var (x, v) := w.tcp(b.tcp, j);
      (Both(b.table, x), v)
  }

  function FirstTable<X>(w: World<X>, r: Ruleset): Udp.Table {
    Udp.EmptyTable(w.bound, r)
  }

  function Make<X>(w: World<X>, r: Ruleset): Handler<Both<X>, Ruleset> {
    Handler(
      Both(FirstTable(w, r), w.tcpStart),
      (b, j) => Handled(w, b, j),
      (b: Both<X>, rs) => Both(b.table, w.tcpLoad(b.tcp, rs)),
      (b: Both<X>, rs) => Both(Udp.Step(b.table, Udp.Reload(rs)), b.tcp))
  }

  // What one piece of work means for a table.
  function EventsOf<X>(w: World<X>, t: Udp.Table, x: Work<Ruleset>): seq<Udp.Event> {
    match x
    case Did(j) => if w.parse(j.data).UdpLayer? then [EventOf(w, t, j)] else []
    case LoadedTcp(_) => []
    case LoadedUdp(rs) => [Udp.Reload(rs)]
  }

  // What a worker's log means for its table.
  function Events<X>(w: World<X>, r: Ruleset, log: seq<Work<Ruleset>>): seq<Udp.Event> {
    if log == [] then []
    else
      var n := |log| - 1;
      Events(w, r, log[..n]) + EventsOf(w, Replay(Make(w, r), log[..n]).0.table, log[n])
  }

  // The UDP packets among some.
  function UdpOf<X>(w: World<X>, js: seq<Job>): (r: seq<Job>)
    ensures forall j :: j in r ==> w.parse(j.data).UdpLayer?
  {
    if js == [] then []
    else
      var j := js[|js| - 1];
      UdpOf(w, js[..|js| - 1]) + if w.parse(j.data).UdpLayer? then [j] else []
  }

  // What they carry, and what events carry.
  function Carried<X>(w: World<X>, js: seq<Job>): seq<(Flow, bytes)> {
    if js == [] then []
    else
      var j := js[|js| - 1];
      Carried(w, js[..|js| - 1]) +
      if w.parse(j.data).UdpLayer? then [(w.parse(j.data).flow, w.parse(j.data).payload)] else []
  }

  function PacketsIn(es: seq<Udp.Event>, id: nat): seq<(Flow, bytes)> {
    if es == [] then []
    else
      var e := es[|es| - 1];
      PacketsIn(es[..|es| - 1], id) + if e.Packet? && e.id == id then [(e.flow, e.payload)] else []
  }

  // The verdicts on the UDP packets of one stream.
  function UdpVerdicts<X>(w: World<X>, rs: seq<Reply>, id: nat): seq<Verdict> {
    if rs == [] then []
    else
      var r := rs[|rs| - 1];
      UdpVerdicts(w, rs[..|rs| - 1], id) +
      if r.job.streamId == id && w.parse(r.job.data).UdpLayer? then [r.verdict] else []
  }

  // Answers turned into verdicts, packet by packet.
  function Finals<X>(w: World<X>, js: seq<Job>, ss: seq<Udp.Sent>): seq<Verdict>
    requires |js| == |ss|
  {
    seq(|js|, i requires 0 <= i < |js| => Final(w, js[i], ss[i]))
  }

  lemma {:induction false} AfterSnoc(t: Udp.Table, es: seq<Udp.Event>, e: Udp.Event, id: nat)
    ensures Udp.After(t, es + [e]) == Udp.Step(Udp.After(t, es), e)
    ensures Udp.AllSentOf(t, es + [e], id) == Udp.AllSentOf(t, es, id) + Udp.SentOf(Udp.After(t, es), e, id)
    decreases |es|
  {
    hide Udp.Step, Udp.SentOf;
    if es == [] {
      assert [] + [e] == [e];
      assert Udp.AllSentOf(t, [e], id) == Udp.SentOf(t, e, id) + Udp.AllSentOf(Udp.Step(t, e), [e][1..], id);
    } else {
      var t1 := Udp.Step(t, es[0]);
      AfterSnoc(t1, es[1..], e, id);
      assert (es + [e])[1..] == es[1..] + [e];
      Assoc(Udp.SentOf(t, es[0], id), Udp.AllSentOf(t1, es[1..], id), Udp.SentOf(Udp.After(t1, es[1..]), e, id));
    }
  }

  lemma {:induction false} ReplySnoc<X>(w: World<X>, rs: seq<Reply>, r: Reply, id: nat)
    ensures UdpVerdicts(w, rs + [r], id) ==
            UdpVerdicts(w, rs, id) + if r.job.streamId == id && w.parse(r.job.data).UdpLayer? then [r.verdict] else []
    ensures UdpOf(w, Of(Jobs(rs + [r]), id)) ==
            UdpOf(w, Of(Jobs(rs), id)) +
            if r.job.streamId == id && w.parse(r.job.data).UdpLayer? then [r.job] else []
  {
    assert (rs + [r])[..|rs|] == rs;
    JobsSnoc(rs, r);
    var js := Jobs(rs);
    assert (js + [r.job])[..|js|] == js;
    assert (Of(js, id) + [r.job])[..|Of(js, id)|] == Of(js, id);
    assert Of(js, id) + [] == Of(js, id);
  }

  lemma {:induction false} CarriedSnoc<X>(w: World<X>, js: seq<Job>, j: Job)
    requires w.parse(j.data).UdpLayer?
    ensures Carried(w, js + [j]) == Carried(w, js) + [(w.parse(j.data).flow, w.parse(j.data).payload)]
  {
    assert (js + [j])[..|js|] == js;
  }

  lemma {:induction false} PacketsSnoc(es: seq<Udp.Event>, e: Udp.Event, id: nat)
    ensures PacketsIn(es + [e], id) == PacketsIn(es, id) + if e.Packet? && e.id == id then [(e.flow, e.payload)] else []
  {
    assert (es + [e])[..|es|] == es;
  }

  lemma {:induction false} FinalsSnoc<X>(w: World<X>, js: seq<Job>, ss: seq<Udp.Sent>, j: Job, s: Udp.Sent)
    requires |js| == |ss|
    ensures Finals(w, js + [j], ss + [s]) == Finals(w, js, ss) + [Final(w, j, s)]
  {
  }

  // A worker's table and its verdicts on a stream follow these events, which carry what the
  // stream's packets carry.
  ghost predicate Follows<X>(w: World<X>, r: Ruleset, b: Both<X>, rs: seq<Reply>, es: seq<Udp.Event>, id: nat) {
    var js, ss := UdpOf(w, Of(Jobs(rs), id)), Udp.AllSentOf(FirstTable(w, r), es, id);
    && b.table == Udp.After(FirstTable(w, r), es)
    && |js| == |ss| && UdpVerdicts(w, rs, id) == Finals(w, js, ss)
    && PacketsIn(es, id) == Carried(w, js)
  }

  lemma {:induction false} HandledFollows<X>(w: World<X>, r: Ruleset, b: Both<X>, rs: seq<Reply>, es: seq<Udp.Event>,
      j: Job, id: nat)
    requires Follows(w, r, b, rs, es, id)
    ensures var (b1, v) := Handled(w, b, j); Follows(w, r, b1, rs + [Reply(j, v)], es + EventsOf(w, b.table, Did(j)),
              id)
  {
    hide Udp.Visit, Udp.Step, Of, UdpOf, Finals, Final, UdpVerdicts, Carried, PacketsIn, Udp.After, Udp.AllSentOf;
    var (b1, v) := Handled(w, b, j);
    var js, ss := UdpOf(w, Of(Jobs(rs), id)), Udp.AllSentOf(FirstTable(w, r), es, id);
    ReplySnoc(w, rs, Reply(j, v), id);
    if w.parse(j.data).UdpLayer? {
      var e := EventOf(w, b.table, j);
      AfterSnoc(FirstTable(w, r), es, e, id);
      PacketsSnoc(es, e, id);
      if j.streamId == id {
        var sent := Udp.SentFor(Udp.Visit(Udp.Lookup(b.table, id), b.table.ruleset, e.flow, e.payload));
        FinalsSnoc(w, js, ss, j, sent);
        CarriedSnoc(w, js, j);
      } else {
        assert ss + [] == ss && js + [] == js;
        assert UdpVerdicts(w, rs, id) + [] == UdpVerdicts(w, rs, id) && PacketsIn(es, id) + [] == PacketsIn(es, id);
      }
    } else {
      assert EventsOf(w, b.table, Did(j)) == [] && es + [] == es;
      assert UdpVerdicts(w, rs, id) + [] == UdpVerdicts(w, rs, id);
      assert js + [] == js;
    }
  }

  lemma {:induction false} ReloadFollows<X>(w: World<X>, r: Ruleset, b: Both<X>, rs: seq<Reply>, es: seq<Udp.Event>,
      x: Ruleset, id: nat)
    requires Follows(w, r, b, rs, es, id)
    ensures Follows(w, r, Both(Udp.Step(b.table, Udp.Reload(x)), b.tcp), rs, es + [Udp.Reload(x)], id)
  {
    hide Udp.Step, Udp.After, Udp.AllSentOf, PacketsIn;
    AfterSnoc(FirstTable(w, r), es, Udp.Reload(x), id);
    PacketsSnoc(es, Udp.Reload(x), id);
    var ss := Udp.AllSentOf(FirstTable(w, r), es, id);
    assert ss + [] == ss;
  }

  lemma {:induction false} NothingFollows<X>(w: World<X>, r: Ruleset, id: nat)
    ensures Follows(w, r, Both(FirstTable(w, r), w.tcpStart), [], [], id)
  {
    assert Jobs([]) == [] && Of([], id) == [];
  }

  lemma {:induction false} TableOfLog<X>(w: World<X>, r: Ruleset, log: seq<Work<Ruleset>>, id: nat)
    ensures var (b, rs) := Replay(Make(w, r), log); Follows(w, r, b, rs, Events(w, r, log), id)
  {
    hide Handled, Follows, Udp.Step;
    if log == [] {
      NothingFollows(w, r, id);
    } else {
      var n := |log| - 1;
      var (b, rs) := Replay(Make(w, r), log[..n]);
      var es := Events(w, r, log[..n]);
      TableOfLog(w, r, log[..n], id);
      match log[n]
      case Did(j) => HandledFollows(w, r, b, rs, es, j, id);
      case LoadedTcp(x) =>
        assert es + [] == es;
        TcpFollows(w, r, b, rs, es, w.tcpLoad(b.tcp, x), id);
      case LoadedUdp(x) => ReloadFollows(w, r, b, rs, es, x, id);
    }
  }

  lemma {:induction false} TcpFollows<X>(w: World<X>, r: Ruleset, b: Both<X>, rs: seq<Reply>, es: seq<Udp.Event>,
      tcp: X, id: nat)
    requires Follows(w, r, b, rs, es, id)
    ensures Follows(w, r, Both(b.table, tcp), rs, es, id)
  {
  }

  lemma {:induction false} UdpOfJoin<X>(w: World<X>, a: seq<Job>, b: seq<Job>)
    ensures UdpOf(w, a + b) == UdpOf(w, a) + UdpOf(w, b)
  {
    if b == [] {
      assert a + b == a;
    } else {
      assert (a + b)[..|a + b| - 1] == a + b[..|b| - 1];
      UdpOfJoin(w, a, b[..|b| - 1]);
    }
  }

  // The first packets of a worker hold the first packets of each stream.
  lemma {:induction false} FirstOnes<X>(w: World<X>, js: seq<Job>, all: seq<Job>, id: nat)
    requires js <= all
    ensures UdpOf(w, Of(js, id)) <= UdpOf(w, Of(all, id))
  {
    hide Of, UdpOf;
    assert all == js + all[|js|..];
    OfJoin(js, all[|js|..], id);
    UdpOfJoin(w, Of(js, id), Of(all[|js|..], id));
  }

  // The packets among the events that concern one stream.
  lemma {:induction false} OnlyPackets(es: seq<Udp.Event>, id: nat)
    ensures PacketsIn(Udp.Only(es, id), id) == PacketsIn(es, id)
    decreases |es|
  {
    if es != [] {
      var n := |es| - 1;
      OnlyPackets(es[..n], id);
      OnlySnoc(es[..n], es[n], id);
      assert es == es[..n] + [es[n]];
      PacketsSnoc(es[..n], es[n], id);
      if es[n].Packet? && es[n].id != id {
        assert Udp.Only(es[..n], id) + [] == Udp.Only(es[..n], id);
        assert PacketsIn(es[..n], id) + [] == PacketsIn(es[..n], id);
      } else {
        PacketsSnoc(Udp.Only(es[..n], id), es[n], id);
      }
    }
  }

  lemma {:induction false} OnlySnoc(es: seq<Udp.Event>, e: Udp.Event, id: nat)
    ensures Udp.Only(es + [e], id) == Udp.Only(es, id) + if e.Packet? && e.id != id then [] else [e]
    decreases |es|
  {
    if es == [] {
      assert [] + [e] == [e];
      assert Udp.Only([], id) == [];
    } else {
      assert (es + [e])[1..] == es[1..] + [e] && (es + [e])[0] == es[0];
      OnlySnoc(es[1..], e, id);
      var first := if es[0].Packet? && es[0].id != id then [] else [es[0]];
      var last := if e.Packet? && e.id != id then [] else [e];
      assert Udp.Only(es, id) == first + Udp.Only(es[1..], id);
      assert Udp.Only(es + [e], id) == first + Udp.Only(es[1..] + [e], id);
      hide Udp.Only;
      Assoc(first, Udp.Only(es[1..], id), last);
    }
  }

  lemma {:induction false} FinalsMean<X>(w: World<X>, js: seq<Job>, sent: seq<Udp.Sent>)
    requires |js| == |sent|
    ensures |Finals(w, js, sent)| == |js|
    ensures forall i :: 0 <= i < |js| ==>
              var altered := sent[i].verdict == AcceptModify && sent[i].packet.Some?;
              Finals(w, js, sent)[i] ==
                if altered && !w.serializes(js[i].data, sent[i].packet.value) then Accept else sent[i].verdict
  {
  }

  lemma {:induction false} StreamFollows<X>(w: World<X>, n: nat, r: Ruleset, acts: seq<Move<Ruleset>>, capacity: nat,
      id: nat)
    requires n > 0 && Runs(Make(w, r), Start(Make(w, r), n, r), acts, capacity)
    requires var s := After(Make(w, r), Start(Make(w, r), n, r), acts, capacity);
             id % n < |s.workers| && Udp.NeverEvicted(FirstTable(w, r), Events(w, r, s.workers[id % n].log), id)
    ensures var s := After(Make(w, r), Start(Make(w, r), n, r), acts, capacity);
            var k := s.workers[id % n];
            var replies := RepliesFor(s.verdicts, n, Some(id % n)) + Computed(k.hand);
            var js := UdpOf(w, Of(Jobs(replies), id));
            var es := Udp.Only(Events(w, r, k.log), id);
            var sent := Udp.SoloAfter(Udp.Solo(None, r), es).1;
            && js <= UdpOf(w, SupportedOf(s.arrivals, id))
            && PacketsIn(es, id) == Carried(w, js)
            && |js| == |sent| && UdpVerdicts(w, replies, id) == Finals(w, js, sent)
  {
    hide Runs, Of, UdpOf, SupportedOf, For, RepliesFor, Events, Udp.Only, Udp.SoloAfter, Udp.NeverEvicted, Udp.After,
      Udp.AllSentOf, PacketsIn, Carried, Finals, UdpVerdicts, Replay;
    var h := Make(w, r);
    var s := After(h, Start(h, n, r), acts, capacity);
    hide After, Make, Start;
    var k := s.workers[id % n];
    var replies := RepliesFor(s.verdicts, n, Some(id % n)) + Computed(k.hand);
    ConcurrentIsSerial(h, n, r, acts, capacity, id % n);
    TableOfLog(w, r, k.log, id);
    Udp.OthersDoNotMatter(FirstTable(w, r), Events(w, r, k.log), id);
    OnlyPackets(Events(w, r, k.log), id);
    FirstOnes(w, Jobs(replies), For(s.arrivals, n, Some(id % n)), id);
    OfFor(s.arrivals, n, id);
  }

  // A UDP STREAM IN THE WHOLE ENGINE. In every interleaving of arrivals, workers and reloads, and
  // as long as the stream is not evicted, the UDP packets of a stream that have been handled are
  // the first of those that arrived, in order; and the verdicts on them are those they would get
  // with no other stream anywhere, from events that carry just these packets and the reloads.
  lemma {:induction false} StreamAlone<X>(w: World<X>, n: nat, r: Ruleset, acts: seq<Move<Ruleset>>, capacity: nat,
      id: nat)
    requires n > 0 && Runs(Make(w, r), Start(Make(w, r), n, r), acts, capacity)
    requires var s := After(Make(w, r), Start(Make(w, r), n, r), acts, capacity);
             id % n < |s.workers| && Udp.NeverEvicted(FirstTable(w, r), Events(w, r, s.workers[id % n].log), id)
    ensures var s := After(Make(w, r), Start(Make(w, r), n, r), acts, capacity);
            var k := s.workers[id % n];
            var replies := RepliesFor(s.verdicts, n, Some(id % n)) + Computed(k.hand);
            var js := UdpOf(w, Of(Jobs(replies), id));
            var es := Udp.Only(Events(w, r, k.log), id);
            var sent := Udp.SoloAfter(Udp.Solo(None, r), es).1;
            && js <= UdpOf(w, SupportedOf(s.arrivals, id))
            && PacketsIn(es, id) == Carried(w, js)
            && |js| == |sent| == |UdpVerdicts(w, replies, id)|
            && forall i :: 0 <= i < |js| ==>
                 var altered := sent[i].verdict == AcceptModify && sent[i].packet.Some?;
                 UdpVerdicts(w, replies, id)[i] ==
                   if altered && !w.serializes(js[i].data, sent[i].packet.value) then Accept else sent[i].verdict
  {
    hide Runs, Of, UdpOf, SupportedOf, For, RepliesFor, Events, Udp.Only, Udp.SoloAfter, Udp.NeverEvicted, PacketsIn,
      Carried, Finals, UdpVerdicts, FirstTable;
    var s := After(Make(w, r), Start(Make(w, r), n, r), acts, capacity);
    hide After, Make, Start;
    StreamFollows(w, n, r, acts, capacity, id);
    var k := s.workers[id % n];
    var replies := RepliesFor(s.verdicts, n, Some(id % n)) + Computed(k.hand);
    FinalsMean(w, UdpOf(w, Of(Jobs(replies), id)),
               Udp.SoloAfter(Udp.Solo(None, r), Udp.Only(Events(w, r, k.log), id)).1);
  }
}
