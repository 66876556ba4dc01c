/** TCP streams in the workers: the dispatcher put together with the streams that the assembler
    feeds (engine/worker.go:170-177, engine/tcp.go:40-173). */
module TcpWorkers {
  import opened Bytes
  import opened Rulesets
  import opened Streams
  import T = TcpEngine
  import Udp = UdpEngine
  import U = UdpWorkers
  import opened Dispatch

  // The TCP decoder and the assembler, which finds or makes the connection of a packet by its flow
  // and decides everything else in any way: whether a packet without a connection opens one, what
  // piece it brings, and whether the connection ends with it.
  datatype Assembly<!A> = Assembly(flow: bytes -> Option<Flow>, opens: (A, Job) -> bool, piece: (A, Job) -> T.Packet,
                                   ends: (A, Job) -> bool, next: (A, Job) -> A, start: A)

  // A connection: its stream now and when it was made, the packets it has had, as the assembler
  // has taken them, and their verdicts.
  datatype Conn = Conn(now: Stream, first: Stream, packets: seq<T.Packet>, replies: seq<Reply>)

  // A worker's connections by the flow of their first packet, and those that have ended.
  datatype Tcp<A> = Tcp(assembler: A, ruleset: Ruleset, live: map<Flow, Conn>, over: seq<Conn>)

  function NewConn(f: Flow, r: Ruleset): Conn { Conn(NewStream(f, r), NewStream(f, r), [], []) }

  // The connection of a flow goes by it or by its reverse.
  function KeyOf(live: map<Flow, Conn>, f: Flow): Flow {
    if f !in live && Reversed(f) in live then Reversed(f) else f
  }

  function Took(c: Conn, p: T.Packet, j: Job): (Conn, Verdict) {
    var (s, v) := T.Handle(c.now, p);
    (Conn(s, c.first, c.packets + [p], c.replies + [Reply(j, v)]), v)
  }

  function HandleTcp<A>(y: Assembly<A>, t: Tcp<A>, j: Job): (Tcp<A>, Verdict) {
    var t1 := t.(assembler := y.next(t.assembler, j));
    match y.flow(j.data)
    case None => (t, Accept)
    case Some(f) =>
      var k := KeyOf(t.live, f);
      if k !in t.live && !y.opens(t.assembler, j) then (t1, Accept)
      else
        var c := if k in t.live then t.live[k] else NewConn(f, t.ruleset);
        var (c1, v) := Took(c, y.piece(t.assembler, j), j);
        if y.ends(t.assembler, j) then
          (t1.(live := t.live - {k}, over := t.over + [c1.(now := T.Complete(c1.now))]), v)
        else (t1.(live := t.live[k := c1]), v)
  }

  // The surroundings of the workers with this TCP half.
  function WorldOf<A>(y: Assembly<A>, parse: bytes -> U.Layer, serializes: (bytes, bytes) -> bool,
                      victim: Udp.Table -> nat, bound: nat, r: Ruleset): U.World<Tcp<A>>
  {
    U.World(parse, serializes, victim, bound, Tcp(y.start, r, map[], []),
            (t: Tcp<A>, j) => HandleTcp(y, t, j), (t: Tcp<A>, rs) => t.(ruleset := rs))
  }

  // ---- What is kept ----

  // The flow of a packet that comes to the TCP half.
  function FlowOf<A>(y: Assembly<A>, parse: bytes -> U.Layer, j: Job): Option<Flow> {
    if parse(j.data).UdpLayer? then None else y.flow(j.data)
  }

  predicate SameConn(g: Option<Flow>, f: Flow) { g == Some(f) || g == Some(Reversed(f)) }

  // The answers to the packets of a flow, in either direction.
  function RepliesOf<A>(y: Assembly<A>, parse: bytes -> U.Layer, rs: seq<Reply>, f: Flow): seq<Reply> {
    if rs == [] then []
    else
      var x := rs[|rs| - 1];
      RepliesOf(y, parse, rs[..|rs| - 1], f) + if SameConn(FlowOf(y, parse, x.job), f) then [x] else []
  }

  function VerdictsOf(rs: seq<Reply>): seq<Verdict> {
    seq(|rs|, i requires 0 <= i < |rs| => rs[i].verdict)
  }

  // The stream and the verdicts are what a stream made under its ruleset gives for these packets.
  ghost predicate ConnKept(c: Conn, ended: bool) {
    && c.first == NewStream(c.first.flow, c.first.ruleset)
    && c.now == (if ended then T.Complete(T.After(c.first, c.packets)) else T.After(c.first, c.packets))
    && VerdictsOf(c.replies) == T.Verdicts(c.first, c.packets)
  }

  // The answers of the connection are a stretch of those to its flow, from the n-th on; as long as
  // it lives, up to the last.
  predicate Stretch(all: seq<Reply>, c: Conn, n: nat, ended: bool) {
    && n + |c.replies| <= |all| && all[n..n + |c.replies|] == c.replies
    && (!ended ==> n + |c.replies| == |all|)
  }

  ghost predicate Good<A>(y: Assembly<A>, parse: bytes -> U.Layer, c: Conn, ended: bool, rs: seq<Reply>,
                          loaded: seq<Ruleset>)
  {
    && ConnKept(c, ended) && c.first.ruleset in loaded
    && exists n :: Stretch(RepliesOf(y, parse, rs, c.first.flow), c, n, ended)
  }

  ghost predicate Kept<A>(y: Assembly<A>, parse: bytes -> U.Layer, t: Tcp<A>, rs: seq<Reply>, loaded: seq<Ruleset>) {
    && t.ruleset in loaded
    && (forall f :: f in t.live ==> t.live[f].first.flow == f && Good(y, parse, t.live[f], false, rs, loaded))
    && (forall f :: f in t.live && Reversed(f) in t.live ==> Reversed(f) == f)
    && (forall c :: c in t.over ==> Good(y, parse, c, true, rs, loaded))
  }

  // The rulesets that have been put into the TCP factory.
  function Loaded(r: Ruleset, log: seq<Work<Ruleset>>): seq<Ruleset> {
    if log == [] then [r]
    else Loaded(r, log[..|log| - 1]) + match log[|log| - 1] case LoadedTcp(x) => [x] case _ => []
  }

  lemma {:induction false} HandleSnoc(s: Stream, ps: seq<T.Packet>, p: T.Packet)
    ensures T.After(s, ps + [p]) == T.Handle(T.After(s, ps), p).0
    ensures T.Verdicts(s, ps + [p]) == T.Verdicts(s, ps) + [T.Handle(T.After(s, ps), p).1]
    decreases |ps|
  {
    hide T.Handle;
    if ps == [] {
      assert [] + [p] == [p];
    } else {
      var s1 := T.Handle(s, ps[0]).0;
      assert (ps + [p])[1..] == ps[1..] + [p];
      HandleSnoc(s1, ps[1..], p);
      Assoc([T.Handle(s, ps[0]).1], T.Verdicts(s1, ps[1..]), [T.Handle(T.After(s1, ps[1..]), p).1]);
    }
  }

  lemma {:induction false} TookKept(c: Conn, p: T.Packet, j: Job)
    requires ConnKept(c, false)
    ensures var (c1, v) := Took(c, p, j);
            ConnKept(c1, false) && ConnKept(c1.(now := T.Complete(c1.now)), true)
  {
    hide T.Handle, T.After, T.Verdicts, T.Complete;
    HandleSnoc(c.first, c.packets, p);
    var (s, v) := T.Handle(c.now, p);
    assert VerdictsOf(c.replies + [Reply(j, v)]) == VerdictsOf(c.replies) + [v];
  }

  lemma {:induction false} RepliesSnoc<A>(y: Assembly<A>, parse: bytes -> U.Layer, rs: seq<Reply>, x: Reply, f: Flow)
    ensures RepliesOf(y, parse, rs + [x], f) ==
              RepliesOf(y, parse, rs, f) + if SameConn(FlowOf(y, parse, x.job), f) then [x] else []
  {
    assert (rs + [x])[..|rs|] == rs;
  }

  // A connection that has ended, and one of another flow, do not mind another answer.
  lemma {:induction false} GoodStays<A>(y: Assembly<A>, parse: bytes -> U.Layer, c: Conn, ended: bool, rs: seq<Reply>,
                                        loaded: seq<Ruleset>, x: Reply, more: seq<Ruleset>)
    requires Good(y, parse, c, ended, rs, loaded)
    requires ended || !SameConn(FlowOf(y, parse, x.job), c.first.flow)
    ensures Good(y, parse, c, ended, rs + [x], loaded + more)
  {
    hide ConnKept, RepliesOf;
    var all := RepliesOf(y, parse, rs, c.first.flow);
    var n: nat :| Stretch(all, c, n, ended);
    RepliesSnoc(y, parse, rs, x, c.first.flow);
    assert all + [] == all;
    assert Stretch(RepliesOf(y, parse, rs + [x], c.first.flow), c, n, ended);
  }

  // One that takes a packet has the answer to it as its last.
  lemma {:induction false} GoodTakes<A>(y: Assembly<A>, parse: bytes -> U.Layer, c: Conn, rs: seq<Reply>,
                                        loaded: seq<Ruleset>, p: T.Packet, j: Job)
    requires Good(y, parse, c, false, rs, loaded) && SameConn(FlowOf(y, parse, j), c.first.flow)
    ensures var (c1, v) := Took(c, p, j);
            && Good(y, parse, c1, false, rs + [Reply(j, v)], loaded)
            && Good(y, parse, c1.(now := T.Complete(c1.now)), true, rs + [Reply(j, v)], loaded)
  {
    TookKept(c, p, j);
    var (c1, v) := Took(c, p, j);
    var c2 := c1.(now := T.Complete(c1.now));
    var x, all := Reply(j, v), RepliesOf(y, parse, rs, c.first.flow);
    var n: nat :| Stretch(all, c, n, false);
    RepliesSnoc(y, parse, rs, x, c.first.flow);
    StretchMore(all, c, n, x, c1);
    StretchMore(all, c, n, x, c2);
    hide ConnKept, RepliesOf, Stretch, Took;
    assert Stretch(RepliesOf(y, parse, rs + [x], c.first.flow), c1, n, false);
    assert Stretch(RepliesOf(y, parse, rs + [x], c.first.flow), c2, n, true);
  }

  lemma {:induction false} StretchMore(all: seq<Reply>, c: Conn, n: nat, x: Reply, c1: Conn)
    requires Stretch(all, c, n, false) && c1.replies == c.replies + [x]
    ensures Stretch(all + [x], c1, n, false) && Stretch(all + [x], c1, n, true)
  {
    assert (all + [x])[n..] == all[n..] + [x];
  }

  lemma {:induction false} NewGood<A>(y: Assembly<A>, parse: bytes -> U.Layer, f: Flow, r: Ruleset, rs: seq<Reply>,
                                      loaded: seq<Ruleset>)
    requires r in loaded
    ensures Good(y, parse, NewConn(f, r), false, rs, loaded)
  {
    var all := RepliesOf(y, parse, rs, f);
    assert Stretch(all, NewConn(f, r), |all|, false);
  }

  // A packet whose connection is not the one of this flow is not a packet of this flow.
  lemma {:induction false} OtherKey(live: map<Flow, Conn>, g: Flow, f: Flow)
    requires forall h :: h in live && Reversed(h) in live ==> Reversed(h) == h
    requires f in live && f != KeyOf(live, g)
    ensures !SameConn(Some(g), f)
  {
    assert Reversed(Reversed(f)) == f;
  }

  // One packet.
  lemma {:induction false} HandleKept<A>(y: Assembly<A>, parse: bytes -> U.Layer, t: Tcp<A>, rs: seq<Reply>,
                                         loaded: seq<Ruleset>, j: Job)
    requires Kept(y, parse, t, rs, loaded) && !parse(j.data).UdpLayer?
    ensures var (t1, v) := HandleTcp(y, t, j); Kept(y, parse, t1, rs + [Reply(j, v)], loaded)
  {
    hide Good, Took, NewConn, T.Complete, SameConn;
    var (t1, v) := HandleTcp(y, t, j);
    var x := Reply(j, v);
    assert loaded + [] == loaded;
    forall c | c in t.over ensures Good(y, parse, c, true, rs + [x], loaded) {
      GoodStays(y, parse, c, true, rs, loaded, x, []);
    }
    if y.flow(j.data).None? {
      forall f | f in t.live ensures Good(y, parse, t.live[f], false, rs + [x], loaded) {
        NotOfFlow(f);
        GoodStays(y, parse, t.live[f], false, rs, loaded, x, []);
      }
    } else {
      var g := y.flow(j.data).value;
      var k := KeyOf(t.live, g);
      forall f | f in t.live && f != k ensures Good(y, parse, t.live[f], false, rs + [x], loaded) {
        OtherKey(t.live, g, f);
        GoodStays(y, parse, t.live[f], false, rs, loaded, x, []);
      }
      if k in t.live || y.opens(t.assembler, j) {
        TakenKept(y, parse, t, rs, loaded, j, g);
      }
    }
  }

  lemma {:induction false} NotOfFlow(f: Flow)
    ensures !SameConn(None, f)
  {
  }

  lemma {:induction false} TakenKept<A>(y: Assembly<A>, parse: bytes -> U.Layer, t: Tcp<A>, rs: seq<Reply>,
                                        loaded: seq<Ruleset>, j: Job, g: Flow)
    requires Kept(y, parse, t, rs, loaded) && FlowOf(y, parse, j) == Some(g)
    ensures var k := KeyOf(t.live, g);
            var c := if k in t.live then t.live[k] else NewConn(g, t.ruleset);
            var (c1, v) := Took(c, y.piece(t.assembler, j), j);
            && c1.first.flow == k
            && Good(y, parse, c1, false, rs + [Reply(j, v)], loaded)
            && Good(y, parse, c1.(now := T.Complete(c1.now)), true, rs + [Reply(j, v)], loaded)
  {
    hide T.Handle, RepliesOf, ConnKept;
    var k := KeyOf(t.live, g);
    NewGood(y, parse, g, t.ruleset, rs, loaded);
    var c := if k in t.live then t.live[k] else NewConn(g, t.ruleset);
    assert c.first.flow == k && SameConn(Some(g), k);
    hide Good;
    GoodTakes(y, parse, c, rs, loaded, y.piece(t.assembler, j), j);
  }

  // A packet that is not TCP.
  lemma {:induction false} OtherKept<A>(y: Assembly<A>, parse: bytes -> U.Layer, t: Tcp<A>, rs: seq<Reply>,
                                        loaded: seq<Ruleset>, x: Reply)
    requires Kept(y, parse, t, rs, loaded) && FlowOf(y, parse, x.job).None?
    ensures Kept(y, parse, t, rs + [x], loaded)
  {
    hide Good, SameConn;
    assert loaded + [] == loaded;
    forall c | c in t.over ensures Good(y, parse, c, true, rs + [x], loaded) {
      GoodStays(y, parse, c, true, rs, loaded, x, []);
    }
    forall f | f in t.live ensures Good(y, parse, t.live[f], false, rs + [x], loaded) {
      NotOfFlow(f);
      GoodStays(y, parse, t.live[f], false, rs, loaded, x, []);
    }
  }

  lemma {:induction false} LoadKept<A>(y: Assembly<A>, parse: bytes -> U.Layer, t: Tcp<A>, rs: seq<Reply>,
                                       loaded: seq<Ruleset>, r: Ruleset)
    requires Kept(y, parse, t, rs, loaded)
    ensures Kept(y, parse, t.(ruleset := r), rs, loaded + [r])
  {
    hide ConnKept, Stretch, RepliesOf;
  }

  lemma {:induction false} TcpOfLog<A>(y: Assembly<A>, w: U.World<Tcp<A>>, r: Ruleset, log: seq<Work<Ruleset>>)
    requires w == WorldOf(y, w.parse, w.serializes, w.victim, w.bound, r)
    ensures var (b, rs) := Replay(U.Make(w, r), log); Kept(y, w.parse, b.tcp, rs, Loaded(r, log))
  {
    hide Kept, HandleTcp, Udp.Step, Udp.Visit, Udp.EmptyTable;
    if log == [] {
      NothingKept(y, w.parse, r);
    } else {
      var n := |log| - 1;
      var (b, rs) := Replay(U.Make(w, r), log[..n]);
      var loaded := Loaded(r, log[..n]);
      TcpOfLog(y, w, r, log[..n]);
      match log[n]
      case Did(j) =>
        var (b1, v) := U.Handled(w, b, j);
        assert loaded + [] == loaded;
        if w.parse(j.data).UdpLayer? {
          OtherKept(y, w.parse, b.tcp, rs, loaded, Reply(j, v));
        } else {
          HandleKept(y, w.parse, b.tcp, rs, loaded, j);
        }
      case LoadedTcp(x) => LoadKept(y, w.parse, b.tcp, rs, loaded, x);
      case LoadedUdp(_) => assert loaded + [] == loaded;
    }
  }

  lemma {:induction false} NothingKept<A>(y: Assembly<A>, parse: bytes -> U.Layer, r: Ruleset)
    ensures Kept(y, parse, Tcp(y.start, r, map[], []), [], [r])
  {
  }

  // TCP STREAMS IN THE WHOLE ENGINE. In every interleaving of arrivals, workers and reloads, and
  // whatever the assembler does: the packets a worker has handled are the first of those that
  // arrived for it, in order; and every connection, living or ended, has had a stretch of the
  // packets of its flow, one after the other, as a stream made under a ruleset that was loaded
  // before it began and kept until its end.
  lemma {:induction false} ConnectionsKept<A>(y: Assembly<A>, w: U.World<Tcp<A>>, n: nat, r: Ruleset,
                                              acts: seq<Move<Ruleset>>, capacity: nat, i: nat)
    requires w == WorldOf(y, w.parse, w.serializes, w.victim, w.bound, r)
    requires i < n && Runs(U.Make(w, r), Dispatch.Start(U.Make(w, r), n, r), acts, capacity)
    ensures var s := After(U.Make(w, r), Dispatch.Start(U.Make(w, r), n, r), acts, capacity);
            && |s.workers| == n
            && var k := s.workers[i];
            var replies := RepliesFor(s.verdicts, n, Some(i)) + Computed(k.hand);
            && Jobs(replies) <= For(s.arrivals, n, Some(i))
            && Kept(y, w.parse, k.streams.tcp, replies, Loaded(r, k.log))
  {
    hide Kept, Runs, After, RepliesFor, For, Replay, Loaded;
    ConcurrentIsSerial(U.Make(w, r), n, r, acts, capacity, i);
    TcpOfLog(y, w, r, After(U.Make(w, r), Dispatch.Start(U.Make(w, r), n, r), acts, capacity).workers[i].log);
  }

  // So the verdicts of every connection are plain accepts and then, for good, one stream verdict,
  // which is that of its last match under that ruleset.
  lemma {:induction false} ConnectionLanguage<A>(y: Assembly<A>, parse: bytes -> U.Layer, t: Tcp<A>, rs: seq<Reply>,
                                                 loaded: seq<Ruleset>, c: Conn, ended: bool)
    requires Kept(y, parse, t, rs, loaded)
    requires if ended then c in t.over else c.first.flow in t.live && t.live[c.first.flow] == c
    ensures var last, k := T.After(c.first, c.packets), T.Undecided(c.first, c.packets);
            && k <= |c.replies| == |c.packets|
            && VerdictsOf(c.replies) ==
               Repeat(Accept, k) + Repeat(T.ActionToTcpVerdict(T.Decision(last)), |c.replies| - k)
            && last.ruleset == c.first.ruleset && c.first.ruleset in loaded
  {
    hide Stretch, RepliesOf, T.Handle, T.After, T.Verdicts, T.Undecided, T.Decision, T.ActionToTcpVerdict, Repeat;
    assert ConnKept(c, ended) && c.first.ruleset in loaded;
    hide Kept, Good;
    T.VerdictLanguage(c.first, c.packets);
    VerdictEach(c.first, c.packets);
    RulesetKept(c.first, c.packets);
  }

  lemma {:induction false} VerdictEach(s: Stream, ps: seq<T.Packet>)
    ensures |T.Verdicts(s, ps)| == |ps|
    decreases |ps|
  {
    hide T.Handle;
    if ps != [] {
      VerdictEach(T.Handle(s, ps[0]).0, ps[1..]);
    }
  }

  lemma {:induction false} RulesetKept(s: Stream, ps: seq<T.Packet>)
    requires T.Consistent(s)
    ensures T.After(s, ps).ruleset == s.ruleset
    decreases |ps|
  {
    hide T.Handle;
    if ps != [] {
      T.HandleConsistent(s, ps[0]);
      RulesetKept(T.Handle(s, ps[0]).0, ps[1..]);
    }
  }

  // ---- Whose verdicts these are ----

  // An answer to a packet that is not UDP is the plain one, or one that a connection has given.
  ghost predicate Vouched<A>(parse: bytes -> U.Layer, t: Tcp<A>, x: Reply) {
    || parse(x.job.data).UdpLayer? || x.verdict == Accept
    || (exists f :: f in t.live && x in t.live[f].replies) || (exists c :: c in t.over && x in c.replies)
  }

  ghost predicate AllVouched<A>(parse: bytes -> U.Layer, t: Tcp<A>, rs: seq<Reply>) {
    forall x :: x in rs ==> Vouched(parse, t, x)
  }

  // Connections are not forgotten, and their answers are kept.
  ghost predicate Remembers<A>(t: Tcp<A>, t1: Tcp<A>) {
    && (forall c :: c in t.over ==> c in t1.over)
    && (forall f :: f in t.live ==>
          || (f in t1.live && t.live[f].replies <= t1.live[f].replies)
          || (exists c :: c in t1.over && t.live[f].replies <= c.replies))
  }

  lemma {:induction false} VouchedStays<A>(parse: bytes -> U.Layer, t: Tcp<A>, t1: Tcp<A>, x: Reply)
    requires Vouched(parse, t, x) && Remembers(t, t1)
    ensures Vouched(parse, t1, x)
  {
    if f :| f in t.live && x in t.live[f].replies {
      var rs := t.live[f].replies;
      var i :| 0 <= i < |rs| && rs[i] == x;
      if f in t1.live && rs <= t1.live[f].replies {
        assert t1.live[f].replies[i] == x;
      } else {
        var c :| c in t1.over && rs <= c.replies;
        assert c.replies[i] == x;
      }
    }
  }

  // The connection of a packet takes it, or there is none and the packet is let through.
  lemma {:induction false} HandleRemembers<A>(y: Assembly<A>, t: Tcp<A>, j: Job)
    ensures var (t1, v) := HandleTcp(y, t, j);
            && Remembers(t, t1)
            && (|| v == Accept
                || (exists f :: f in t1.live && Reply(j, v) in t1.live[f].replies)
                || (exists c :: c in t1.over && Reply(j, v) in c.replies))
  {
    hide T.Handle, T.Complete, KeyOf;
    var (t1, v) := HandleTcp(y, t, j);
    if y.flow(j.data).Some? {
      var f := y.flow(j.data).value;
      var k := KeyOf(t.live, f);
      if k in t.live || y.opens(t.assembler, j) {
        var c := if k in t.live then t.live[k] else NewConn(f, t.ruleset);
        var c1 := Took(c, y.piece(t.assembler, j), j).0;
        assert c1.replies[|c.replies|] == Reply(j, v) && c.replies <= c1.replies;
        if y.ends(t.assembler, j) {
          var c2 := c1.(now := T.Complete(c1.now));
          assert t1.over[|t.over|] == c2;
        } else {
          assert t1.live[k] == c1;
        }
      }
    }
  }

  lemma {:induction false} HandleVouched<A>(y: Assembly<A>, parse: bytes -> U.Layer, t: Tcp<A>, rs: seq<Reply>, j: Job)
    requires AllVouched(parse, t, rs)
    ensures var (t1, v) := HandleTcp(y, t, j); AllVouched(parse, t1, rs + [Reply(j, v)])
  {
    hide Vouched, Remembers;
    var (t1, v) := HandleTcp(y, t, j);
    HandleRemembers(y, t, j);
    hide HandleTcp;
    forall x | x in rs + [Reply(j, v)] ensures Vouched(parse, t1, x) {
      if x in rs {
        VouchedStays(parse, t, t1, x);
      } else {
        GivenNow(parse, t1, j, v);
      }
    }
  }

  lemma {:induction false} GivenNow<A>(parse: bytes -> U.Layer, t: Tcp<A>, j: Job, v: Verdict)
    requires || v == Accept
             || (exists f :: f in t.live && Reply(j, v) in t.live[f].replies)
             || (exists c :: c in t.over && Reply(j, v) in c.replies)
    ensures Vouched(parse, t, Reply(j, v))
  {
  }

  lemma {:induction false} VouchedOfLog<A>(y: Assembly<A>, w: U.World<Tcp<A>>, r: Ruleset, log: seq<Work<Ruleset>>)
    requires w == WorldOf(y, w.parse, w.serializes, w.victim, w.bound, r)
    ensures var (b, rs) := Replay(U.Make(w, r), log); AllVouched(w.parse, b.tcp, rs)
  {
    hide HandleTcp, Udp.Step, Udp.Visit, Udp.EmptyTable;
    if log != [] {
      var n := |log| - 1;
      var (b, rs) := Replay(U.Make(w, r), log[..n]);
      VouchedOfLog(y, w, r, log[..n]);
      match log[n]
      case Did(j) =>
        if !w.parse(j.data).UdpLayer? {
          HandleVouched(y, w.parse, b.tcp, rs, j);
        }
      case LoadedTcp(x) =>
      case LoadedUdp(_) =>
    }
  }

  // NO VERDICT FROM NOWHERE. In every run of the whole engine, a verdict on an IP packet other than
  // UDP that is not the plain one is a verdict of a connection which the packet belongs to; so
  // packets of other protocols, and those no connection takes, are let through.
  lemma {:induction false} VerdictsGiven<A>(y: Assembly<A>, w: U.World<Tcp<A>>, n: nat, r: Ruleset,
                                            acts: seq<Move<Ruleset>>, capacity: nat, i: nat)
    requires w == WorldOf(y, w.parse, w.serializes, w.victim, w.bound, r)
    requires i < n && Runs(U.Make(w, r), Dispatch.Start(U.Make(w, r), n, r), acts, capacity)
    ensures var s := After(U.Make(w, r), Dispatch.Start(U.Make(w, r), n, r), acts, capacity);
            && |s.workers| == n
            && forall x :: x in RepliesFor(s.verdicts, n, Some(i)) ==>
                 Vouched(w.parse, s.workers[i].streams.tcp, x)
  {
    hide Vouched, Runs, After, RepliesFor, For, Replay;
    ConcurrentIsSerial(U.Make(w, r), n, r, acts, capacity, i);
    var k := After(U.Make(w, r), Dispatch.Start(U.Make(w, r), n, r), acts, capacity).workers[i];
    VouchedOfLog(y, w, r, k.log);
  }
}
