/** Packets, workers and reloads as concurrent steps (engine/engine.go:50-115, engine/worker.go:107-143). */
module Dispatch {
  import opened Bytes
  import opened Rulesets

  // A packet from the kernel: its stream, its bytes, and its place among all that arrived.
  datatype Job = Job(serial: nat, streamId: nat, data: bytes)

  datatype Reply = Reply(job: Job, verdict: Verdict)

  // What a worker does to its streams: handles a packet, or has a ruleset put into one of its
  // two stream factories. W is the state of its streams, R a ruleset.
  datatype Handler<!W, !R> = Handler(start: W, handle: (W, Job) -> (W, Verdict), loadTcp: (W, R) -> W,
        loadUdp: (W, R) -> W)

  datatype Work<R> = Did(job: Job) | LoadedTcp(r: R) | LoadedUdp(r: R)

  datatype Hand = Empty | Taken(job: Job) | Handled(reply: Reply)

  // done and log record what the worker has answered and what has happened to its streams.
  datatype Worker<!W, R> = Worker(running: bool, queue: seq<Job>, hand: Hand, streams: W, tcpRules: R, udpRules: R,
                                  done: seq<Reply>, log: seq<Work<R>>)

  // A reload that has come to the given factory, counted over all workers.
  datatype Reload<R> = Reload(ruleset: R, next: nat)

  // waiting is the packet that the IO callback is trying to put into a worker's channel.
  datatype State<!W, R> = State(arrivals: seq<Job>, waiting: Option<Job>, workers: seq<Worker<W, R>>,
        verdicts: seq<Reply>,
                                current: R, reload: Option<Reload<R>>, stopping: bool)

  datatype Move<R> =
    | Arrive(streamId: nat, data: bytes)
    | Enqueue
    | Take(w: nat)
    | Handle(w: nat)
    | Answer(w: nat)
    | BeginReload(r: R)
    | LoadNext
    | EndReload
    | Stop
    | Quit(w: nat)

  // Packets with an unsupported IP version go nowhere.
  function Route(j: Job, n: nat): Option<nat>
    requires n > 0
  {
    if |j.data| > 0 && (j.data[0] / 16 == 4 || j.data[0] / 16 == 6) then Some(j.streamId % n) else None
  }

  function Start<W, R>(h: Handler<W, R>, n: nat, r: R): State<W, R> {
    State([], None, seq(n, _ => Worker(true, [], Empty, h.start, r, r, [], [])), [], r, None, false)
  }

  predicate Enabled<W, R>(s: State<W, R>, a: Move<R>, capacity: nat)
    requires |s.workers| > 0
  {
    match a
    case Arrive(_, _) => s.waiting.None?
    case Enqueue =>
      s.waiting.Some? && var to := Route(s.waiting.value, |s.workers|);
      to.Some? && to.value < |s.workers| && |s.workers[to.value].queue| < capacity
    case Take(w) => w < |s.workers| && s.workers[w].running && s.workers[w].hand.Empty? && s.workers[w].queue != []
    case Handle(w) => w < |s.workers| && s.workers[w].hand.Taken?
    case Answer(w) => w < |s.workers| && s.workers[w].hand.Handled?
    case BeginReload(_) => s.reload.None?
    case LoadNext => s.reload.Some? && s.reload.value.next < 2 * |s.workers|
    case EndReload => s.reload.Some? && s.reload.value.next == 2 * |s.workers|
    case Stop => true
    case Quit(w) => s.stopping && w < |s.workers| && s.workers[w].running && s.workers[w].hand.Empty?
  }

  function Next<W, R>(h: Handler<W, R>, s: State<W, R>, a: Move<R>, capacity: nat): State<W, R>
    requires |s.workers| > 0 && Enabled(s, a, capacity)
  {
    match a
    case Arrive(id, data) =>
      var j := Job(|s.arrivals|, id, data);
      var s1 := s.(arrivals := s.arrivals + [j]);
      if Route(j, |s.workers|).None? then s1.(verdicts := s.verdicts + [Reply(j, AcceptStream)])
      else s1.(waiting := Some(j))
    case Enqueue =>
      var j := s.waiting.value;
      var w := Route(j, |s.workers|).value;
      s.(waiting := None, workers := s.workers[w := s.workers[w].(queue := s.workers[w].queue + [j])])
    case Take(w) =>
      var k := s.workers[w];
      s.(workers := s.workers[w := k.(queue := k.queue[1..], hand := Taken(k.queue[0]))])
    case Handle(w) =>
      var k := s.workers[w];
      var (streams, v) := h.handle(k.streams, k.hand.job);
      s.(workers := s.workers[w := k.(hand := Handled(Reply(k.hand.job, v)), streams := streams,
        log := k.log + [Did(k.hand.job)])])
    case Answer(w) =>
      var k := s.workers[w];
      s.(workers := s.workers[w := k.(hand := Empty, done := k.done + [k.hand.reply])],
        verdicts := s.verdicts + [k.hand.reply])
    case BeginReload(r) => s.(reload := Some(Reload(r, 0)))
    case LoadNext =>
      var l := s.reload.value;
      var w := l.next / 2;
      var k := s.workers[w];
      var k1 := if l.next % 2 == 0
        then k.(streams := h.loadTcp(k.streams, l.ruleset), tcpRules := l.ruleset,
          log := k.log + [LoadedTcp(l.ruleset)])
        else k.(streams := h.loadUdp(k.streams, l.ruleset), udpRules := l.ruleset,
          log := k.log + [LoadedUdp(l.ruleset)]);
      s.(workers := s.workers[w := k1], reload := Some(Reload(l.ruleset, l.next + 1)))
    case EndReload => s.(current := s.reload.value.ruleset, reload := None)
    case Stop => s.(stopping := true)
    case Quit(w) => s.(workers := s.workers[w := s.workers[w].(running := false)])
  }

  // ---- Where the packets are ----

  function InHand(h: Hand): seq<Job> {
    match h
    case Empty => []
    case Taken(j) => [j]
    case Handled(r) => [r.job]
  }

  function Jobs(rs: seq<Reply>): (js: seq<Job>)
    ensures |js| == |rs|
  {
    seq(|rs|, i requires 0 <= i < |rs| => rs[i].job)
  }

  // The packets for one place, in order.
  function For(js: seq<Job>, n: nat, to: Option<nat>): seq<Job>
    requires n > 0
  {
    if js == [] then []
    else For(js[..|js| - 1], n, to) + if Route(js[|js| - 1], n) == to then [js[|js| - 1]] else []
  }

  function RepliesFor(rs: seq<Reply>, n: nat, to: Option<nat>): seq<Reply>
    requires n > 0
  {
    if rs == [] then []
    else RepliesFor(rs[..|rs| - 1], n, to) + if Route(rs[|rs| - 1].job, n) == to then [rs[|rs| - 1]] else []
  }

  function Waiting(o: Option<Job>): seq<Job> {
    if o.Some? then [o.value] else []
  }

  // Everything a worker has been given so far, in order.
  function Given<W, R>(k: Worker<W, R>): seq<Job> {
    Jobs(k.done) + InHand(k.hand) + k.queue
  }

  // A worker's packets are those of its streams, in the order in which they arrived, whether
  // answered, in hand, queued, or still waiting at its channel.
  ghost predicate InOrder<W, R>(s: State<W, R>, w: nat)
    requires w < |s.workers|
  {
    For(s.arrivals, |s.workers|, Some(w)) == Given(s.workers[w]) + For(Waiting(s.waiting), |s.workers|, Some(w))
  }

  // The verdicts on a worker's packets are the ones it has given; the other packets are let go.
  ghost predicate Answered<W, R>(s: State<W, R>, w: nat)
    requires w < |s.workers|
  {
    RepliesFor(s.verdicts, |s.workers|, Some(w)) == s.workers[w].done
  }

  ghost predicate LetGo<W, R>(s: State<W, R>)
    requires |s.workers| > 0
  {
    var rs := RepliesFor(s.verdicts, |s.workers|, None);
    && Jobs(rs) == For(s.arrivals, |s.workers|, None)
    && (forall i :: 0 <= i < |rs| ==> rs[i].verdict == AcceptStream)
    && (s.waiting.Some? ==> Route(s.waiting.value, |s.workers|).Some?)
  }

  // ---- What happened to a worker's streams ----

  function Replay<W, R>(h: Handler<W, R>, log: seq<Work<R>>): (W, seq<Reply>) {
    if log == [] then (h.start, [])
    else
      var n := |log| - 1;
      var (w, rs) := Replay(h, log[..n]);
      match log[n]
      case Did(j) => var (w1, v) := h.handle(w, j); (w1, rs + [Reply(j, v)])
      case LoadedTcp(r) => (h.loadTcp(w, r), rs)
      case LoadedUdp(r) => (h.loadUdp(w, r), rs)
  }

  function Computed(h: Hand): seq<Reply> {
    if h.Handled? then [h.reply] else []
  }

  // The streams and the verdicts are what handling the packets one after the other gives.
  ghost predicate Serial<W, R>(h: Handler<W, R>, k: Worker<W, R>) {
    Replay(h, k.log) == (k.streams, k.done + Computed(k.hand))
  }

  // ---- Reloads ----

  // The two factories of each worker, in the order in which a reload comes to them.
  function Factory<W, R>(s: State<W, R>, i: nat): R
    requires i < 2 * |s.workers|
  {
    if i % 2 == 0 then s.workers[i / 2].tcpRules else s.workers[i / 2].udpRules
  }

  // A reload has reached the first factories and not the others.
  ghost predicate Reloaded<W, R>(s: State<W, R>) {
    && (s.reload.Some? ==> s.reload.value.next <= 2 * |s.workers|)
    && forall i :: 0 <= i < 2 * |s.workers| ==> Factory(s, i) == Expected(s, i)
  }

  function Expected<W, R>(s: State<W, R>, i: nat): R {
    if s.reload.Some? && i < s.reload.value.next then s.reload.value.ruleset else s.current
  }

  ghost predicate WorkersGood<W, R>(h: Handler<W, R>, s: State<W, R>) {
    forall w :: 0 <= w < |s.workers| ==> InOrder(s, w) && Answered(s, w) && Serial(h, s.workers[w])
  }

  ghost predicate Good<W, R>(h: Handler<W, R>, s: State<W, R>) {
    |s.workers| > 0 && WorkersGood(h, s) && LetGo(s) && Reloaded(s)
  }

  // ---- Every step keeps it ----

  lemma {:induction false} ForSnoc(js: seq<Job>, j: Job, n: nat, to: Option<nat>)
    requires n > 0
    ensures For(js + [j], n, to) == For(js, n, to) + if Route(j, n) == to then [j] else []
  {
    assert (js + [j])[..|js|] == js;
  }

  lemma {:induction false} RepliesForSnoc(rs: seq<Reply>, r: Reply, n: nat, to: Option<nat>)
    requires n > 0
    ensures RepliesFor(rs + [r], n, to) == RepliesFor(rs, n, to) + if Route(r.job, n) == to then [r] else []
  {
    assert (rs + [r])[..|rs|] == rs;
  }

  lemma {:induction false} WaitingFor(j: Job, n: nat, to: Option<nat>)
    requires n > 0
    ensures For([], n, to) == [] && For([j], n, to) == if Route(j, n) == to then [j] else []
  {
    ForSnoc([], j, n, to);
    assert [] + [j] == [j];
  }

  lemma {:induction false} ReplaySnoc<W, R>(h: Handler<W, R>, log: seq<Work<R>>, x: Work<R>)
    ensures Replay(h, log + [x]) ==
            var (w, rs) := Replay(h, log);
            match x
            case Did(j) => (var (w1, v) := h.handle(w, j); (w1, rs + [Reply(j, v)]))
            case LoadedTcp(r) => (h.loadTcp(w, r), rs)
            case LoadedUdp(r) => (h.loadUdp(w, r), rs)
  {
    assert (log + [x])[..|log|] == log;
  }

  // A worker that is given nothing, and gives up nothing, keeps its packets in order.
  lemma {:induction false} InOrderSame<W, R>(s: State<W, R>, t: State<W, R>, w: nat)
    requires w < |s.workers| == |t.workers| && InOrder(s, w)
    requires t.arrivals == s.arrivals && t.waiting == s.waiting && Given(t.workers[w]) == Given(s.workers[w])
    ensures InOrder(t, w)
  {
  }

  lemma {:induction false} ArriveInOrder<W, R>(h: Handler<W, R>, s: State<W, R>, a: Move<R>, capacity: nat, w: nat)
    requires w < |s.workers| && a.Arrive? && Enabled(s, a, capacity) && InOrder(s, w)
    ensures InOrder(Next(h, s, a, capacity), w)
  {
    var n := |s.workers|;
    var j := Job(|s.arrivals|, a.streamId, a.data);
    var t := Next(h, s, a, capacity);
    assert t.workers == s.workers && t.arrivals == s.arrivals + [j];
    ForSnoc(s.arrivals, j, n, Some(w));
    WaitingFor(j, n, Some(w));
    NoneWaits(Given(s.workers[w]), s.waiting, n, Some(w));
    assert Route(j, n) != Some(w) ==> For(Waiting(t.waiting), n, Some(w)) == [];
  }

  lemma {:induction false} NoneWaits(js: seq<Job>, waiting: Option<Job>, n: nat, to: Option<nat>)
    requires n > 0 && waiting.None?
    ensures js + For(Waiting(waiting), n, to) == js
  {
  }

  // What the end of a wait changes.
  lemma {:induction false} EnqueueShape<W, R>(h: Handler<W, R>, s: State<W, R>, capacity: nat, w: nat)
    requires w < |s.workers| && Enabled(s, Enqueue, capacity)
    ensures var j, k, t := s.waiting.value, s.workers[w], Next(h, s, Enqueue, capacity);
            && t.arrivals == s.arrivals && t.waiting == None && |t.workers| == |s.workers|
            && t.workers[w] == (if Route(j, |s.workers|) == Some(w) then k.(queue := k.queue + [j]) else k)
  {
  }

  lemma {:induction false} GivenMore<W, R>(k: Worker<W, R>, j: Job)
    ensures Given(k.(queue := k.queue + [j])) == Given(k) + [j]
  {
    Assoc(Jobs(k.done) + InHand(k.hand), k.queue, [j]);
  }

  lemma {:induction false} EnqueueInOrder<W, R>(h: Handler<W, R>, s: State<W, R>, capacity: nat, w: nat)
    requires w < |s.workers| && Enabled(s, Enqueue, capacity) && InOrder(s, w)
    ensures InOrder(Next(h, s, Enqueue, capacity), w)
  {
    EnqueueShape(h, s, capacity, w);
    WaitingFor(s.waiting.value, |s.workers|, Some(w));
    GivenMore(s.workers[w], s.waiting.value);
    hide Next, For, Given, Route, Waiting, Enabled;
  }

  lemma {:induction false} TakeGiven<W, R>(k: Worker<W, R>)
    requires k.hand.Empty? && k.queue != []
    ensures Given(k.(queue := k.queue[1..], hand := Taken(k.queue[0]))) == Given(k)
  {
    assert k.queue == [k.queue[0]] + k.queue[1..];
    Assoc(Jobs(k.done), [k.queue[0]], k.queue[1..]);
  }

  lemma {:induction false} AnswerGiven<W, R>(k: Worker<W, R>)
    requires k.hand.Handled?
    ensures Given(k.(hand := Empty, done := k.done + [k.hand.reply])) == Given(k)
  {
    assert Jobs(k.done + [k.hand.reply]) == Jobs(k.done) + [k.hand.reply.job];
  }

  lemma {:induction false} TakeInOrder<W, R>(h: Handler<W, R>, s: State<W, R>, v: nat, capacity: nat, w: nat)
    requires w < |s.workers| && Enabled(s, Take(v), capacity) && InOrder(s, w)
    ensures InOrder(Next(h, s, Take(v), capacity), w)
  {
    TakeGiven(s.workers[v]);
    InOrderSame(s, Next(h, s, Take(v), capacity), w);
  }

  lemma {:induction false} AnswerInOrder<W, R>(h: Handler<W, R>, s: State<W, R>, v: nat, capacity: nat, w: nat)
    requires w < |s.workers| && Enabled(s, Answer(v), capacity) && InOrder(s, w)
    ensures InOrder(Next(h, s, Answer(v), capacity), w)
  {
    AnswerGiven(s.workers[v]);
    InOrderSame(s, Next(h, s, Answer(v), capacity), w);
  }

  // The other steps move no packet.
  lemma {:induction false} OtherKeeps<W, R>(h: Handler<W, R>, s: State<W, R>, a: Move<R>, capacity: nat, w: nat)
    requires w < |s.workers| && Enabled(s, a, capacity)
    requires !a.Arrive? && !a.Enqueue? && !a.Take? && !a.Answer?
    ensures var t := Next(h, s, a, capacity);
            && t.arrivals == s.arrivals && t.waiting == s.waiting && |t.workers| == |s.workers|
            && Given(t.workers[w]) == Given(s.workers[w])
  {
    hide Jobs;
    var k, l := s.workers[w], Next(h, s, a, capacity).workers[w];
    assert l.done == k.done && InHand(l.hand) == InHand(k.hand) && l.queue == k.queue;
  }

  lemma {:induction false} OtherInOrder<W, R>(h: Handler<W, R>, s: State<W, R>, a: Move<R>, capacity: nat, w: nat)
    requires w < |s.workers| && Enabled(s, a, capacity) && InOrder(s, w)
    requires !a.Arrive? && !a.Enqueue? && !a.Take? && !a.Answer?
    ensures InOrder(Next(h, s, a, capacity), w)
  {
    OtherKeeps(h, s, a, capacity, w);
    hide Next, InOrder, For, Jobs, InHand;
    InOrderSame(s, Next(h, s, a, capacity), w);
  }

  lemma {:induction false} StepInOrder<W, R>(h: Handler<W, R>, s: State<W, R>, a: Move<R>, capacity: nat, w: nat)
    requires w < |s.workers| && Enabled(s, a, capacity) && InOrder(s, w)
    ensures InOrder(Next(h, s, a, capacity), w)
  {
    if a.Arrive? {
      ArriveInOrder(h, s, a, capacity, w);
    } else if a.Enqueue? {
      EnqueueInOrder(h, s, capacity, w);
    } else if a.Take? {
      TakeInOrder(h, s, a.w, capacity, w);
    } else if a.Answer? {
      AnswerInOrder(h, s, a.w, capacity, w);
    } else {
      OtherInOrder(h, s, a, capacity, w);
    }
  }

  lemma {:induction false} HandRoute<W, R>(s: State<W, R>, w: nat)
    requires w < |s.workers| && InOrder(s, w)
    ensures forall j :: j in InHand(s.workers[w].hand) ==> Route(j, |s.workers|) == Some(w)
  {
    forall j | j in InHand(s.workers[w].hand) ensures Route(j, |s.workers|) == Some(w) {
      assert j in Given(s.workers[w]);
      assert j in For(s.arrivals, |s.workers|, Some(w));
      ForRoute(s.arrivals, |s.workers|, Some(w), j);
    }
  }

  lemma {:induction false} ForRoute(js: seq<Job>, n: nat, to: Option<nat>, j: Job)
    requires n > 0
    ensures j in For(js, n, to) <==> j in js && Route(j, n) == to
  {
    if js != [] {
      ForRoute(js[..|js| - 1], n, to, j);
      assert js == js[..|js| - 1] + [js[|js| - 1]];
    }
  }

  lemma {:induction false} ArriveAnswered<W, R>(h: Handler<W, R>, s: State<W, R>, a: Move<R>, capacity: nat, w: nat)
    requires w < |s.workers| && a.Arrive? && Enabled(s, a, capacity) && Answered(s, w)
    ensures Answered(Next(h, s, a, capacity), w)
  {
    RepliesForSnoc(s.verdicts, Reply(Job(|s.arrivals|, a.streamId, a.data), AcceptStream), |s.workers|, Some(w));
  }

  lemma {:induction false} AnswerAnswered<W, R>(h: Handler<W, R>, s: State<W, R>, v: nat, capacity: nat, w: nat)
    requires w < |s.workers| && Enabled(s, Answer(v), capacity) && InOrder(s, v) && Answered(s, w)
    ensures Answered(Next(h, s, Answer(v), capacity), w)
  {
    var r := s.workers[v].hand.reply;
    HandRoute(s, v);
    assert r.job in InHand(s.workers[v].hand);
    RepliesForSnoc(s.verdicts, r, |s.workers|, Some(w));
  }

  lemma {:induction false} StepAnswered<W, R>(h: Handler<W, R>, s: State<W, R>, a: Move<R>, capacity: nat, w: nat)
    requires w < |s.workers| && Enabled(s, a, capacity) && WorkersGood(h, s)
    ensures Answered(Next(h, s, a, capacity), w)
  {
    assert Answered(s, w);
    if a.Arrive? {
      ArriveAnswered(h, s, a, capacity, w);
    } else if a.Answer? {
      assert InOrder(s, a.w);
      AnswerAnswered(h, s, a.w, capacity, w);
    }
  }

  lemma {:induction false} ArriveLetGo<W, R>(h: Handler<W, R>, s: State<W, R>, a: Move<R>, capacity: nat)
    requires |s.workers| > 0 && LetGo(s) && a.Arrive? && Enabled(s, a, capacity)
    ensures LetGo(Next(h, s, a, capacity))
  {
    var n := |s.workers|;
    var j := Job(|s.arrivals|, a.streamId, a.data);
    var rs := RepliesFor(s.verdicts, n, None);
    RepliesForSnoc(s.verdicts, Reply(j, AcceptStream), n, None);
    ForSnoc(s.arrivals, j, n, None);
    if Route(j, n).None? {
      assert Jobs(rs + [Reply(j, AcceptStream)]) == Jobs(rs) + [j];
    }
  }

  lemma {:induction false} AnswerLetGo<W, R>(h: Handler<W, R>, s: State<W, R>, v: nat, capacity: nat)
    requires v < |s.workers| && LetGo(s) && InOrder(s, v) && Enabled(s, Answer(v), capacity)
    ensures LetGo(Next(h, s, Answer(v), capacity))
  {
    var r := s.workers[v].hand.reply;
    HandRoute(s, v);
    assert r.job in InHand(s.workers[v].hand);
    RepliesForSnoc(s.verdicts, r, |s.workers|, None);
  }

  lemma {:induction false} StepLetGo<W, R>(h: Handler<W, R>, s: State<W, R>, a: Move<R>, capacity: nat)
    requires |s.workers| > 0 && LetGo(s) && WorkersGood(h, s) && Enabled(s, a, capacity)
    ensures LetGo(Next(h, s, a, capacity))
  {
    if a.Arrive? {
      ArriveLetGo(h, s, a, capacity);
    } else if a.Answer? {
      assert InOrder(s, a.w);
      AnswerLetGo(h, s, a.w, capacity);
    }
  }

  lemma {:induction false} StepSerial<W, R>(h: Handler<W, R>, s: State<W, R>, a: Move<R>, capacity: nat, w: nat)
    requires w < |s.workers| && Enabled(s, a, capacity) && Serial(h, s.workers[w])
    ensures Serial(h, Next(h, s, a, capacity).workers[w])
  {
    hide Replay;
    var k := s.workers[w];
    if a == Move.Handle(w) {
      ReplaySnoc(h, k.log, Did(k.hand.job));
      assert k.done + [] == k.done;
    } else if a.LoadNext? && s.reload.value.next / 2 == w {
      var r := s.reload.value.ruleset;
      ReplaySnoc(h, k.log, LoadedTcp(r));
      ReplaySnoc(h, k.log, LoadedUdp(r));
    } else if a == Answer(w) {
      assert k.done + [k.hand.reply] + [] == k.done + [k.hand.reply];
    }
  }

  lemma {:induction false} LoadReloaded<W, R>(h: Handler<W, R>, s: State<W, R>, capacity: nat, i: nat)
    requires Reloaded(s) && i < 2 * |s.workers| && Enabled(s, LoadNext, capacity)
    ensures var t := Next(h, s, LoadNext, capacity); |t.workers| == |s.workers| && Factory(t, i) == Expected(t, i)
  {
    var m := s.reload.value.next;
    assert Factory(s, i) == Expected(s, i);
    if i == m {
    } else if i / 2 == m / 2 {
      assert i % 2 != m % 2;
    }
  }

  lemma {:induction false} OtherReloaded<W, R>(h: Handler<W, R>, s: State<W, R>, a: Move<R>, capacity: nat, i: nat)
    requires Reloaded(s) && i < 2 * |s.workers| && Enabled(s, a, capacity) && !a.LoadNext?
    ensures var t := Next(h, s, a, capacity); |t.workers| == |s.workers| && Factory(t, i) == Expected(t, i)
  {
    assert Factory(s, i) == Expected(s, i);
    assert Factory(Next(h, s, a, capacity), i) == Factory(s, i);
  }

  lemma {:induction false} StepReloaded<W, R>(h: Handler<W, R>, s: State<W, R>, a: Move<R>, capacity: nat)
    requires |s.workers| > 0 && Reloaded(s) && Enabled(s, a, capacity)
    ensures Reloaded(Next(h, s, a, capacity))
  {
    var t := Next(h, s, a, capacity);
    forall i | 0 <= i < 2 * |t.workers| ensures Factory(t, i) == Expected(t, i) {
      if a.LoadNext? {
        LoadReloaded(h, s, capacity, i);
      } else {
        OtherReloaded(h, s, a, capacity, i);
      }
    }
  }

  lemma {:induction false} StepGood<W, R>(h: Handler<W, R>, s: State<W, R>, a: Move<R>, capacity: nat)
    requires Good(h, s) && Enabled(s, a, capacity)
    ensures Good(h, Next(h, s, a, capacity))
  {
    var t := Next(h, s, a, capacity);
    forall w | 0 <= w < |t.workers| ensures InOrder(t, w) && Answered(t, w) && Serial(h, t.workers[w]) {
      StepInOrder(h, s, a, capacity, w);
      StepAnswered(h, s, a, capacity, w);
      StepSerial(h, s, a, capacity, w);
    }
    StepLetGo(h, s, a, capacity);
    StepReloaded(h, s, a, capacity);
  }

  lemma {:induction false} StartGood<W, R>(h: Handler<W, R>, n: nat, r: R)
    requires n > 0
    ensures Good(h, Start(h, n, r))
  {
    var s := Start(h, n, r);
    assert Jobs([]) == [];
    forall w | 0 <= w < n ensures InOrder(s, w) && Answered(s, w) && Serial(h, s.workers[w]) {
      assert Given(s.workers[w]) == [];
      assert Replay(h, []) == (h.start, []);
    }
  }

  // ---- Runs ----

  // Steps that each can be taken in turn, and where they lead.
  predicate Runs<W, R>(h: Handler<W, R>, s: State<W, R>, acts: seq<Move<R>>, capacity: nat)
    requires |s.workers| > 0
    decreases |acts|
  {
    acts == [] || (Enabled(s, acts[0], capacity) && Runs(h, Next(h, s, acts[0], capacity), acts[1..], capacity))
  }

  function After<W, R>(h: Handler<W, R>, s: State<W, R>, acts: seq<Move<R>>, capacity: nat): State<W, R>
    requires |s.workers| > 0 && Runs(h, s, acts, capacity)
    decreases |acts|
  {
    if acts == [] then s else After(h, Next(h, s, acts[0], capacity), acts[1..], capacity)
  }

  lemma {:induction false} RunGood<W, R>(h: Handler<W, R>, s: State<W, R>, acts: seq<Move<R>>, capacity: nat)
    requires Good(h, s) && Runs(h, s, acts, capacity)
    ensures Good(h, After(h, s, acts, capacity))
    decreases |acts|
  {
    if acts != [] {
      StepGood(h, s, acts[0], capacity);
      RunGood(h, Next(h, s, acts[0], capacity), acts[1..], capacity);
    }
  }

  // CONCURRENT IS SERIAL. In every run from the start, a worker's packets have been given the
  // verdicts, in order of arrival and without a gap, that handling them one after the other
  // gives, with the reloads where they came in between.
  lemma {:induction false} ConcurrentIsSerial<W, R>(h: Handler<W, R>, n: nat, r: R, acts: seq<Move<R>>, capacity: nat,
      w: nat)
    requires w < n && Runs(h, Start(h, n, r), acts, capacity)
    ensures var s := After(h, Start(h, n, r), acts, capacity);
            && |s.workers| == n
            && var k := s.workers[w];
            var given := RepliesFor(s.verdicts, n, Some(w));
            && Replay(h, k.log) == (k.streams, given + Computed(k.hand))
            && Jobs(given + Computed(k.hand)) <= For(s.arrivals, n, Some(w))
            && Reloaded(s)
  {
    StartGood(h, n, r);
    RunGood(h, Start(h, n, r), acts, capacity);
    RunSize(h, Start(h, n, r), acts, capacity);
    var s := After(h, Start(h, n, r), acts, capacity);
    assert InOrder(s, w) && Answered(s, w) && Serial(h, s.workers[w]);
    DoneFirst(s, w);
  }

  lemma {:induction false} DoneFirst<W, R>(s: State<W, R>, w: nat)
    requires w < |s.workers| && InOrder(s, w)
    ensures var k := s.workers[w]; Jobs(k.done + Computed(k.hand)) <= For(s.arrivals, |s.workers|, Some(w))
  {
    hide For;
    var k := s.workers[w];
    if k.hand.Handled? {
      JobsSnoc(k.done, k.hand.reply);
    } else {
      assert k.done + [] == k.done;
    }
  }

  lemma {:induction false} RunSize<W, R>(h: Handler<W, R>, s: State<W, R>, acts: seq<Move<R>>, capacity: nat)
    requires |s.workers| > 0 && Runs(h, s, acts, capacity)
    ensures |After(h, s, acts, capacity).workers| == |s.workers|
    decreases |acts|
  {
    if acts != [] {
      RunSize(h, Next(h, s, acts[0], capacity), acts[1..], capacity);
    }
  }

  // ---- One stream, one worker ----

  // The packets of a stream among some, in order.
  function Of(js: seq<Job>, id: nat): seq<Job> {
    if js == [] then []
    else Of(js[..|js| - 1], id) + if js[|js| - 1].streamId == id then [js[|js| - 1]] else []
  }

  predicate Supported(j: Job) {
    Route(j, 1).Some?
  }

  function SupportedOf(js: seq<Job>, id: nat): seq<Job> {
    if js == [] then []
    else
      var j := js[|js| - 1];
      SupportedOf(js[..|js| - 1], id) + if j.streamId == id && Supported(j) then [j] else []
  }

  lemma {:induction false} OfJoin(a: seq<Job>, b: seq<Job>, id: nat)
    ensures Of(a + b, id) == Of(a, id) + Of(b, id)
  {
    if b == [] {
      assert a + b == a;
    } else {
      var m := |b| - 1;
      assert (a + b)[..|a + b| - 1] == a + b[..m];
      OfJoin(a, b[..m], id);
    }
  }

  lemma {:induction false} OfFor(js: seq<Job>, n: nat, id: nat)
    requires n > 0
    ensures Of(For(js, n, Some(id % n)), id) == SupportedOf(js, id)
  {
    if js != [] {
      var m := |js| - 1;
      OfFor(js[..m], n, id);
      var last := if Route(js[m], n) == Some(id % n) then [js[m]] else [];
      OfJoin(For(js[..m], n, Some(id % n)), last, id);
      assert Of([js[m]], id) == Of([], id) + if js[m].streamId == id then [js[m]] else [];
    }
  }

  // ONE STREAM, ONE WORKER. In every interleaving the packets of a stream are all at one worker,
  // and there, from the first answered to the last queued, they are in the order of arrival; at
  // most the very last of them still waits at the channel.
  lemma {:induction false} OneStreamOneWorker<W, R>(h: Handler<W, R>, s: State<W, R>, id: nat)
    requires Good(h, s)
    ensures var n := |s.workers|;
            && SupportedOf(s.arrivals, id) ==
               Of(Given(s.workers[id % n]), id) + Of(For(Waiting(s.waiting), n, Some(id % n)), id)
            && (forall w, j :: 0 <= w < n && j in Given(s.workers[w]) && j.streamId == id ==> w == id % n)
  {
    var n := |s.workers|;
    var w := id % n;
    assert InOrder(s, w);
    OfFor(s.arrivals, n, id);
    OfJoin(Given(s.workers[w]), For(Waiting(s.waiting), n, Some(w)), id);
    forall v, j | 0 <= v < n && j in Given(s.workers[v]) && j.streamId == id ensures v == w {
      assert InOrder(s, v);
      assert j in For(s.arrivals, n, Some(v));
      ForRoute(s.arrivals, n, Some(v), j);
    }
  }

  // An IPv4 or IPv6 packet, by the upper half of its first byte.
  predicate IsIp(data: bytes) {
    data != [] && (0x40 <= data[0] <= 0x4F || 0x60 <= data[0] <= 0x6F)
  }

  lemma {:induction false} RouteMeans(j: Job, n: nat)
    requires n > 0
    ensures Route(j, n) == if IsIp(j.data) then Some(j.streamId % n) else None
  {
  }

  lemma {:induction false} RepliesForMember(rs: seq<Reply>, n: nat, to: Option<nat>, r: Reply)
    requires n > 0 && r in rs && Route(r.job, n) == to
    ensures r in RepliesFor(rs, n, to)
  {
    var m := |rs| - 1;
    if r != rs[m] {
      assert r in rs[..m];
      RepliesForMember(rs[..m], n, to, r);
    }
  }

  lemma {:induction false} GivenTo<W, R>(h: Handler<W, R>, s: State<W, R>, w: nat, j: Job)
    requires Good(h, s) && w < |s.workers| && j in Given(s.workers[w])
    ensures IsIp(j.data) && w == j.streamId % |s.workers|
  {
    var n := |s.workers|;
    assert InOrder(s, w);
    hide Good, Given, Route, IsIp;
    assert j in For(s.arrivals, n, Some(w));
    ForRoute(s.arrivals, n, Some(w), j);
    RouteMeans(j, n);
  }

  lemma {:induction false} VerdictBy<W, R>(h: Handler<W, R>, s: State<W, R>, x: Reply)
    requires Good(h, s) && x in s.verdicts
    ensures if IsIp(x.job.data) then x in s.workers[x.job.streamId % |s.workers|].done else x.verdict == AcceptStream
  {
    var n := |s.workers|;
    RouteMeans(x.job, n);
    RepliesForMember(s.verdicts, n, Route(x.job, n), x);
    if IsIp(x.job.data) {
      assert Answered(s, x.job.streamId % n);
    }
  }

  // WHERE THE PACKETS GO, in every run from the start. A worker has only IP packets, those whose
  // stream ID is the worker's number modulo the number of workers; a verdict on an IP packet is one
  // its worker has given, and every other packet that has a verdict is let go, with all of its
  // stream.
  lemma {:induction false} WhereTo<W, R>(h: Handler<W, R>, n: nat, r: R, acts: seq<Move<R>>, capacity: nat)
    requires n > 0 && Runs(h, Start(h, n, r), acts, capacity)
    ensures var s := After(h, Start(h, n, r), acts, capacity);
            && |s.workers| == n
            && (forall w, j :: 0 <= w < n && j in Given(s.workers[w]) ==> IsIp(j.data) && w == j.streamId % n)
            && (forall x :: x in s.verdicts ==>
                  if IsIp(x.job.data) then x in s.workers[x.job.streamId % n].done else x.verdict == AcceptStream)
  {
    hide Given, Good, IsIp;
    StartGood(h, n, r);
    RunGood(h, Start(h, n, r), acts, capacity);
    RunSize(h, Start(h, n, r), acts, capacity);
    var s := After(h, Start(h, n, r), acts, capacity);
    hide After, Start, Runs;
    forall w, j | 0 <= w < n && j in Given(s.workers[w]) ensures IsIp(j.data) && w == j.streamId % n {
      GivenTo(h, s, w, j);
    }
    forall x | x in s.verdicts
      ensures if IsIp(x.job.data) then x in s.workers[x.job.streamId % n].done else x.verdict == AcceptStream
    {
      VerdictBy(h, s, x);
    }
  }

  // ---- Every packet is somewhere, once ----

  function Count(js: seq<Job>, j: Job): nat {
    if js == [] then 0 else Count(js[..|js| - 1], j) + if js[|js| - 1] == j then 1 else 0
  }

  function HeldBy<W, R>(k: Worker<W, R>, j: Job): nat {
    Count(InHand(k.hand), j) + Count(k.queue, j)
  }

  function Held<W, R>(ws: seq<Worker<W, R>>, j: Job): nat {
    if ws == [] then 0 else Held(ws[..|ws| - 1], j) + HeldBy(ws[|ws| - 1], j)
  }

  lemma {:induction false} CountJoin(a: seq<Job>, b: seq<Job>, j: Job)
    ensures Count(a + b, j) == Count(a, j) + Count(b, j)
  {
    if b == [] {
      assert a + b == a;
    } else {
      assert (a + b)[..|a + b| - 1] == a + b[..|b| - 1];
      CountJoin(a, b[..|b| - 1], j);
    }
  }

  lemma {:induction false} CountSnoc(a: seq<Job>, x: Job, j: Job)
    ensures Count(a + [x], j) == Count(a, j) + Count([x], j)
    ensures Count([x], j) == if x == j then 1 else 0
  {
    CountJoin(a, [x], j);
  }

  lemma {:induction false} HeldUpdate<W, R>(ws: seq<Worker<W, R>>, w: nat, k: Worker<W, R>, j: Job)
    requires w < |ws|
    ensures Held(ws[w := k], j) + HeldBy(ws[w], j) == Held(ws, j) + HeldBy(k, j)
  {
    var n := |ws| - 1;
    if w == n {
      assert ws[w := k][..n] == ws[..n];
    } else {
      assert ws[w := k][..n] == ws[..n][w := k];
      HeldUpdate(ws[..n], w, k, j);
    }
  }

  // A packet occurs in the verdicts, hands, queues and the waiting place together just as often
  // as it has arrived.
  ghost predicate Conserved<W, R>(s: State<W, R>, j: Job) {
    Count(Jobs(s.verdicts), j) + Held(s.workers, j) + Count(Waiting(s.waiting), j) == Count(s.arrivals, j)
  }

  ghost predicate Numbered(js: seq<Job>) {
    forall i :: 0 <= i < |js| ==> js[i].serial == i
  }

  lemma {:induction false} JobsSnoc(rs: seq<Reply>, r: Reply)
    ensures Jobs(rs + [r]) == Jobs(rs) + [r.job]
  {
  }

  lemma {:induction false} VerdictCounted(rs: seq<Reply>, r: Reply, j: Job)
    ensures Count(Jobs(rs + [r]), j) == Count(Jobs(rs), j) + if r.job == j then 1 else 0
  {
    JobsSnoc(rs, r);
    CountSnoc(Jobs(rs), r.job, j);
  }

  lemma {:induction false} WaitingCounted(x: Job, j: Job)
    ensures Count(Waiting(None), j) == 0
    ensures Count(Waiting(Some(x)), j) == if x == j then 1 else 0
  {
    CountSnoc([], x, j);
  }

  // What an arrival changes.
  lemma {:induction false} ArriveShape<W, R>(h: Handler<W, R>, s: State<W, R>, a: Move<R>, capacity: nat)
    requires |s.workers| > 0 && a.Arrive? && Enabled(s, a, capacity)
    ensures var x, t := Job(|s.arrivals|, a.streamId, a.data), Next(h, s, a, capacity);
            && s.waiting.None? && t.workers == s.workers && t.arrivals == s.arrivals + [x]
            && (if Route(x, |s.workers|).None? then
                  t.verdicts == s.verdicts + [Reply(x, AcceptStream)] && t.waiting == None
                else
                  t.verdicts == s.verdicts && t.waiting == Some(x))
  {
  }

  lemma {:induction false} ArriveConserved<W, R>(h: Handler<W, R>, s: State<W, R>, a: Move<R>, capacity: nat, j: Job)
    requires |s.workers| > 0 && a.Arrive? && Enabled(s, a, capacity) && Conserved(s, j)
    ensures Conserved(Next(h, s, a, capacity), j)
  {
    var x := Job(|s.arrivals|, a.streamId, a.data);
    ArriveShape(h, s, a, capacity);
    hide Count, Held, Jobs, Waiting, Route, Next, Enabled;
    VerdictCounted(s.verdicts, Reply(x, AcceptStream), j);
    WaitingCounted(x, j);
    CountSnoc(s.arrivals, x, j);
  }

  lemma {:induction false} EnqueueConserved<W, R>(h: Handler<W, R>, s: State<W, R>, capacity: nat, j: Job)
    requires |s.workers| > 0 && Enabled(s, Enqueue, capacity) && Conserved(s, j)
    ensures Conserved(Next(h, s, Enqueue, capacity), j)
  {
    var x := s.waiting.value;
    var w := Route(x, |s.workers|).value;
    HeldUpdate(s.workers, w, Next(h, s, Enqueue, capacity).workers[w], j);
    CountSnoc(s.workers[w].queue, x, j);
  }

  lemma {:induction false} TakeConserved<W, R>(h: Handler<W, R>, s: State<W, R>, w: nat, capacity: nat, j: Job)
    requires |s.workers| > 0 && Enabled(s, Take(w), capacity) && Conserved(s, j)
    ensures Conserved(Next(h, s, Take(w), capacity), j)
  {
    assert Count([], j) == 0;
    hide Count, Held;
    var q := s.workers[w].queue;
    HeldUpdate(s.workers, w, Next(h, s, Take(w), capacity).workers[w], j);
    assert q == [q[0]] + q[1..];
    CountJoin([q[0]], q[1..], j);
  }

  lemma {:induction false} AnswerConserved<W, R>(h: Handler<W, R>, s: State<W, R>, w: nat, capacity: nat, j: Job)
    requires |s.workers| > 0 && Enabled(s, Answer(w), capacity) && Conserved(s, j)
    ensures Conserved(Next(h, s, Answer(w), capacity), j)
  {
    var r := s.workers[w].hand.reply;
    HeldUpdate(s.workers, w, Next(h, s, Answer(w), capacity).workers[w], j);
    VerdictCounted(s.verdicts, r, j);
    CountSnoc([], r.job, j);
  }

  lemma {:induction false} OtherConserved<W, R>(h: Handler<W, R>, s: State<W, R>, a: Move<R>, capacity: nat, j: Job)
    requires |s.workers| > 0 && Enabled(s, a, capacity) && Conserved(s, j)
    requires !a.Arrive? && !a.Enqueue? && !a.Take? && !a.Answer?
    ensures Conserved(Next(h, s, a, capacity), j)
  {
    var t := Next(h, s, a, capacity);
    if a.Handle? || a.LoadNext? || a.Quit? {
      var w := if a.LoadNext? then s.reload.value.next / 2 else a.w;
      HeldUpdate(s.workers, w, t.workers[w], j);
    }
  }

  lemma {:induction false} StepConserved<W, R>(h: Handler<W, R>, s: State<W, R>, a: Move<R>, capacity: nat, j: Job)
    requires |s.workers| > 0 && Enabled(s, a, capacity) && Conserved(s, j)
    ensures Conserved(Next(h, s, a, capacity), j)
  {
    if a.Arrive? {
      ArriveConserved(h, s, a, capacity, j);
    } else if a.Enqueue? {
      EnqueueConserved(h, s, capacity, j);
    } else if a.Take? {
      TakeConserved(h, s, a.w, capacity, j);
    } else if a.Answer? {
      AnswerConserved(h, s, a.w, capacity, j);
    } else {
      OtherConserved(h, s, a, capacity, j);
    }
  }

  lemma {:induction false} StepNumbered<W, R>(h: Handler<W, R>, s: State<W, R>, a: Move<R>, capacity: nat)
    requires |s.workers| > 0 && Enabled(s, a, capacity) && Numbered(s.arrivals)
    ensures Numbered(Next(h, s, a, capacity).arrivals)
  {
    assert a.Arrive? || Next(h, s, a, capacity).arrivals == s.arrivals;
  }

  lemma {:induction false} RunConserved<W, R>(h: Handler<W, R>, s: State<W, R>, acts: seq<Move<R>>, capacity: nat,
      j: Job)
    requires |s.workers| > 0 && Conserved(s, j) && Numbered(s.arrivals) && Runs(h, s, acts, capacity)
    ensures var t := After(h, s, acts, capacity); Conserved(t, j) && Numbered(t.arrivals)
    decreases |acts|
  {
    if acts != [] {
      StepConserved(h, s, acts[0], capacity, j);
      StepNumbered(h, s, acts[0], capacity);
      RunConserved(h, Next(h, s, acts[0], capacity), acts[1..], capacity, j);
    }
  }

  lemma {:induction false} IdleHoldsNothing<W, R>(ws: seq<Worker<W, R>>, j: Job)
    requires forall i :: 0 <= i < |ws| ==> ws[i].hand.Empty? && ws[i].queue == []
    ensures Held(ws, j) == 0
  {
    if ws != [] {
      IdleHoldsNothing(ws[..|ws| - 1], j);
    }
  }

  lemma {:induction false} NumberedOnce(js: seq<Job>, j: Job)
    requires Numbered(js)
    ensures Count(js, j) == if j.serial < |js| && js[j.serial] == j then 1 else 0
  {
    if js != [] {
      NumberedOnce(js[..|js| - 1], j);
    }
  }

  // EVERY PACKET, ONCE. In every run from the start each packet that has arrived has exactly one
  // verdict, or is in hand or queued at one worker, or waits; never two of these, and nothing
  // else is answered.
  lemma {:induction false} EveryPacketOnce<W, R>(h: Handler<W, R>, n: nat, r: R, acts: seq<Move<R>>, capacity: nat,
      j: Job)
    requires n > 0 && Runs(h, Start(h, n, r), acts, capacity)
    ensures var s := After(h, Start(h, n, r), acts, capacity);
            Count(Jobs(s.verdicts), j) + Held(s.workers, j) + Count(Waiting(s.waiting), j) ==
            if j.serial < |s.arrivals| && s.arrivals[j.serial] == j then 1 else 0
  {
    var s0 := Start(h, n, r);
    IdleHoldsNothing(s0.workers, j);
    RunConserved(h, s0, acts, capacity, j);
    NumberedOnce(After(h, s0, acts, capacity).arrivals, j);
  }

  // ---- Nothing gets stuck ----

  predicate Idle<W, R>(s: State<W, R>) {
    s.waiting.None? && forall w :: 0 <= w < |s.workers| ==> s.workers[w].hand.Empty? && s.workers[w].queue == []
  }

  predicate Internal<R>(a: Move<R>) {
    a.Enqueue? || a.Take? || a.Handle? || a.Answer?
  }

  // As long as the workers run and a packet is without verdict, some packet can move.
  lemma {:induction false} NoDeadlock<W, R>(h: Handler<W, R>, s: State<W, R>, capacity: nat) returns (a: Move<R>)
    requires Good(h, s) && capacity > 0 && !Idle(s)
    requires forall w :: 0 <= w < |s.workers| ==> s.workers[w].running
    ensures Internal(a) && Enabled(s, a, capacity)
  {
    if w :| 0 <= w < |s.workers| && !(s.workers[w].hand.Empty? && s.workers[w].queue == []) {
      match s.workers[w].hand
      case Empty => a := Take(w);
      case Taken(_) => a := Move.Handle(w);
      case Handled(_) => a := Answer(w);
    } else {
      a := Enqueue;
    }
  }

  lemma {:induction false} KeepsRunning<W, R>(h: Handler<W, R>, s: State<W, R>, acts: seq<Move<R>>, capacity: nat)
    requires |s.workers| > 0 && Runs(h, s, acts, capacity) && !s.stopping && Stop !in acts
    requires forall w :: 0 <= w < |s.workers| ==> s.workers[w].running
    ensures var t := After(h, s, acts, capacity);
            !t.stopping && forall w :: 0 <= w < |t.workers| ==> t.workers[w].running
    decreases |acts|
  {
    if acts != [] {
      var t := Next(h, s, acts[0], capacity);
      assert acts[0] in acts;
      assert !t.stopping && forall w :: 0 <= w < |t.workers| ==> t.workers[w].running;
      hide Next;
      KeepsRunning(h, t, acts[1..], capacity);
    }
  }

  // NO DEADLOCK IN ANY RUN from the start that has not been stopped.
  lemma {:induction false} AlwaysMoves<W, R>(h: Handler<W, R>, n: nat, r: R, acts: seq<Move<R>>, capacity: nat)
    requires n > 0 && Runs(h, Start(h, n, r), acts, capacity) && Stop !in acts && capacity > 0
    ensures var s := After(h, Start(h, n, r), acts, capacity);
            |s.workers| == n && (Idle(s) || exists a :: Internal(a) && Enabled(s, a, capacity))
  {
    StartGood(h, n, r);
    RunGood(h, Start(h, n, r), acts, capacity);
    RunSize(h, Start(h, n, r), acts, capacity);
    KeepsRunning(h, Start(h, n, r), acts, capacity);
    var s := After(h, Start(h, n, r), acts, capacity);
    if !Idle(s) {
      var a := NoDeadlock(h, s, capacity);
    }
  }

  // How many steps the packets of a worker still have to go.
  function Ahead<W, R>(k: Worker<W, R>): nat {
    3 * |k.queue| + (match k.hand case Empty => 0 case Taken(_) => 2 case Handled(_) => 1)
  }

  function AllAhead<W, R>(ws: seq<Worker<W, R>>): nat {
    if ws == [] then 0 else AllAhead(ws[..|ws| - 1]) + Ahead(ws[|ws| - 1])
  }

  function ToGo<W, R>(s: State<W, R>): nat {
    AllAhead(s.workers) + if s.waiting.Some? then 4 else 0
  }

  lemma {:induction false} AheadUpdate<W, R>(ws: seq<Worker<W, R>>, w: nat, k: Worker<W, R>)
    requires w < |ws|
    ensures AllAhead(ws[w := k]) + Ahead(ws[w]) == AllAhead(ws) + Ahead(k)
  {
    var n := |ws| - 1;
    if w == n {
      assert ws[w := k][..n] == ws[..n];
    } else {
      assert ws[w := k][..n] == ws[..n][w := k];
      AheadUpdate(ws[..n], w, k);
    }
  }

  // Every such move is one step less to go: without new arrivals all packets get their verdicts.
  lemma {:induction false} MovesDrain<W, R>(h: Handler<W, R>, s: State<W, R>, a: Move<R>, capacity: nat)
    requires |s.workers| > 0 && Internal(a) && Enabled(s, a, capacity)
    ensures ToGo(Next(h, s, a, capacity)) == ToGo(s) - 1
  {
    var t := Next(h, s, a, capacity);
    var w := if a.Enqueue? then Route(s.waiting.value, |s.workers|).value else a.w;
    AheadUpdate(s.workers, w, t.workers[w]);
  }
}
