/** The resumable step machine (analyzer/utils/lsm.go), for an arbitrary set of steps. */
module Lsm {
  import opened Bytes
  import opened Props

  // What a step answers. Crash stands for a Go run-time panic inside the step.
  datatype Action = Pause | Next | Reset | Cancel | Crash

  // The effect of one step on the byte buffer, on the stream's own fields and on the step list.
  datatype Outcome<Id, L> =
    Outcome(action: Action, rest: bytes, local: L, appended: seq<Id>, updated: bool)

  // One direction of a stream: its machine, its buffer and its fields.
  datatype Machine<Id, L> =
    Machine(steps: seq<Id>, index: nat, cancelled: bool, crashed: bool,
            updated: bool, buf: bytes, local: L)
  {
    predicate Stopped() { cancelled || crashed }

    function Push(data: bytes): Machine<Id, L> { this.(buf := buf + data) }

    function Fresh(): Machine<Id, L> { this.(updated := false) }
  }

  // A set of steps, the states it is meant for, its termination measure and what it publishes.
  datatype Program<!Id, !L> = Program(
    step: (Id, bytes, L) -> Outcome<Id, L>,
    wf: (seq<Id>, nat, L) -> bool,
    rank: (seq<Id>, nat, nat) -> nat,
    view: L -> Option<PropMap>)

  ghost predicate Wf<Id(!new), L(!new)>(p: Program<Id, L>, m: Machine<Id, L>) {
    p.wf(m.steps, m.index, m.local)
  }

  ghost function Rank<Id(!new), L(!new)>(p: Program<Id, L>, m: Machine<Id, L>): nat {
    p.rank(m.steps, m.index, |m.buf|)
  }

  // The machine after its current step.
  ghost function After<Id(!new), L(!new)>(p: Program<Id, L>, m: Machine<Id, L>): Machine<Id, L>
    requires m.index < |m.steps|
  {
    var o := p.step(m.steps[m.index], m.buf, m.local);
    Machine(m.steps + o.appended,
            match o.action case Next => m.index + 1 case Reset => 0 case _ => m.index,
            m.cancelled || o.action.Cancel?, m.crashed || o.action.Crash?,
            m.updated || o.updated, o.rest, o.local)
  }

  predicate Goes(a: Action) { a.Next? || a.Reset? }

  // The conditions a set of steps must meet: stability, termination, and to tell of changes.

  // A step that answers at all gives the same answer when more bytes are behind the ones it saw;
  // a step that pauses has touched nothing.
  ghost predicate Stable<Id(!new), L(!new)>(p: Program<Id, L>) {
    && (forall id, b, l :: var o := p.step(id, b, l);
         o.action.Pause? ==> o.rest == b && o.local == l && o.appended == [] && !o.updated)
    && (forall id, b, x, l :: var o := p.step(id, b, l);
         !o.action.Pause? ==> p.step(id, b + x, l) == o.(rest := o.rest + x))
  }

  ghost predicate Advances<Id(!new), L(!new)>(p: Program<Id, L>, m: Machine<Id, L>) {
    Wf(p, m) && m.index < |m.steps| && Goes(p.step(m.steps[m.index], m.buf, m.local).action)
    ==> Wf(p, After(p, m)) && Rank(p, After(p, m)) < Rank(p, m)
  }

  ghost predicate Terminating<Id(!new), L(!new)>(p: Program<Id, L>) {
    forall m :: Advances(p, m)
  }

  // What is published changes only in steps that say so.
  ghost predicate Tells<Id(!new), L(!new)>(p: Program<Id, L>, m: Machine<Id, L>) {
    Wf(p, m) && m.index < |m.steps| ==>
      var o := p.step(m.steps[m.index], m.buf, m.local);
      && (o.updated ==> p.view(o.local).Some?)
      && (!o.updated && !o.action.Crash? ==> p.view(o.local) == p.view(m.local))
  }

  ghost predicate Honest<Id(!new), L(!new)>(p: Program<Id, L>) {
    forall m :: Tells(p, m)
  }

  ghost predicate Good<Id(!new), L(!new)>(p: Program<Id, L>) {
    Stable(p) && Terminating(p) && Honest(p)
  }

  // LinearStateMachine.Run: step until a pause, a cancel, a crash or the end of the list. The
  // test of the measure only makes the function total: RunStep shows that it never fails in the
  // states a good set of steps is meant for.
  ghost function Run<Id(!new), L(!new)>(p: Program<Id, L>, m: Machine<Id, L>): (r: Machine<Id, L>)
    decreases Rank(p, m)
  {
    if m.index >= |m.steps| then m
    else if Goes(p.step(m.steps[m.index], m.buf, m.local).action) && Rank(p, After(p, m)) < Rank(p, m) then
      Run(p, After(p, m))
    else After(p, m)
  }

  // One call of Feed: nothing for an empty chunk, otherwise append and run.
  // Also returned: what this call publishes.
  ghost function Feed<Id(!new), L(!new)>(p: Program<Id, L>, m: Machine<Id, L>, data: bytes)
    : (r: (Machine<Id, L>, Option<PropMap>))
  {
    if data == [] then (m.Fresh(), None)
    else
      var r := Run(p, m.Fresh().Push(data));
      (r.Fresh(), if r.updated && !r.crashed then p.view(r.local) else None)
  }

  // One turn of the loop of Run.
  lemma {:induction false} RunStep<Id(!new), L(!new)>(p: Program<Id, L>, m: Machine<Id, L>)
    requires Good(p) && Wf(p, m) && m.index < |m.steps|
    ensures var o, n := p.step(m.steps[m.index], m.buf, m.local), After(p, m);
            if Goes(o.action) then Wf(p, n) && Rank(p, n) < Rank(p, m) && Run(p, m) == Run(p, n)
            else Run(p, m) == n
  {
    assert Advances(p, m);
  }

  // A step that hands over to the next.
  lemma {:induction false} RunNext<Id(!new), L(!new)>(p: Program<Id, L>, m: Machine<Id, L>, o: Outcome<Id, L>)
    requires Good(p) && Wf(p, m) && m.index < |m.steps|
    requires o == p.step(m.steps[m.index], m.buf, m.local) && o.action.Next?
    ensures var n := Machine(m.steps + o.appended, m.index + 1, m.cancelled, m.crashed,
                             m.updated || o.updated, o.rest, o.local);
            Wf(p, n) && Run(p, m) == Run(p, n)
  {
    RunStep(p, m);
  }

  // A step that panics.
  lemma {:induction false} RunCrash<Id(!new), L(!new)>(p: Program<Id, L>, m: Machine<Id, L>)
    requires m.index < |m.steps| && p.step(m.steps[m.index], m.buf, m.local).action.Crash?
    ensures Run(p, m).crashed
  {
  }

  // A step that cancels.
  lemma {:induction false} RunCancels<Id(!new), L(!new)>(p: Program<Id, L>, m: Machine<Id, L>)
    requires m.index < |m.steps| && p.step(m.steps[m.index], m.buf, m.local).action.Cancel?
    ensures var r, o := Run(p, m), p.step(m.steps[m.index], m.buf, m.local);
            && r.cancelled && r.crashed == m.crashed && r.index == m.index
            && r.updated == (m.updated || o.updated) && r.buf == o.rest && r.local == o.local
  {
  }

  // A machine does not stay stopped after a cancel: it goes on as one that was never cancelled.
  lemma {:induction false} RunCancelled<Id(!new), L(!new)>(p: Program<Id, L>, m: Machine<Id, L>)
    ensures Run(p, m.(cancelled := true)) == Run(p, m).(cancelled := true)
    decreases Rank(p, m)
  {
    if m.index < |m.steps| {
      var n := After(p, m);
      assert After(p, m.(cancelled := true)) == n.(cancelled := true);
      if Goes(p.step(m.steps[m.index], m.buf, m.local).action) && Rank(p, n) < Rank(p, m) {
        RunCancelled(p, n);
      }
    }
  }

  // Only the engine keeps it from being fed: it would publish what one that was never cancelled
  // publishes.
  lemma {:induction false} FeedCancelled<Id(!new), L(!new)>(p: Program<Id, L>, m: Machine<Id, L>, data: bytes)
    ensures var (r, u) := Feed(p, m, data); Feed(p, m.(cancelled := true), data) == (r.(cancelled := true), u)
  {
    hide Run;
    RunCancelled(p, m.Fresh().Push(data));
    assert m.(cancelled := true).Fresh().Push(data) == m.Fresh().Push(data).(cancelled := true);
  }

  // A direction fed chunk by chunk; the engine feeds nothing more once the machine has stopped.
  // `published` is the last map handed to the engine.
  datatype Fed<Id, L> = Fed(m: Machine<Id, L>, unfed: seq<bytes>, published: Option<PropMap>)

  ghost function FeedAll<Id(!new), L(!new)>(
    p: Program<Id, L>, m: Machine<Id, L>, chunks: seq<bytes>, published: Option<PropMap>)
    : (r: Fed<Id, L>)
    decreases |chunks|
  {
    if chunks == [] then Fed(m.Fresh(), [], published)
    else
      var (r, u) := Feed(p, m, chunks[0]);
      var last := if u.Some? then u else published;
      if r.Stopped() then Fed(r, chunks[1..], last) else FeedAll(p, r, chunks[1..], last)
  }

  // A machine that has not stopped stays among the states its steps are meant for.
  lemma {:induction false} RunWf<Id(!new), L(!new)>(p: Program<Id, L>, m: Machine<Id, L>)
    requires Good(p) && Wf(p, m)
    ensures !m.Stopped() && !Run(p, m).Stopped() ==> Wf(p, Run(p, m))
    decreases Rank(p, m)
  {
    if m.index < |m.steps| {
      assert Advances(p, m);
      var o := p.step(m.steps[m.index], m.buf, m.local);
      if Goes(o.action) {
        RunWf(p, After(p, m));
      } else if o.action.Pause? {
        assert m.steps + o.appended == m.steps;
      }
    }
  }

  // The updated flag is only ever raised.
  ghost function Raise<Id, L>(m: Machine<Id, L>, u: bool): Machine<Id, L> {
    m.(updated := u || m.updated)
  }

  lemma {:induction false} RunRaise<Id(!new), L(!new)>(p: Program<Id, L>, m: Machine<Id, L>, u: bool)
    requires Good(p) && Wf(p, m)
    ensures Run(p, Raise(m, u)) == Raise(Run(p, m), u)
    decreases Rank(p, m)
  {
    if m.index < |m.steps| {
      assert Advances(p, m);
      assert After(p, Raise(m, u)) == Raise(After(p, m), u);
      if Goes(p.step(m.steps[m.index], m.buf, m.local).action) {
        RunRaise(p, After(p, m), u);
      }
    }
  }

  // Bytes that arrive later: a run that stopped is the same run with the bytes left over,
  // and a run that paused or finished goes on from where it was.
  lemma {:induction false} RunAppend<Id(!new), L(!new)>(p: Program<Id, L>, m: Machine<Id, L>, x: bytes)
    requires Good(p) && Wf(p, m) && !m.Stopped()
    ensures Run(p, m).Stopped() ==> Run(p, m.Push(x)) == Run(p, m).Push(x)
    ensures !Run(p, m).Stopped() ==>
              Wf(p, Run(p, m)) && Run(p, m.Push(x)) == Run(p, Run(p, m).Push(x))
    decreases Rank(p, m)
  {
    RunWf(p, m);
    if m.index < |m.steps| {
      var o := p.step(m.steps[m.index], m.buf, m.local);
      assert Advances(p, m);
      if o.action.Pause? {
        assert After(p, m) == m by { assert m.steps + o.appended == m.steps; }
      } else {
        assert p.step(m.steps[m.index], m.buf + x, m.local) == o.(rest := o.rest + x);
        assert After(p, m.Push(x)) == After(p, m).Push(x);
        assert Advances(p, m.Push(x));
        if Goes(o.action) {
          RunAppend(p, After(p, m), x);
        }
      }
    }
  }

  // A run that publishes nothing leaves what is published as it was.
  lemma {:induction false} RunHonest<Id(!new), L(!new)>(p: Program<Id, L>, m: Machine<Id, L>)
    requires Good(p) && Wf(p, m)
    ensures m.updated ==> Run(p, m).updated
    ensures !Run(p, m).updated && !Run(p, m).crashed ==> p.view(Run(p, m).local) == p.view(m.local)
    ensures Run(p, m).updated && !Run(p, m).crashed ==>
              p.view(Run(p, m).local).Some? || (m.updated && p.view(m.local) == p.view(Run(p, m).local))
    decreases Rank(p, m)
  {
    if m.index < |m.steps| {
      assert Advances(p, m) && Tells(p, m);
      if Goes(p.step(m.steps[m.index], m.buf, m.local).action) {
        RunHonest(p, After(p, m));
      }
    }
  }

  function Or<T>(a: Option<T>, b: Option<T>): Option<T> { if a.Some? then a else b }

  // Two feeds against one feed of the joined bytes.
  lemma {:induction false} FeedTwice<Id(!new), L(!new)>(p: Program<Id, L>, m: Machine<Id, L>, a: bytes, b: bytes)
    requires Good(p) && Wf(p, m) && !m.Stopped()
    ensures var (r, u) := Feed(p, m, a);
            var (w, v) := Feed(p, m, a + b);
            && (r.Stopped() ==> w == r.Push(b) && v == u)
            && (!r.Stopped() ==>
                  && Wf(p, r)
                  && w == Feed(p, r, b).0
                  && (!w.crashed ==> v == Or(Feed(p, r, b).1, u)))
  {
    var s := m.Fresh();
    if a == [] {
      assert a + b == b;
    } else {
      var r := Run(p, s.Push(a));
      assert s.Push(a + b) == s.Push(a).Push(b);
      RunAppend(p, s.Push(a), b);
      RunHonest(p, s.Push(a));
      if !r.Stopped() {
        if b == [] {
          assert a + b == a;
        } else {
          var t := r.Fresh().Push(b);
          assert Wf(p, t);
          assert Raise(t, r.updated) == r.Push(b);
          RunRaise(p, t, r.updated);
          RunHonest(p, t);
        }
      }
    }
  }

  // CHUNK INDEPENDENCE. However one direction of a stream is cut into chunks, the machine ends
  // with the same step list, position, flags and fields as when it is fed everything at once, its
  // buffer differs only by the chunks the engine withheld after a stop, and the last map
  // published is the same (a crashed run publishes nothing).
  lemma {:induction false} ChunkIndependence<Id(!new), L(!new)>(
    p: Program<Id, L>, m: Machine<Id, L>, chunks: seq<bytes>, published: Option<PropMap>)
    requires Good(p) && Wf(p, m) && !m.Stopped()
    ensures var f := FeedAll(p, m, chunks, published);
            var (w, u) := Feed(p, m, Flatten(chunks));
            && w == f.m.Push(Flatten(f.unfed))
            && (!f.m.Stopped() ==> f.unfed == [])
            && (!w.crashed ==> f.published == Or(u, published))
    decreases |chunks|
  {
    if chunks != [] {
      var c, rest := chunks[0], chunks[1..];
      var (r, u) := Feed(p, m, c);
      FeedTwice(p, m, c, Flatten(rest));
      if !r.Stopped() {
        ChunkIndependence(p, r, rest, Or(u, published));
      }
    }
  }

  // The same, for a stream whose run over all its bytes is known and does not stop.
  lemma {:induction false} AnyCut<Id(!new), L(!new)>(p: Program<Id, L>, m: Machine<Id, L>, chunks: seq<bytes>,
      r: Machine<Id, L>)
    requires Good(p) && Wf(p, m) && !m.Stopped() && !m.updated
    requires Flatten(chunks) != [] && r == Run(p, m.Push(Flatten(chunks))) && !r.Stopped()
    ensures FeedAll(p, m, chunks, None) == Fed(r.Fresh(), [], if r.updated then p.view(r.local) else None)
  {
    ChunkIndependence(p, m, chunks, None);
    assert m.Fresh() == m;
    var f := FeedAll(p, m, chunks, None);
    assert f.m.buf + [] == f.m.buf;
  }

  // Stopped or not, the flags and fields are those of the run over all the bytes.
  lemma {:induction false} AnyCutEnds<Id(!new), L(!new)>(p: Program<Id, L>, m: Machine<Id, L>, chunks: seq<bytes>,
      r: Machine<Id, L>)
    requires Good(p) && Wf(p, m) && !m.Stopped() && !m.updated
    requires Flatten(chunks) != [] && r == Run(p, m.Push(Flatten(chunks)))
    ensures var f := FeedAll(p, m, chunks, None).m;
            f.cancelled == r.cancelled && f.crashed == r.crashed && f.index == r.index && f.local == r.local
  {
    ChunkIndependence(p, m, chunks, None);
    assert m.Fresh() == m;
  }

  // Two cuttings of the same bytes cannot be told apart.
  lemma {:induction false} CutsAgree<Id(!new), L(!new)>(p: Program<Id, L>, m: Machine<Id, L>, chunks: seq<bytes>,
      others: seq<bytes>)
    requires Good(p) && Wf(p, m) && !m.Stopped() && Flatten(chunks) == Flatten(others)
    ensures var f, g := FeedAll(p, m, chunks, None), FeedAll(p, m, others, None);
            && f.m.Push(Flatten(f.unfed)) == g.m.Push(Flatten(g.unfed))
            && (!f.m.crashed ==> f.published == g.published)
  {
    ChunkIndependence(p, m, chunks, None);
    ChunkIndependence(p, m, others, None);
  }

  // ---- Two directions ----

  // A stream: two machines that share nothing, and the last map each direction has published. The
  // engine stops feeding it when one machine has stopped or both are through.
  datatype Both<I, L, J, M> =
    Both(req: Machine<I, L>, resp: Machine<J, M>, asked: Option<PropMap>, answered: Option<PropMap>)
  {
    predicate Over() {
      req.Stopped() || resp.Stopped() || (req.index >= |req.steps| && resp.index >= |resp.steps|)
    }
  }

  // The bytes of one direction among some chunks.
  function BytesOf(cs: seq<(bool, bytes)>, rev: bool): bytes {
    if cs == [] then [] else (if cs[0].0 == rev then cs[0].1 else []) + BytesOf(cs[1..], rev)
  }

  ghost function FeedOne<I(!new), L(!new), J(!new), M(!new)>(
    p: Program<I, L>, q: Program<J, M>, b: Both<I, L, J, M>, rev: bool, data: bytes): Both<I, L, J, M>
  {
    if rev then
      var (m, u) := Feed(q, b.resp, data);
      b.(resp := m, answered := Or(u, b.answered))
    else
      var (m, u) := Feed(p, b.req, data);
      b.(req := m, asked := Or(u, b.asked))
  }

  // The stream after the chunks that are fed, and how many that are.
  ghost function FeedBoth<I(!new), L(!new), J(!new), M(!new)>(
    p: Program<I, L>, q: Program<J, M>, b: Both<I, L, J, M>, cs: seq<(bool, bytes)>): (r: (Both<I, L, J, M>, nat))
    ensures r.1 <= |cs|
    decreases |cs|
  {
    if cs == [] || b.Over() then (b, 0)
    else
      var (r, n) := FeedBoth(p, q, FeedOne(p, q, b, cs[0].0, cs[0].1), cs[1..]);
      (r, n + 1)
  }

  lemma {:induction false} BothStep<I(!new), L(!new), J(!new), M(!new)>(
    p: Program<I, L>, q: Program<J, M>, b: Both<I, L, J, M>, cs: seq<(bool, bytes)>)
    ensures cs == [] || b.Over() ==> FeedBoth(p, q, b, cs) == (b, 0)
    ensures cs != [] && !b.Over() ==>
              var (r, n) := FeedBoth(p, q, FeedOne(p, q, b, cs[0].0, cs[0].1), cs[1..]);
              FeedBoth(p, q, b, cs) == (r, n + 1)
  {
    hide FeedOne;
  }

  // Feeding chunk by chunk has come to this state after n chunks.
  ghost predicate Reached<I(!new), L(!new), J(!new), M(!new)>(
    p: Program<I, L>, q: Program<J, M>, b0: Both<I, L, J, M>, cs: seq<(bool, bytes)>, n: nat, b: Both<I, L, J, M>)
  {
    && n <= |cs| && !b.req.updated && !b.resp.updated
    && FeedBoth(p, q, b0, cs) == (FeedBoth(p, q, b, cs[n..]).0, n + FeedBoth(p, q, b, cs[n..]).1)
  }

  lemma {:induction false} ReachedFirst<I(!new), L(!new), J(!new), M(!new)>(
    p: Program<I, L>, q: Program<J, M>, b: Both<I, L, J, M>, cs: seq<(bool, bytes)>)
    requires !b.req.updated && !b.resp.updated
    ensures Reached(p, q, b, cs, 0, b)
  {
    assert cs[0..] == cs;
  }

  lemma {:induction false} ReachedNext<I(!new), L(!new), J(!new), M(!new)>(
    p: Program<I, L>, q: Program<J, M>, b0: Both<I, L, J, M>, cs: seq<(bool, bytes)>, n: nat, b: Both<I, L, J, M>)
    requires Reached(p, q, b0, cs, n, b) && n < |cs| && !b.Over()
    ensures var (rev, data) := cs[n];
            && Reached(p, q, b0, cs, n + 1, FeedOne(p, q, b, rev, data))
            && (data == [] ==> FeedOne(p, q, b, rev, data) == b)
  {
    hide Run, FeedBoth;
    assert cs[n..][1..] == cs[n + 1..];
    BothStep(p, q, b, cs[n..]);
    assert b.req.Fresh() == b.req && b.resp.Fresh() == b.resp;
  }

  // One direction has got these bytes.
  ghost predicate Got<Id(!new), L(!new)>(
    p: Program<Id, L>, m: Machine<Id, L>, told: Option<PropMap>, data: bytes, r: Machine<Id, L>, last: Option<PropMap>)
  {
    var (w, u) := Feed(p, m, data);
    r == w && (!w.crashed ==> last == Or(u, told))
  }

  // A direction before it has stopped.
  ghost predicate Going<Id(!new), L(!new)>(p: Program<Id, L>, m: Machine<Id, L>) {
    Good(p) && Wf(p, m) && !m.Stopped() && !m.updated
  }

  lemma {:induction false} GotNothing<Id(!new), L(!new)>(p: Program<Id, L>, m: Machine<Id, L>, told: Option<PropMap>)
    requires !m.updated
    ensures Got(p, m, told, [], m, told)
  {
    assert m.Fresh() == m;
  }

  // One chunk and then the others are all of them together.
  lemma {:induction false} GotMore<Id(!new), L(!new)>(
    p: Program<Id, L>, m: Machine<Id, L>, told: Option<PropMap>, data: bytes, rest: bytes, r: Machine<Id, L>,
      last: Option<PropMap>)
    requires Going(p, m)
    requires var (w, u) := Feed(p, m, data);
             if w.Stopped() then rest == [] && r == w && last == Or(u, told) else Got(p, w, Or(u, told), rest, r, last)
    ensures Got(p, m, told, data + rest, r, last)
  {
    hide Run;
    FeedTwice(p, m, data, rest);
    if rest == [] {
      assert data + rest == data;
    }
  }

  // THE TWO DIRECTIONS. However the chunks of the two directions come interleaved, each machine
  // ends, and has published, as when the bytes of its own direction are fed to it at once.
  lemma {:induction false} DirectionsIndependent<I(!new), L(!new), J(!new), M(!new)>(
    p: Program<I, L>, q: Program<J, M>, b: Both<I, L, J, M>, cs: seq<(bool, bytes)>)
    requires Going(p, b.req) && Going(q, b.resp)
    ensures var (r, n) := FeedBoth(p, q, b, cs);
            && Got(p, b.req, b.asked, BytesOf(cs[..n], false), r.req, r.asked)
            && Got(q, b.resp, b.answered, BytesOf(cs[..n], true), r.resp, r.answered)
            && (n < |cs| ==> r.Over())
    decreases |cs|
  {
    hide Good, Run, Feed, Wf;
    GotNothing(p, b.req, b.asked);
    GotNothing(q, b.resp, b.answered);
    if cs != [] && !b.Over() {
      var (rev, data) := cs[0];
      var b1 := FeedOne(p, q, b, rev, data);
      var (r, m) := FeedBoth(p, q, b1, cs[1..]);
      FirstBytes(cs, m, false);
      FirstBytes(cs, m, true);
      var rest := BytesOf(cs[1..][..m], rev);
      if b1.Over() {
        assert (r, m) == (b1, 0) && rest == [];
      }
      if rev {
        StillGoing(q, b.resp, data);
      } else {
        StillGoing(p, b.req, data);
      }
      if !b1.req.Stopped() && !b1.resp.Stopped() {
        DirectionsIndependent(p, q, b1, cs[1..]);
      }
      if rev {
        GotMore(q, b.resp, b.answered, data, rest, r.resp, r.answered);
      } else {
        GotMore(p, b.req, b.asked, data, rest, r.req, r.asked);
      }
    }
  }

  lemma {:induction false} ReachedLast<I(!new), L(!new), J(!new), M(!new)>(
    p: Program<I, L>, q: Program<J, M>, b0: Both<I, L, J, M>, cs: seq<(bool, bytes)>, n: nat, b: Both<I, L, J, M>)
    requires Reached(p, q, b0, cs, n, b) && (b.Over() || n == |cs|) && Going(p, b0.req) && Going(q, b0.resp)
    ensures Got(p, b0.req, b0.asked, BytesOf(cs[..n], false), b.req, b.asked)
    ensures Got(q, b0.resp, b0.answered, BytesOf(cs[..n], true), b.resp, b.answered)
  {
    hide Going, Got;
    DirectionsIndependent(p, q, b0, cs);
  }

  lemma {:induction false} StillGoing<Id(!new), L(!new)>(p: Program<Id, L>, m: Machine<Id, L>, data: bytes)
    requires Going(p, m)
    ensures var w := Feed(p, m, data).0; !w.updated && (!w.Stopped() ==> Going(p, w))
  {
    FeedTwice(p, m, data, []);
  }

  lemma {:induction false} FirstBytes(cs: seq<(bool, bytes)>, m: nat, rev: bool)
    requires m < |cs|
    ensures BytesOf(cs[..m + 1], rev) == (if cs[0].0 == rev then cs[0].1 else []) + BytesOf(cs[1..][..m], rev)
    ensures cs[0].0 != rev ==> BytesOf(cs[..m + 1], rev) == BytesOf(cs[1..][..m], rev)
  {
    assert cs[..m + 1][1..] == cs[1..][..m];
  }

  // The mutable part of the machine. Its steps are methods of the stream that owns it; Run is the
  // loop in that stream, which calls them by name.
  class LinearStateMachine<Id> {
    var Steps: seq<Id>
    var index: nat
    var cancelled: bool

    constructor (steps: seq<Id>)
      ensures Steps == steps && index == 0 && !cancelled
    {
      Steps := steps;
      index := 0;
      cancelled := false;
    }

    // The test in front of the loop of Run.
    method Finished() returns (done: bool, isCancelled: bool)
      ensures done == (index >= |Steps|) && isCancelled == cancelled
    {
      return index >= |Steps|, cancelled;
    }

    // The switch in the body of Run; `stop` when it returns (or the step panicked).
    method Answer(action: Action) returns (stop: bool, isCancelled: bool, done: bool)
      modifies this`index, this`cancelled
      ensures stop == !Goes(action) && isCancelled == done == action.Cancel?
      ensures index == match action case Next => old(index) + 1 case Reset => 0 case _ => old(index)
      ensures cancelled == (old(cancelled) || action.Cancel?)
    {
      match action
      case Next =>
        index := index + 1;
        return false, false, false;
      case Reset =>
        index := 0;
        return false, false, false;
      case Cancel =>
        cancelled := true;
        return true, true, true;
      case _ =>
        return true, false, false;
    }

    method AppendSteps(steps: seq<Id>)
      modifies this`Steps
      ensures Steps == old(Steps) + steps
    {
      Steps := Steps + steps;
    }
  }
}
