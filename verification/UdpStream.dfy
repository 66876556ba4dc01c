/** The objects behind UDP streams and their table (engine/udp.go:39-172). */
module UdpStreams {
  import opened Bytes
  import opened Props
  import opened Entries
  import opened EntrySets
  import opened Rulesets
  import opened Streams
  import opened UdpEngine

  class UdpStream {
    const flow: Flow
    const ruleset: Ruleset
    const entries: EntrySet
    var virgin: bool
    var lastVerdict: Verdict
    // What the ruleset has been shown.
    var matched: seq<CombinedProps>

    // Everything that belongs to the stream.
    ghost const repr: set<object>

    ghost predicate Valid()
      reads repr
    {
      {this, entries} + entries.owned == repr && entries.Valid()
    }

    ghost function Value(): Stream
      requires Valid()
      reads repr
    {
      Stream(flow, ruleset, virgin, entries.Value(), lastVerdict, matched)
    }

    constructor (flow: Flow, r: Ruleset)
      ensures Valid() && Value() == NewStream(flow, r) && fresh(repr)
    {
      this.flow, ruleset := flow, r;
      virgin, lastVerdict, matched := true, Rulesets.Accept, [];
      var es := new EntrySet(r.analyzers(flow));
      entries, repr := es, {this, es} + es.owned;
    }

    // Whether the packet is to be fed.
    method Accept(ctx: Verdict) returns (ok: bool, verdict: Verdict)
      requires Valid()
      ensures ok == !Settled(Value())
      ensures verdict == if ok then ctx else lastVerdict
    {
      if |entries.activeEntries| > 0 || virgin {
        return true, ctx;
      }
      return false, lastVerdict;
    }

    method Feed(rev: bool, payload: bytes, ctx: Verdict) returns (verdict: Verdict, packet: Option<bytes>)
      requires Valid()
      modifies this, entries, entries.owned
      ensures Valid()
      ensures Outcome(Value(), verdict, packet) == FeedUdp(old(Value()), rev, payload, ctx)
    {
      hide MatchUdp, Drained, ServeLists;
      verdict, packet := ctx, None;
      var updated, left := entries.FeedAll(Datagram(rev, payload));
      if updated || virgin {
        verdict, packet := MatchRuleset(left.data, verdict);
      }
      verdict := Drain(verdict);
    }

    // All entries are done but no verdict was issued (engine/udp.go:230-235).
    method Drain(ctx: Verdict) returns (verdict: Verdict)
      requires Valid()
      modifies this`lastVerdict
      ensures Valid()
      ensures (Value(), verdict) == Drained(old(Value()), ctx)
    {
      verdict := ctx;
      if |entries.activeEntries| == 0 && verdict == Rulesets.Accept {
        lastVerdict := AcceptStream;
        verdict := AcceptStream;
      }
    }

    method MatchRuleset(payload: bytes, ctx: Verdict) returns (verdict: Verdict, packet: Option<bytes>)
      requires Valid()
      modifies this, entries, entries.owned
      ensures Valid()
      ensures Outcome(Value(), verdict, packet) == MatchUdp(old(Value()), payload, ctx)
    {
      hide CloseLists;
      verdict, packet := ctx, None;
      virgin := false;
      matched := matched + [entries.props];
      var result := ruleset.decide(flow, matched);
      var action := result.action;
      if action.Modify? {
        if result.modifier.None? {
          action := Maybe;
        } else {
          var p := result.modifier.value(payload);
          packet := p.packet;
          if !p.ok {
            action := Maybe;
          }
        }
      }
      if !action.Maybe? {
        var (v, final) := ActionToUdpVerdict(action);
        lastVerdict := v;
        verdict := v;
        if final {
          entries.CloseActiveEntries();
        }
      }
    }

    // What MatchWithContext does with the stream it has found (engine/udp.go:149-151).
    method HandlePacket(rev: bool, payload: bytes) returns (verdict: Verdict, packet: Option<bytes>)
      requires Valid()
      modifies repr
      ensures Valid()
      ensures Outcome(Value(), verdict, packet) == Handle(old(Value()), rev, payload)
    {
      hide FeedUdp;
      packet := None;
      var ok;
      ok, verdict := Accept(Rulesets.Accept);
      if ok {
        verdict, packet := Feed(rev, payload, verdict);
      }
    }

    method Close()
      requires Valid()
      modifies entries, entries.owned
      ensures Valid()
      ensures Value() == ClosedStream(old(Value()))
    {
      hide CloseLists;
      entries.CloseActiveEntries();
    }
  }

  class UdpStreamFactory {
    var ruleset: Ruleset

    constructor (r: Ruleset)
      ensures ruleset == r
    {
      ruleset := r;
    }

    // The stream keeps the ruleset of the moment.
    method New(flow: Flow) returns (s: UdpStream)
      ensures s.Valid() && fresh(s.repr) && s.flow == flow && s.Value() == NewStream(flow, ruleset)
    {
      s := new UdpStream(flow, ruleset);
    }

    method UpdateRuleset(r: Ruleset)
      modifies this
      ensures ruleset == r
    {
      ruleset := r;
    }
  }

  datatype UdpStreamValue = UdpStreamValue(stream: UdpStream, flow: Flow)

  ghost predicate Apart(streams: map<nat, UdpStreamValue>, i: nat, j: nat) {
    i in streams && j in streams && i != j ==> streams[i].stream.repr !! streams[j].stream.repr
  }

  ghost predicate Owned(v: UdpStreamValue, owned: set<object>) {
    v.stream.repr <= owned && v.stream.flow == v.flow
  }

  ghost predicate Held(v: UdpStreamValue, owned: set<object>)
    reads owned
  {
    Owned(v, owned) && v.stream.Valid()
  }

  // The streams share nothing, lie within what the table owns, and are filed under their flows.
  ghost predicate Filed(streams: map<nat, UdpStreamValue>, owned: set<object>) {
    && (forall i {:trigger Owned(streams[i], owned)} :: i in streams ==> Owned(streams[i], owned))
    && (forall i, j {:trigger Apart(streams, i, j)} :: Apart(streams, i, j))
  }

  lemma {:induction false} FiledGrow(streams: map<nat, UdpStreamValue>, owned: set<object>, more: set<object>)
    requires Filed(streams, owned)
    ensures Filed(streams, owned + more)
  {
    forall i | i in streams ensures Owned(streams[i], owned + more) {
      assert Owned(streams[i], owned);
    }
  }

  // Nothing that is filed elsewhere belongs to the value.
  ghost predicate Alone(streams: map<nat, UdpStreamValue>, value: UdpStreamValue) {
    forall i {:trigger streams[i]} :: i in streams ==> streams[i].stream.repr !! value.stream.repr
  }

  lemma {:induction false} AloneOutside(streams: map<nat, UdpStreamValue>, owned: set<object>, value: UdpStreamValue)
    requires Filed(streams, owned) && value.stream.repr !! owned
    ensures Alone(streams, value)
  {
    forall i | i in streams ensures streams[i].stream.repr !! value.stream.repr {
      assert Owned(streams[i], owned);
    }
  }

  lemma {:induction false} FiledAdd(streams: map<nat, UdpStreamValue>, owned: set<object>, id: nat,
      value: UdpStreamValue)
    requires Filed(streams, owned) && Owned(value, owned) && Alone(streams, value)
    ensures Filed(streams[id := value], owned)
  {
    var s := streams[id := value];
    forall i | i in s ensures Owned(s[i], owned) {
      assert i != id ==> Owned(streams[i], owned);
    }
    forall i, j ensures Apart(s, i, j) {
      assert Apart(streams, i, j);
    }
  }

  lemma {:induction false} FiledDrop(streams: map<nat, UdpStreamValue>, owned: set<object>, id: nat)
    requires Filed(streams, owned)
    ensures Filed(streams - {id}, owned)
  {
    var s := streams - {id};
    forall i | i in s ensures Owned(s[i], owned) {
      assert Owned(streams[i], owned);
    }
    forall i, j ensures Apart(s, i, j) {
      assert Apart(streams, i, j);
    }
  }

  ghost predicate AllHeld(streams: map<nat, UdpStreamValue>, owned: set<object>)
    reads owned
  {
    forall i {:trigger Held(streams[i], owned)} :: i in streams ==> Held(streams[i], owned)
  }

  ghost function ValuesOf(streams: map<nat, UdpStreamValue>, owned: set<object>): map<nat, Stream>
    requires AllHeld(streams, owned)
    reads owned
  {
    map i | i in streams :: assert Held(streams[i], owned); streams[i].stream.Value()
  }

  lemma {:induction false} HeldAdd(streams: map<nat, UdpStreamValue>, owned: set<object>, id: nat,
      value: UdpStreamValue)
    requires AllHeld(streams, owned) && Held(value, owned)
    ensures AllHeld(streams[id := value], owned)
    ensures ValuesOf(streams[id := value], owned) == ValuesOf(streams, owned)[id := value.stream.Value()]
  {
    var s := streams[id := value];
    forall i | i in s ensures Held(s[i], owned) {
      assert i != id ==> Held(streams[i], owned);
    }
  }

  lemma {:induction false} HeldDrop(streams: map<nat, UdpStreamValue>, owned: set<object>, id: nat)
    requires AllHeld(streams, owned)
    ensures AllHeld(streams - {id}, owned)
    ensures ValuesOf(streams - {id}, owned) == ValuesOf(streams, owned) - {id}
  {
    var s := streams - {id};
    forall i | i in s ensures Held(s[i], owned) {
      assert Held(streams[i], owned);
    }
  }

  lemma {:induction false} HeldGrow(streams: map<nat, UdpStreamValue>, owned: set<object>, more: set<object>)
    requires AllHeld(streams, owned)
    ensures AllHeld(streams, owned + more)
    ensures ValuesOf(streams, owned + more) == ValuesOf(streams, owned)
  {
    forall i | i in streams ensures Held(streams[i], owned + more) {
      assert Held(streams[i], owned);
    }
  }

  lemma {:induction false} InOwned(streams: map<nat, UdpStreamValue>, owned: set<object>, id: nat)
    requires Filed(streams, owned) && id in streams
    ensures streams[id].stream.repr <= owned
  {
    assert Owned(streams[id], owned);
  }

  lemma {:induction false} FlowFiled(streams: map<nat, UdpStreamValue>, owned: set<object>, id: nat)
    requires AllHeld(streams, owned) && id in streams
    ensures id in ValuesOf(streams, owned) && ValuesOf(streams, owned)[id].flow == streams[id].flow
  {
    assert Held(streams[id], owned);
  }

  // One stream has changed and the others have not.
  lemma {:induction false} OneChanged(streams: map<nat, UdpStreamValue>, owned: set<object>, id: nat,
      before: map<nat, Stream>)
    requires id in streams && Held(streams[id], owned) && before.Keys == streams.Keys
    requires forall j {:trigger Held(streams[j], owned)} :: j in streams && j != id ==>
               Held(streams[j], owned) && streams[j].stream.Value() == before[j]
    ensures AllHeld(streams, owned)
    ensures ValuesOf(streams, owned) == before[id := streams[id].stream.Value()]
  {
    forall j | j in streams ensures Held(streams[j], owned) {
    }
  }

  lemma {:induction false} AddedApart(streams: map<nat, UdpStreamValue>, owned: set<object>, id: nat,
      value: UdpStreamValue)
    requires Filed(streams, owned) && AllHeld(streams, owned)
    requires value.stream.Valid() && value.stream.flow == value.flow && value.stream.repr !! owned
    ensures var more := owned + value.stream.repr;
            && Filed(streams[id := value], more) && AllHeld(streams[id := value], more)
            && ValuesOf(streams[id := value], more) == ValuesOf(streams, owned)[id := value.stream.Value()]
  {
    hide Filed, AllHeld, ValuesOf;
    var r := value.stream.repr;
    FiledGrow(streams, owned, r);
    HeldGrow(streams, owned, r);
    AloneOutside(streams, owned, value);
    FiledAdd(streams, owned + r, id, value);
    HeldAdd(streams, owned + r, id, value);
  }

  // The stream that is to have the packet, and whether the packet goes backwards.
  function Base(slot: Option<Stream>, r: Ruleset, flow: Flow): (Stream, bool) {
    if slot.Some? && FlowMatch(slot.value.flow, flow).0
    then (slot.value, FlowMatch(slot.value.flow, flow).1)
    else (NewStream(flow, r), false)
  }

  // The table once that stream is in it.
  function Admitted(t: Table, e: Event): Table
    requires e.Packet?
  {
    t.(streams := Kept(t, e)[e.id := Base(Lookup(t, e.id), t.ruleset, e.flow).0], gone := t.gone + Leaving(t, e))
  }

  lemma {:induction false} StepIsVisit(t: Table, e: Event)
    requires e.Packet?
    ensures var u, (s, rev) := Admitted(t, e), Base(Lookup(t, e.id), t.ruleset, e.flow);
            var o := Handle(s, rev, e.payload);
            && e.id in u.streams && u.streams[e.id] == s
            && Visit(Lookup(t, e.id), t.ruleset, e.flow, e.payload) == o
            && Step(t, e) == u.(streams := u.streams[e.id := o.stream])
  {
    hide Handle, Leaving;
    var u := Admitted(t, e);
    assert u.streams[e.id := Step(t, e).streams[e.id]] == Step(t, e).streams;
  }

  lemma {:induction false} Overwritten(m: map<nat, Stream>, id: nat, a: Stream, b: Stream)
    ensures m[id := a][id := b] == m[id := b]
  {
  }

  class UdpStreamManager {
    const factory: UdpStreamFactory
    const bound: nat
    var streams: map<nat, UdpStreamValue>
    ghost var owned: set<object>
    // The streams that have left the table, as they were then.
    ghost var gone: seq<Departed>

    ghost predicate Valid()
      reads this, owned
    {
      this !in owned && factory !in owned && Filed(streams, owned) && AllHeld(streams, owned)
    }

    ghost function Values(): map<nat, Stream>
      requires Valid()
      reads this, owned
    {
      ValuesOf(streams, owned)
    }

    ghost function Value(): Table
      requires Valid()
      reads this, owned, factory
    {
      Table(Values(), bound, factory.ruleset, gone)
    }

    constructor (factory: UdpStreamFactory, bound: nat)
      ensures Valid() && fresh(owned) && Value() == EmptyTable(bound, factory.ruleset)
      ensures this.factory == factory && this.bound == bound
    {
      this.factory, this.bound, streams, owned, gone := factory, bound, map[], {}, [];
    }

    // What worker.UpdateRuleset does to the UDP half (engine/worker.go:129-134).
    method UpdateRuleset(r: Ruleset)
      requires Valid()
      modifies factory
      ensures Valid() && Value() == Step(old(Value()), Reload(r))
    {
      factory.UpdateRuleset(r);
    }

    method Insert(id: nat, value: UdpStreamValue)
      requires Valid() && value.stream.Valid() && value.stream.flow == value.flow
      requires value.stream.repr !! owned && this !in value.stream.repr && factory !in value.stream.repr
      modifies this`streams, this`owned
      ensures Valid() && owned == old(owned) + value.stream.repr && id in streams
      ensures Values() == old(Values())[id := value.stream.Value()]
    {
      hide Filed, AllHeld, ValuesOf;
      AddedApart(streams, owned, id, value);
      streams, owned := streams[id := value], owned + value.stream.repr;
    }

    lemma {:induction false} SameSize()
      requires Valid()
      ensures |Values()| == |streams| && Values().Keys == streams.Keys
    {
      hide Filed, AllHeld;
      assert Values().Keys == streams.Keys;
      assert |Values()| == |Values().Keys| && |streams| == |streams.Keys|;
    }

    // Which stream goes is not modelled. It is dropped as it is: nothing of it is changed, its
    // analyzers are not closed.
    method RemoveOldest() returns (v: nat)
      requires Valid() && |streams| > 0
      modifies this`streams, this`gone
      ensures Valid() && v in old(Values()) && Values() == old(Values()) - {v}
      ensures gone == old(gone) + [Departed(v, Evicted, old(Values())[v], old(Values())[v])]
    {
      hide Filed, AllHeld, ValuesOf;
      v :| v in streams.Keys;
      SameSize();
      ghost var before := Values();
      FiledDrop(streams, owned, v);
      HeldDrop(streams, owned, v);
      Record(Departed(v, Evicted, before[v], Values()[v]));
      streams := streams - {v};
    }

    // Notes that a stream leaves the table.
    ghost method Record(d: Departed)
      requires Valid()
      modifies this`gone
      ensures Valid() && Values() == old(Values()) && gone == old(gone) + [d]
    {
      hide Filed, AllHeld, ValuesOf;
      gone := gone + [d];
    }

    // Hands a packet to the stream filed under its ID.
    method Visited(id: nat, rev: bool, payload: bytes) returns (verdict: Verdict, packet: Option<bytes>)
      requires Valid() && id in streams
      modifies streams[id].stream.repr
      ensures Valid()
      ensures var o := Handle(old(Values())[id], rev, payload);
              && verdict == o.verdict && packet == o.packet
              && Values() == old(Values())[id := o.stream]
    {
      assert Held(streams[id], owned);
      ghost var before := Values();
      verdict, packet := streams[id].stream.HandlePacket(rev, payload);
      forall j | j in streams && j != id ensures Held(streams[j], owned) && streams[j].stream.Value() == before[j] {
        assert Apart(streams, j, id) && old(Held(streams[j], owned));
      }
      OneChanged(streams, owned, id, before);
    }

    // Closes the analyzers of the stream filed under an ID, which is about to be replaced.
    method CloseStream(id: nat)
      requires Valid() && id in streams
      modifies streams[id].stream.repr
      ensures Valid() && Values() == old(Values())[id := ClosedStream(old(Values())[id])]
    {
      hide ClosedStream;
      assert Held(streams[id], owned);
      ghost var before := Values();
      streams[id].stream.Close();
      forall j | j in streams && j != id ensures Held(streams[j], owned) && streams[j].stream.Value() == before[j] {
        assert Apart(streams, j, id) && old(Held(streams[j], owned));
      }
      OneChanged(streams, owned, id, before);
    }

    // Creates a stream under the ruleset of the moment and files it; in a full table some other
    // stream has to go.
    method NewStreamFor(id: nat, flow: Flow) returns (ghost victim: nat)
      requires Valid() && bound > 0
      modifies this
      ensures Valid() && fresh(owned - old(owned)) && id in streams
      ensures var t, full := old(Value()), id !in old(streams) && |old(streams)| >= bound;
              && (full ==> victim in t.streams)
              && Values() == (if full then t.streams - {victim} else t.streams)[id := NewStream(flow, t.ruleset)]
              && gone == t.gone + if full then [Departed(victim, Evicted, t.streams[victim], t.streams[victim])] else []
    {
      hide Filed, AllHeld, ValuesOf;
      SameSize();
      victim := 0;
      if id !in streams && |streams| >= bound {
        var v := RemoveOldest();
        victim := v;
      }
      var s := factory.New(flow);
      Insert(id, UdpStreamValue(s, flow));
    }

    // Closes the stream filed under an ID and files a new one.
    method Supplant(id: nat, flow: Flow)
      requires Valid() && bound > 0 && id in streams
      modifies this, streams[id].stream.repr
      ensures Valid() && fresh(owned - old(owned)) && id in streams
      ensures var t := old(Value());
              && Values() == t.streams[id := NewStream(flow, t.ruleset)]
              && gone == t.gone + [Departed(id, Replaced, t.streams[id], ClosedStream(t.streams[id]))]
    {
      hide ClosedStream, Filed, AllHeld, ValuesOf;
      ghost var t := Value();
      SameSize();
      InOwned(streams, owned, id);
      CloseStream(id);
      Record(Departed(id, Replaced, t.streams[id], Values()[id]));
      ghost var victim := NewStreamFor(id, flow);
      Overwritten(t.streams, id, ClosedStream(t.streams[id]), NewStream(flow, t.ruleset));
    }

    // Finds the stream that a packet belongs to, or makes one.
    method Find(id: nat, flow: Flow, ghost payload: bytes) returns (rev: bool, ghost e: Event)
      requires Valid() && bound > 0
      modifies this, owned
      ensures Valid() && fresh(owned - old(owned)) && id in streams
      ensures e.Packet? && e.id == id && e.flow == flow && e.payload == payload && Possible(old(Value()), e)
      ensures rev == Base(Lookup(old(Value()), id), old(factory.ruleset), flow).1
      ensures Value() == Admitted(old(Value()), e)
    {
      hide ClosedStream, Filed, AllHeld, ValuesOf;
      ghost var t := Value();
      SameSize();
      rev, e := false, Packet(id, flow, payload, 0);
      if id !in streams {
        ghost var victim := NewStreamFor(id, flow);
        e := Packet(id, flow, payload, victim);
      } else {
        FlowFiled(streams, owned, id);
        var (ok, r) := FlowMatch(streams[id].flow, flow);
        rev := r;
        if !ok {
          InOwned(streams, owned, id);
          Supplant(id, flow);
        } else {
          assert t.streams[id := t.streams[id]] == t.streams;
        }
      }
    }

    method MatchWithContext(id: nat, flow: Flow, payload: bytes)
      returns (verdict: Verdict, packet: Option<bytes>, ghost e: Event)
      requires Valid() && bound > 0
      modifies this, owned
      ensures Valid() && fresh(owned - old(owned))
      ensures e.Packet? && e.id == id && e.flow == flow && e.payload == payload && Possible(old(Value()), e)
      ensures Value() == Step(old(Value()), e)
      ensures var o := Visit(Lookup(old(Value()), id), old(Value()).ruleset, flow, payload);
              verdict == o.verdict && packet == o.packet
    {
      hide Handle, Visit, Admitted, Step, Filed, AllHeld, ValuesOf, Possible;
      ghost var t := Value();
      var rev;
      rev, e := Find(id, flow, payload);
      StepIsVisit(t, e);
      InOwned(streams, owned, id);
      verdict, packet := Visited(id, rev, payload);
    }
  }
}
