/** UDP streams and their table (engine/udp.go). */
module UdpEngine {
  import opened Bytes
  import opened Props
  import opened Entries
  import opened EntrySets
  import opened Publications
  import opened Rulesets
  import opened Streams

  // ---- One stream ----

  // The verdict for an action and whether it is the stream's last.
  function ActionToUdpVerdict(a: Action): (r: (Verdict, bool))
    ensures r.1 <==> r.0 == AcceptStream || r.0 == DropStream
    ensures r.0 == Accept <==> a.Maybe? || a.Other?
  {
    match a
    case Maybe => (Accept, false)
    case Allow => (AcceptStream, true)
    case Block => (DropStream, true)
    case Drop => (DropPacket, false)
    case Modify => (AcceptModify, false)
    case Other => (Accept, false)
  }

  // The action once a modifier has been tried on the payload, and the payload it made.
  function Modified(r: MatchResult, payload: bytes): (Action, Option<bytes>) {
    if !r.action.Modify? then (r.action, None)
    else if r.modifier.None? then (Maybe, None)
    else
      var m := r.modifier.value(payload);
      (if m.ok then Modify else Maybe, m.packet)
  }

  datatype Outcome = Outcome(stream: Stream, verdict: Verdict, packet: Option<bytes>)

  function MatchUdp(s: Stream, payload: bytes, ctx: Verdict): Outcome {
    var s1 := Shown(s);
    var (a, packet) := Modified(Answered(s1), payload);
    if a.Maybe? then Outcome(s1, ctx, packet)
    else
      var (v, final) := ActionToUdpVerdict(a);
      var s2 := s1.(last := v);
      Outcome(if final then s2.(lists := CloseLists(s2.lists)) else s2, v, packet)
  }

  function FeedUdp(s: Stream, rev: bool, payload: bytes, ctx: Verdict): Outcome {
    var r := ServeLists(s.lists, Datagram(rev, payload));
    var s1 := s.(lists := r.lists);
    // The modifier sees the payload as the analyzers have left it.
    var o := if r.updated || s.virgin then MatchUdp(s1, r.left.data, ctx) else Outcome(s1, ctx, None);
    var (s2, v) := Drained(o.stream, o.verdict);
    Outcome(s2, v, o.packet)
  }

  // A packet is given a new context, whose verdict is to accept.
  function Handle(s: Stream, rev: bool, payload: bytes): Outcome {
    if Settled(s) then Outcome(s, s.last, None) else FeedUdp(s, rev, payload, Accept)
  }

  // What a match comes to: the rules' own action, but a modification that cannot be made, for want of
  // a modifier or because it fails, is none.
  datatype Ruling = Undecided | Allowed | Blocked | Dropped | Altered(packet: Option<bytes>) | Unheard

  function Ruled(m: MatchResult, payload: bytes): Ruling {
    match m.action
    case Maybe => Undecided
    case Allow => Allowed
    case Block => Blocked
    case Drop => Dropped
    case Modify =>
      if m.modifier.Some? && m.modifier.value(payload).ok then Altered(m.modifier.value(payload).packet) else Undecided
    case Other => Unheard
  }

  // ONE DATAGRAM for a stream that is not settled. The ruleset is asked if and only if it is the
  // first or an analyzer has published something with it, and is then shown all that stands
  // published. What it answers decides the verdict, whether the stream goes on, and what is sent
  // instead of the payload.
  lemma {:induction false} DatagramHandled(s: Stream, rev: bool, payload: bytes)
    requires !Settled(s)
    ensures var o, served := Handle(s, rev, payload), ServeLists(s.lists, Datagram(rev, payload));
            var t, lists := o.stream, served.lists;
            var asked := s.virgin || RoundCounts(s.lists.active, Datagram(rev, payload));
            var a := if asked then Ruled(s.ruleset.decide(s.flow, t.matched), served.left.data) else Undecided;
            && t.flow == s.flow && t.ruleset == s.ruleset && !t.virgin
            && t.matched == (if asked then s.matched + [lists.props] else s.matched)
            && t.lists == (if a.Allowed? || a.Blocked? then CloseLists(lists) else lists)
            && (a.Altered? ==> o.packet == a.packet)
            && (!asked || a.Allowed? || a.Blocked? || a.Dropped? ==> o.packet == None)
            && (o.verdict, t.last) ==
                 match a
                 case Allowed => (AcceptStream, AcceptStream)
                 case Blocked => (DropStream, DropStream)
                 case Dropped => (DropPacket, DropPacket)
                 case Altered(_) => (AcceptModify, AcceptModify)
                 case Undecided => if lists.active == [] then (AcceptStream, AcceptStream) else (Accept, s.last)
                 case Unheard => if lists.active == [] then (AcceptStream, AcceptStream) else (Accept, Accept)
  {
    ServeCounts(s.lists.active, Datagram(rev, payload), s.lists.props);
    hide Serve, CloseLists, RoundCounts;
  }

  // A stream that is settled repeats a verdict other than the plain one: to drop the stream exactly
  // when its last match said to block it, to accept it whenever that said to allow it, and another
  // only if that said so.
  predicate Consistent(s: Stream) {
    && (s.virgin <==> s.matched == [])
    && (!s.virgin ==>
          var a := Answered(s).action;
          && (a.Block? || a.Allow? ==> Settled(s))
          && (Settled(s) ==>
                && s.last != Accept
                && (s.last == DropStream <==> a.Block?)
                && (a.Allow? ==> s.last == AcceptStream)
                && (s.last == DropPacket ==> a.Drop?)
                && (s.last == AcceptModify ==> a.Modify?)))
  }

  lemma {:induction false} NewConsistent(flow: Flow, r: Ruleset)
    ensures Consistent(NewStream(flow, r))
  {
  }

  // The packet that settles a stream gets the verdict that is repeated from then on.
  lemma {:induction false} HandleConsistent(s: Stream, rev: bool, payload: bytes)
    requires Consistent(s)
    ensures var o := Handle(s, rev, payload);
            && Consistent(o.stream)
            && (Settled(o.stream) ==> o.verdict == o.stream.last)
            && (Settled(s) ==> o.stream == s && o.packet == None)
            && o.stream.flow == s.flow && o.stream.ruleset == s.ruleset
            && (o.verdict == AcceptModify && !Settled(s) ==>
                  Ruled(Answered(o.stream), ServeLists(s.lists, Datagram(rev, payload)).left.data) == Altered(o.packet))
  {
    if !Settled(s) {
      DatagramHandled(s, rev, payload);
      hide Handle, ServeLists, RoundCounts;
    }
  }

  // What a stream's analyzers have been called with is explained by these datagrams.
  ghost predicate SoundFor(s: Stream, cs: seq<Chunk>, gentle: bool) {
    Sound(s.lists, Origins(StartAll(s.ruleset.analyzers(s.flow))), cs, gentle)
  }

  lemma {:induction false} MatchLists(s: Stream, payload: bytes, ctx: Verdict)
    ensures var t := MatchUdp(s, payload, ctx).stream;
            t.ruleset == s.ruleset && t.flow == s.flow && (t.lists == s.lists || t.lists == CloseLists(s.lists))
  {
  }

  lemma {:induction false} MatchSound(s: Stream, payload: bytes, ctx: Verdict, cs: seq<Chunk>, gentle: bool)
    requires SoundFor(s, cs, gentle)
    ensures SoundFor(MatchUdp(s, payload, ctx).stream, cs, gentle)
  {
    hide Sound, MatchUdp, Origins, StartAll;
    MatchLists(s, payload, ctx);
    CloseSound(s.lists, Origins(StartAll(s.ruleset.analyzers(s.flow))), cs, gentle);
  }

  lemma {:induction false} HandleSound(s: Stream, rev: bool, payload: bytes, cs: seq<Chunk>, gentle: bool)
    requires SoundFor(s, cs, gentle)
    ensures SoundFor(Handle(s, rev, payload).stream, if Settled(s) then cs else cs + [Datagram(rev, payload)], gentle)
  {
    hide Sound, MatchUdp, Origins, StartAll, ServeLists;
    if !Settled(s) {
      var c := Datagram(rev, payload);
      var r := ServeLists(s.lists, c);
      ServeSound(s.lists, c, Origins(StartAll(s.ruleset.analyzers(s.flow))), cs, gentle);
      MatchSound(s.(lists := r.lists), r.left.data, Accept, cs + [c], gentle);
      MatchLists(s.(lists := r.lists), r.left.data, Accept);
    }
  }

  // THE ANALYZERS OF A STREAM are active or done, exactly once each, with calls that some
  // sequence of datagrams explains.
  ghost predicate Accounted(s: Stream) {
    exists cs: seq<Chunk> :: SoundFor(s, cs, false)
  }

  lemma {:induction false} NewAccounted(flow: Flow, r: Ruleset)
    ensures Accounted(NewStream(flow, r))
  {
    hide Sound;
    StartSound(r.analyzers(flow), map[], false);
    assert SoundFor(NewStream(flow, r), [], false);
  }

  lemma {:induction false} HandleAccounted(s: Stream, rev: bool, payload: bytes)
    requires Accounted(s)
    ensures Accounted(Handle(s, rev, payload).stream)
  {
    hide SoundFor, Handle;
    var cs :| SoundFor(s, cs, false);
    HandleSound(s, rev, payload, cs, false);
  }

  // ---- Streams by ID ----

  // Whether a packet belongs to a stream, and whether it goes backwards.
  function FlowMatch(stream: Flow, packet: Flow): (bool, bool) {
    var fwd := stream == packet;
    var rev := stream == Reversed(packet);
    (fwd || rev, rev)
  }

  // victim is the stream that makes room for a new one in a full table.
  datatype Event = Packet(id: nat, flow: Flow, payload: bytes, victim: nat) | Reload(ruleset: Ruleset)

  // A stream leaves the table when its ID is used with another flow, which closes it, or to make
  // room; before and after are its states when it leaves and once it has left.
  datatype Departure = Replaced | Evicted
  datatype Departed = Departed(id: nat, how: Departure, before: Stream, after: Stream)

  datatype Table = Table(streams: map<nat, Stream>, bound: nat, ruleset: Ruleset, gone: seq<Departed>)

  function EmptyTable(bound: nat, r: Ruleset): Table {
    Table(map[], bound, r, [])
  }

  function Lookup(t: Table, id: nat): Option<Stream> {
    if id in t.streams then Some(t.streams[id]) else None
  }

  // What a packet does to the stream that has its ID, if there is one.
  function Visit(slot: Option<Stream>, r: Ruleset, flow: Flow, payload: bytes): Outcome {
    if slot.Some? && FlowMatch(slot.value.flow, flow).0
    then Handle(slot.value, FlowMatch(slot.value.flow, flow).1, payload)
    else Handle(NewStream(flow, r), false, payload)
  }

  // A packet reaches the stream that has its ID if it has the same flow, or the same one backwards,
  // and is then told apart by that; otherwise it begins a stream of its own.
  lemma {:induction false} VisitMeans(slot: Option<Stream>, r: Ruleset, flow: Flow, payload: bytes)
    ensures var back := Flow(flow.dstIp, flow.srcIp, flow.dstPort, flow.srcPort);
            Visit(slot, r, flow, payload) ==
              if slot.Some? && slot.value.flow == back then Handle(slot.value, true, payload)
              else if slot.Some? && slot.value.flow == flow then Handle(slot.value, false, payload)
              else Handle(NewStream(flow, r), false, payload)
  {
    hide Handle;
  }

  predicate Full(t: Table, e: Event) {
    e.Packet? && e.id !in t.streams && |t.streams| >= t.bound
  }

  // The streams left when there is room for the packet's.
  function Kept(t: Table, e: Event): map<nat, Stream> {
    if Full(t, e) then t.streams - {e.victim} else t.streams
  }

  function ClosedStream(s: Stream): Stream {
    s.(lists := CloseLists(s.lists))
  }

  predicate Collides(t: Table, id: nat, flow: Flow) {
    id in t.streams && !FlowMatch(t.streams[id].flow, flow).0
  }

  // The stream that leaves the table because of an event, if there is one.
  function Leaving(t: Table, e: Event): seq<Departed> {
    if Full(t, e) then
      if e.victim in t.streams then [Departed(e.victim, Evicted, t.streams[e.victim], t.streams[e.victim])] else []
    else if e.Packet? && Collides(t, e.id, e.flow) then
      [Departed(e.id, Replaced, t.streams[e.id], ClosedStream(t.streams[e.id]))]
    else []
  }

  // Only a stream in the table can make room.
  predicate Possible(t: Table, e: Event) {
    Full(t, e) ==> e.victim in t.streams
  }

  function Step(t: Table, e: Event): Table {
    match e
    case Packet(id, flow, payload, _) =>
      t.(streams := Kept(t, e)[id := Visit(Lookup(t, id), t.ruleset, flow, payload).stream],
         gone := t.gone + Leaving(t, e))
    case Reload(r) => t.(ruleset := r)
  }

  function After(t: Table, es: seq<Event>): Table
    decreases |es|
  {
    if es == [] then t else After(Step(t, es[0]), es[1..])
  }

  predicate PossibleRun(t: Table, es: seq<Event>)
    decreases |es|
  {
    es == [] || (Possible(t, es[0]) && PossibleRun(Step(t, es[0]), es[1..]))
  }

  // What is sent back for a packet.
  datatype Sent = Sent(verdict: Verdict, packet: Option<bytes>)

  function SentFor(o: Outcome): Sent {
    Sent(o.verdict, o.packet)
  }

  function SentOf(t: Table, e: Event, id: nat): seq<Sent> {
    if e.Packet? && e.id == id then [SentFor(Visit(Lookup(t, id), t.ruleset, e.flow, e.payload))] else []
  }

  // What is sent back for the packets with one ID.
  function AllSentOf(t: Table, es: seq<Event>, id: nat): seq<Sent>
    decreases |es|
  {
    if es == [] then [] else SentOf(t, es[0], id) + AllSentOf(Step(t, es[0]), es[1..], id)
  }

  predicate NeverEvicted(t: Table, es: seq<Event>, id: nat)
    decreases |es|
  {
    es == [] || (!(Full(t, es[0]) && es[0].victim == id) && NeverEvicted(Step(t, es[0]), es[1..], id))
  }

  // A PACKET DISTURBS NO OTHER STREAM: all others stay as they are, but for one that makes room when
  // the packet's ID is new and the table holds as many streams as it may.
  lemma {:induction false} OthersStay(t: Table, e: Event, id: nat)
    requires id in t.streams && (e.Packet? ==> e.id != id)
    ensures var t1 := Step(t, e).streams;
            if e.Packet? && e.id !in t.streams && |t.streams| >= t.bound && e.victim == id then id !in t1
            else id in t1 && t1[id] == t.streams[id]
  {
    hide Visit, Leaving;
  }

  // ---- The same ID on its own ----

  // The packets with one ID, and the reloads.
  function Only(es: seq<Event>, id: nat): seq<Event> {
    if es == [] then []
    else (if es[0].Packet? && es[0].id != id then [] else [es[0]]) + Only(es[1..], id)
  }

  // The one stream of a run, without a table.
  datatype Solo = Solo(slot: Option<Stream>, ruleset: Ruleset)

  function SoloStep(s: Solo, e: Event): (Solo, seq<Sent>) {
    match e
    case Packet(_, flow, payload, _) =>
      var o := Visit(s.slot, s.ruleset, flow, payload);
      (s.(slot := Some(o.stream)), [SentFor(o)])
    case Reload(r) => (s.(ruleset := r), [])
  }

  function SoloAfter(s: Solo, es: seq<Event>): (Solo, seq<Sent>)
    decreases |es|
  {
    if es == [] then (s, [])
    else
      var (s1, vs) := SoloStep(s, es[0]);
      var (s2, ws) := SoloAfter(s1, es[1..]);
      (s2, vs + ws)
  }

  lemma {:induction false} StepElsewhere(t: Table, e: Event, id: nat)
    requires !(Full(t, e) && e.victim == id)
    ensures var s := Solo(Lookup(t, id), t.ruleset);
            var s1 := Solo(Lookup(Step(t, e), id), Step(t, e).ruleset);
            if e.Packet? && e.id != id then s1 == s && SentOf(t, e, id) == []
            else SoloStep(s, e) == (s1, SentOf(t, e, id))
  {
    hide Visit, Leaving;
  }

  // OTHER STREAMS DO NOT MATTER. As long as it is not evicted, a stream and what is sent back for
  // its packets are what they would be if no other ID were ever used.
  lemma {:induction false} OthersDoNotMatter(t: Table, es: seq<Event>, id: nat)
    requires NeverEvicted(t, es, id)
    ensures SoloAfter(Solo(Lookup(t, id), t.ruleset), Only(es, id)) ==
            (Solo(Lookup(After(t, es), id), After(t, es).ruleset), AllSentOf(t, es, id))
    decreases |es|
  {
    hide Step, SoloStep, SentOf, Lookup, Full;
    if es != [] {
      var e := es[0];
      OthersDoNotMatter(Step(t, e), es[1..], id);
      StepElsewhere(t, e, id);
      if e.Packet? && e.id != id {
        assert Only(es, id) == Only(es[1..], id);
        assert AllSentOf(t, es, id) == AllSentOf(Step(t, e), es[1..], id);
      } else {
        assert Only(es, id)[1..] == Only(es[1..], id);
      }
    }
  }

  // ---- What the analyzers of a stream have been fed ----

  // The datagrams that reached the analyzers of the stream now in the slot.
  function SeenNext(s: Solo, cs: seq<Chunk>, e: Event): seq<Chunk> {
    match e
    case Reload(_) => cs
    case Packet(_, flow, payload, _) =>
      if s.slot.Some? && FlowMatch(s.slot.value.flow, flow).0 then
        if Settled(s.slot.value) then cs else cs + [Datagram(FlowMatch(s.slot.value.flow, flow).1, payload)]
      else [Datagram(false, payload)]
  }

  function SoloSeen(s: Solo, cs: seq<Chunk>, es: seq<Event>): seq<Chunk>
    decreases |es|
  {
    if es == [] then cs else SoloSeen(SoloStep(s, es[0]).0, SeenNext(s, cs, es[0]), es[1..])
  }

  // A ruleset whose analyzers never write into what they are fed.
  ghost predicate GentleRules(r: Ruleset) {
    forall flow :: GentlePlans(r.analyzers(flow))
  }

  ghost predicate GentleRun(r: Ruleset, es: seq<Event>) {
    GentleRules(r) && forall i :: 0 <= i < |es| && es[i].Reload? ==> GentleRules(es[i].ruleset)
  }

  lemma {:induction false} SoloStepSound(s: Solo, cs: seq<Chunk>, e: Event, gentle: bool)
    requires s.slot.Some? ==> SoundFor(s.slot.value, cs, gentle)
    requires gentle ==> GentleRules(s.ruleset)
    ensures var t := SoloStep(s, e).0.slot; t.Some? ==> SoundFor(t.value, SeenNext(s, cs, e), gentle)
  {
    hide Sound, Handle, StartAll;
    if e.Packet? {
      if s.slot.Some? && FlowMatch(s.slot.value.flow, e.flow).0 {
        HandleSound(s.slot.value, FlowMatch(s.slot.value.flow, e.flow).1, e.payload, cs, gentle);
      } else {
        var t := NewStream(e.flow, s.ruleset);
        StartSound(s.ruleset.analyzers(e.flow), map[], gentle);
        HandleSound(t, false, e.payload, [], gentle);
        assert [] + [Datagram(false, e.payload)] == [Datagram(false, e.payload)];
      }
    }
  }

  // THE ANALYZERS OF A STREAM, in every run on its own: each is active or done, exactly once, and
  // its calls are those that the stream's datagrams call for, byte for byte when no analyzer
  // writes into them.
  lemma {:induction false} SoloSound(s: Solo, cs: seq<Chunk>, es: seq<Event>, gentle: bool)
    requires s.slot.Some? ==> SoundFor(s.slot.value, cs, gentle)
    requires gentle ==> GentleRun(s.ruleset, es)
    ensures var t := SoloAfter(s, es).0.slot; t.Some? ==> SoundFor(t.value, SoloSeen(s, cs, es), gentle)
    decreases |es|
  {
    hide SoundFor, SeenNext, GentleRules, Visit;
    if es != [] {
      SoloStepSound(s, cs, es[0], gentle);
      SoloSound(SoloStep(s, es[0]).0, SeenNext(s, cs, es[0]), es[1..], gentle);
    }
  }

  lemma {:induction false} OnlyGentle(r: Ruleset, es: seq<Event>, id: nat)
    requires GentleRun(r, es)
    ensures GentleRun(r, Only(es, id))
  {
    hide GentleRules;
    if es != [] {
      OnlyGentle(r, es[1..], id);
    }
  }

  // The same in a table, for a stream that has not been evicted.
  lemma {:induction false} AnalyzersAccounted(bound: nat, r: Ruleset, es: seq<Event>, id: nat, gentle: bool)
    requires var t := EmptyTable(bound, r); NeverEvicted(t, es, id) && id in After(t, es).streams
    requires gentle ==> GentleRun(r, es)
    ensures SoundFor(After(EmptyTable(bound, r), es).streams[id], SoloSeen(Solo(None, r), [], Only(es, id)), gentle)
  {
    hide SoundFor, After, SoloAfter, SoloSeen, Only, GentleRun;
    OthersDoNotMatter(EmptyTable(bound, r), es, id);
    if gentle {
      OnlyGentle(r, es, id);
    }
    SoloSound(Solo(None, r), [], Only(es, id), gentle);
  }

  // An analyzer with a limit has had less than its limit before each datagram it is fed.
  lemma {:induction false} LimitsKept(s: Stream, e: Entry, i: nat)
    requires Accounted(s) && (e in s.lists.active || e in s.lists.done)
    requires e.limit > 0 && i < |e.calls| && e.calls[i].Feed?
    ensures |FedBytes(e.calls[..i])| < e.limit
  {
    hide Sound, Origins, StartAll, Active, Done;
    var cs :| SoundFor(s, cs, false);
    var ds := OfferedTo(s.lists, Origins(StartAll(s.ruleset.analyzers(s.flow))), cs, false, e);
    FedOnlyBelowLimit(e, ds, i);
  }

  // ---- Invariants of the table ----

  // A stream is consistent and its analyzers are accounted for; under the name of an analyzer that
  // shares it with no other stands exactly what that analyzer has published, and its ruleset has
  // been shown what stands there.
  ghost predicate Good(s: Stream) {
    && Consistent(s) && Accounted(s) && AllOwned(s.lists, s.ruleset.analyzers(s.flow))
    && Current(s) && AllShown(s)
  }

  lemma {:induction false} HandleCurrent(s: Stream, rev: bool, payload: bytes)
    requires Current(s)
    ensures Current(Handle(s, rev, payload).stream)
  {
    if !Settled(s) {
      DatagramShape(s, rev, payload);
      hide Handle, ServeLists, CloseLists, NewStream;
    }
  }

  lemma {:induction false} DatagramShape(s: Stream, rev: bool, payload: bytes)
    requires Current(s) && !Settled(s)
    ensures var t, lists := Handle(s, rev, payload).stream, ServeLists(s.lists, Datagram(rev, payload)).lists;
            && t.flow == s.flow && t.ruleset == s.ruleset && !t.virgin
            && (t.lists == lists || (t.lists == CloseLists(lists) && t.lists.active == []))
            && (|| t.matched == s.matched + [lists.props]
                || (t.matched == s.matched != [] && lists.props == s.lists.props))
  {
    DatagramHandled(s, rev, payload);
    ServeCounts(s.lists.active, Datagram(rev, payload), s.lists.props);
    hide Handle, Serve, RoundCounts, LastWords, NewStream;
  }

  lemma {:induction false} HandleShown(s: Stream, rev: bool, payload: bytes)
    requires Current(s) && AllShown(s)
    ensures AllShown(Handle(s, rev, payload).stream)
  {
    if !Settled(s) {
      var c := Datagram(rev, payload);
      DatagramShape(s, rev, payload);
      hide Handle, ServeLists, CloseLists, Current, ShownUnder, Quiet;
      var t, lists, plans := Handle(s, rev, payload).stream, ServeLists(s.lists, c).lists, s.ruleset.analyzers(s.flow);
      forall i: nat | Planned(plans, i) && Quiet(plans[i].analyzer)
        ensures ShownUnder(t, plans[i].name, plans[i].analyzer)
      {
        ShownPublished(s, plans[i].name, plans[i].analyzer);
        ServeQuiet(s.lists, c, plans[i].name, plans[i].analyzer);
        ShownStill(s, t, lists, plans[i].name, plans[i].analyzer);
      }
    }
  }

  lemma {:induction false} HandleOwned(s: Stream, rev: bool, payload: bytes, ps: seq<Plan>)
    requires AllOwned(s.lists, ps)
    ensures AllOwned(Handle(s, rev, payload).stream.lists, ps)
  {
    hide AllOwned, MatchUdp, ServeLists;
    if !Settled(s) {
      var c := Datagram(rev, payload);
      var r := ServeLists(s.lists, c);
      ServeOwned(s.lists, c, ps);
      CloseOwned(r.lists, ps);
      MatchLists(s.(lists := r.lists), r.left.data, Accept);
    }
  }

  ghost predicate AllGood(t: Table) {
    forall id :: id in t.streams ==> Good(t.streams[id])
  }

  // A packet only reaches a stream with its own flow, forwards or backwards; the stream has
  // kept the ruleset it was created with.
  lemma {:induction false} VisitGood(slot: Option<Stream>, r: Ruleset, flow: Flow, payload: bytes)
    requires slot.Some? ==> Good(slot.value)
    ensures var t := Visit(slot, r, flow, payload).stream;
            && Good(t)
            && (t.flow == flow || t.flow == Reversed(flow))
            && (if slot.Some? && (slot.value.flow == flow || slot.value.flow == Reversed(flow))
                then t.ruleset == slot.value.ruleset && t.flow == slot.value.flow
                else t.ruleset == r && t.flow == flow)
  {
    hide Accounted, Handle, Consistent, Current, AllShown, AllOwned, StartAll;
    var own := slot.Some? && FlowMatch(slot.value.flow, flow).0;
    NewAccounted(flow, r);
    var s := if own then slot.value else NewStream(flow, r);
    var rev := own && FlowMatch(slot.value.flow, flow).1;
    NewShown(flow, r);
    NewConsistent(flow, r);
    HandleAccounted(s, rev, payload);
    HandleConsistent(s, rev, payload);
    HandleCurrent(s, rev, payload);
    HandleShown(s, rev, payload);
    StartOwned(r.analyzers(flow));
    HandleOwned(s, rev, payload, s.ruleset.analyzers(s.flow));
  }

  lemma {:induction false} StepGood(t: Table, e: Event)
    requires AllGood(t)
    ensures AllGood(Step(t, e))
  {
    hide Good, Visit, Leaving;
    if e.Packet? {
      VisitGood(Lookup(t, e.id), t.ruleset, e.flow, e.payload);
    }
  }

  lemma {:induction false} RunGood(t: Table, es: seq<Event>)
    requires AllGood(t)
    ensures AllGood(After(t, es))
    decreases |es|
  {
    hide AllGood, Step;
    if es != [] {
      StepGood(t, es[0]);
      RunGood(Step(t, es[0]), es[1..]);
    }
  }

  // GOOD IN EVERY RUN, whatever the analyzers, the rules and the other streams do.
  lemma {:induction false} AlwaysGood(bound: nat, r: Ruleset, es: seq<Event>)
    ensures AllGood(After(EmptyTable(bound, r), es))
  {
    RunGood(EmptyTable(bound, r), es);
  }

  // ---- Streams that leave the table ----

  // Where its entry stood in the list, an analyzer that was active has been told that the
  // stream is over.
  ghost predicate ToldOnLeaving(d: Departed, i: nat)
    requires i < |d.before.lists.active|
  {
    var k := |d.before.lists.done| + i;
    k < |d.after.lists.done| && d.after.lists.done[k] == Shut(d.before.lists.active[i])
  }

  // A departed stream was a good one, was closed if it was replaced, and is as it was otherwise.
  ghost predicate Departs(d: Departed) {
    Good(d.before) && d.after == match d.how case Replaced => ClosedStream(d.before) case Evicted => d.before
  }

  ghost predicate AllDepart(t: Table) {
    forall k :: 0 <= k < |t.gone| ==> Departs(t.gone[k])
  }

  lemma {:induction false} StepDeparts(t: Table, e: Event)
    requires AllGood(t) && AllDepart(t)
    ensures AllDepart(Step(t, e))
  {
    hide Good, Visit, ClosedStream;
  }

  lemma {:induction false} RunDeparts(t: Table, es: seq<Event>)
    requires AllGood(t) && AllDepart(t)
    ensures AllDepart(After(t, es))
    decreases |es|
  {
    hide AllGood, AllDepart, Step;
    if es != [] {
      StepGood(t, es[0]);
      StepDeparts(t, es[0]);
      RunDeparts(Step(t, es[0]), es[1..]);
    }
  }

  // A stream leaves the table in no other way than these two.
  lemma {:induction false} LeavesOnlySo(t: Table, e: Event, id: nat)
    requires id in t.streams && Possible(t, e)
    ensures (exists d :: d in Leaving(t, e) && d.id == id && d.before == t.streams[id]) <==>
              id !in Step(t, e).streams || (e.Packet? && e.id == id && Collides(t, id, e.flow))
  {
    hide Visit, ClosedStream;
    if Full(t, e) && e.victim == id {
      assert Leaving(t, e)[0].id == id;
    } else if e.Packet? && e.id == id && Collides(t, id, e.flow) {
      assert Leaving(t, e)[0].id == id;
    }
  }

  // CLOSED ONLY WHEN REPLACED. In every run, an analyzer that is active when its stream leaves the
  // table is closed if and only if the ID was used with another flow. A stream that makes room is
  // dropped: its analyzers stay active and have been fed, never closed.
  lemma {:induction false} ClosedOnlyWhenReplaced(bound: nat, r: Ruleset, es: seq<Event>, d: Departed, i: nat)
    requires d in After(EmptyTable(bound, r), es).gone && i < |d.before.lists.active|
    ensures ToldOnLeaving(d, i) <==> d.how.Replaced?
    ensures d.how.Replaced? ==> d.after.lists.active == []
    ensures d.how.Evicted? ==>
              && d.after.lists.active == d.before.lists.active
              && forall k :: 0 <= k < |d.after.lists.active[i].calls| ==> d.after.lists.active[i].calls[k].Feed?
  {
    hide After, Good;
    var t := EmptyTable(bound, r);
    RunDeparts(t, es);
    assert Departs(d);
    if d.how.Evicted? {
      OnlyFed(d.before, i);
    }
  }

  lemma {:induction false} OnlyFed(s: Stream, i: nat)
    requires Good(s) && i < |s.lists.active|
    ensures forall k :: 0 <= k < |s.lists.active[i].calls| ==> s.lists.active[i].calls[k].Feed?
  {
    hide Origins, StartAll;
    var cs :| SoundFor(s, cs, false);
    assert ActiveIn(s.lists.active[i], cs, false);
  }

  // ---- Settled streams and snapshots ----

  predicate SameFlow(flow: Flow, e: Event) {
    e.Packet? ==> FlowMatch(flow, e.flow).0
  }

  // The same answer, n times.
  function SentAgain(v: Verdict, n: nat): seq<Sent> {
    seq(n, _ => Sent(v, None))
  }

  lemma {:induction false} SoloSettled(s: Solo, es: seq<Event>)
    requires s.slot.Some? && Settled(s.slot.value)
    requires forall i :: 0 <= i < |es| ==> SameFlow(s.slot.value.flow, es[i])
    ensures SoloAfter(s, es).0.slot == s.slot
    ensures SoloAfter(s, es).1 == SentAgain(s.slot.value.last, |SoloAfter(s, es).1|)
    decreases |es|
  {
    hide FeedUdp;
    if es != [] {
      var (s1, vs) := SoloStep(s, es[0]);
      SoloSettled(s1, es[1..]);
      var ws := SoloAfter(s1, es[1..]).1;
      assert vs == SentAgain(s.slot.value.last, |vs|);
      assert vs + ws == SentAgain(s.slot.value.last, |vs + ws|);
    }
  }

  lemma {:induction false} OnlySameFlow(es: seq<Event>, id: nat, flow: Flow)
    requires forall i :: 0 <= i < |es| && es[i].Packet? && es[i].id == id ==> SameFlow(flow, es[i])
    ensures forall i :: 0 <= i < |Only(es, id)| ==> SameFlow(flow, Only(es, id)[i])
  {
    if es != [] {
      OnlySameFlow(es[1..], id, flow);
    }
  }

  // A SETTLED STREAM, whatever other streams do and whichever rulesets are loaded, repeats the
  // verdict of the packet that settled it, without a payload: never the plain one, and to drop the
  // stream if and only if its last match said to block it.
  lemma {:induction false} SettledRepeats(t: Table, es: seq<Event>, id: nat)
    requires NeverEvicted(t, es, id)
    requires id in t.streams && Settled(t.streams[id]) && Consistent(t.streams[id])
    requires forall i :: 0 <= i < |es| && es[i].Packet? && es[i].id == id ==> SameFlow(t.streams[id].flow, es[i])
    ensures Lookup(After(t, es), id) == Lookup(t, id)
    ensures AllSentOf(t, es, id) == SentAgain(t.streams[id].last, |AllSentOf(t, es, id)|)
    ensures var u := t.streams[id];
            && u.last != Accept
            && (u.last == DropStream <==> u.ruleset.decide(u.flow, u.matched).action.Block?)
            && (u.ruleset.decide(u.flow, u.matched).action.Allow? ==> u.last == AcceptStream)
  {
    hide After, AllSentOf, SoloAfter, Only, NeverEvicted;
    OthersDoNotMatter(t, es, id);
    OnlySameFlow(es, id, t.streams[id].flow);
    SoloSettled(Solo(Lookup(t, id), t.ruleset), Only(es, id));
  }

  lemma {:induction false} SoloSnapshot(s: Solo, es: seq<Event>)
    requires s.slot.Some?
    requires forall i :: 0 <= i < |es| ==> SameFlow(s.slot.value.flow, es[i])
    ensures var u := SoloAfter(s, es).0.slot;
            u.Some? && u.value.ruleset == s.slot.value.ruleset && u.value.flow == s.slot.value.flow
    decreases |es|
  {
    if es != [] {
      SoloSnapshot(SoloStep(s, es[0]).0, es[1..]);
    }
  }

  // A stream keeps the ruleset it was created with, whatever is loaded after.
  lemma {:induction false} SnapshotKept(t: Table, es: seq<Event>, id: nat)
    requires NeverEvicted(t, es, id) && id in t.streams
    requires forall i :: 0 <= i < |es| && es[i].Packet? && es[i].id == id ==> SameFlow(t.streams[id].flow, es[i])
    ensures id in After(t, es).streams && After(t, es).streams[id].ruleset == t.streams[id].ruleset
  {
    hide After, AllSentOf, SoloAfter, Only, NeverEvicted;
    OthersDoNotMatter(t, es, id);
    OnlySameFlow(es, id, t.streams[id].flow);
    SoloSnapshot(Solo(Lookup(t, id), t.ruleset), Only(es, id));
  }

  lemma {:induction false} StepBounded(t: Table, e: Event)
    requires |t.streams| <= t.bound && t.bound > 0 && Possible(t, e)
    ensures |Step(t, e).streams| <= t.bound && Step(t, e).bound == t.bound
  {
    hide Visit, Leaving;
    if e.Packet? {
      if Full(t, e) {
        SizeDropped(t.streams, e.victim);
      }
      SizeAdded(Kept(t, e), e.id, Step(t, e).streams[e.id]);
    }
  }

  lemma {:induction false} SizeDropped(m: map<nat, Stream>, id: nat)
    requires id in m
    ensures |m - {id}| == |m| - 1
  {
    assert (m - {id}).Keys == m.Keys - {id};
    assert |m - {id}| == |(m - {id}).Keys| && |m| == |m.Keys|;
  }

  lemma {:induction false} SizeAdded(m: map<nat, Stream>, id: nat, s: Stream)
    ensures |m[id := s]| == if id in m then |m| else |m| + 1
  {
    assert m[id := s].Keys == m.Keys + {id};
    assert |m[id := s]| == |m[id := s].Keys| && |m| == |m.Keys|;
  }

  lemma {:induction false} TableBounded(t: Table, es: seq<Event>)
    requires |t.streams| <= t.bound && t.bound > 0 && PossibleRun(t, es)
    ensures |After(t, es).streams| <= t.bound
    decreases |es|
  {
    hide Step, Possible;
    if es != [] {
      StepBounded(t, es[0]);
      TableBounded(Step(t, es[0]), es[1..]);
    }
  }
}
