/** TCP streams in the engine (engine/tcp.go). */
module TcpEngine {
  import opened Bytes
  import opened Props
  import opened Entries
  import opened EntrySets
  import opened Publications
  import opened Rulesets
  import opened Streams

  function ActionToTcpVerdict(a: Action): (v: Verdict)
    ensures v == AcceptStream || v == DropStream
    ensures v == DropStream <==> a.Block? || a.Drop?
  {
    match a
    case Maybe => AcceptStream
    case Allow => AcceptStream
    case Modify => AcceptStream
    case Block => DropStream
    case Drop => DropStream
    case Other => AcceptStream
  }

  function Decision(s: Stream): Action {
    Answered(s).action
  }

  function MatchTcp(s: Stream, ctx: Verdict): (Stream, Verdict) {
    var s1 := Shown(s);
    var a := Decision(s1);
    if a.Maybe? || a.Modify? then (s1, ctx)
    else
      var v := ActionToTcpVerdict(a);
      (s1.(last := v, lists := CloseLists(s1.lists)), v)
  }

  function Reassembled(s: Stream, c: Chunk, ctx: Verdict): (Stream, Verdict) {
    var r := ServeLists(s.lists, c);
    var s1 := s.(lists := r.lists);
    var (s2, v) := if r.updated || s.virgin then MatchTcp(s1, ctx) else (s1, ctx);
    Drained(s2, v)
  }

  // A packet of the stream: one that waits for others or brings nothing new, or one with which
  // the assembler can go on.
  datatype Packet = Held | Piece(chunk: Chunk)

  // A packet is given a new context, whose verdict is to accept.
  function Handle(s: Stream, p: Packet): (Stream, Verdict) {
    if Settled(s) then (s, s.last)
    else
      match p
      case Held => (s, Accept)
      case Piece(c) => Reassembled(s, c, Accept)
  }

  function After(s: Stream, ps: seq<Packet>): Stream
    decreases |ps|
  {
    if ps == [] then s else After(Handle(s, ps[0]).0, ps[1..])
  }

  function Verdicts(s: Stream, ps: seq<Packet>): seq<Verdict>
    decreases |ps|
  {
    if ps == [] then [] else [Handle(s, ps[0]).1] + Verdicts(Handle(s, ps[0]).0, ps[1..])
  }

  // The piece of a packet that reaches the analyzers.
  function Passed(s: Stream, p: Packet): seq<Chunk> {
    if !Settled(s) && p.Piece? then [p.chunk] else []
  }

  function Seen(s: Stream, ps: seq<Packet>): seq<Chunk>
    decreases |ps|
  {
    if ps == [] then []
    else Passed(s, ps[0]) + Seen(Handle(s, ps[0]).0, ps[1..])
  }

  function Complete(s: Stream): Stream {
    s.(lists := CloseLists(s.lists))
  }

  // ---- Verdicts ----

  // A stream that has been matched and is settled carries the verdict of its last match.
  predicate Consistent(s: Stream) {
    && (s.virgin <==> s.matched == [])
    && (Settled(s) ==> s.last == ActionToTcpVerdict(Decision(s)))
    && (!s.virgin && !Settled(s) ==> Decision(s).Maybe? || Decision(s).Modify?)
  }

  lemma {:induction false} HandleConsistent(s: Stream, p: Packet)
    requires Consistent(s)
    ensures var (t, v) := Handle(s, p);
            && Consistent(t)
            && v == (if Settled(t) then t.last else Accept)
            && t.ruleset == s.ruleset && t.flow == s.flow
            && (Settled(s) ==> t == s)
  {
  }

  lemma {:induction false} SettledForever(s: Stream, ps: seq<Packet>)
    requires Settled(s)
    ensures After(s, ps) == s && Verdicts(s, ps) == Repeat(s.last, |ps|) && Seen(s, ps) == []
  {
    if ps != [] {
      SettledForever(s, ps[1..]);
    }
  }

  // How many packets leave the stream unsettled.
  function Undecided(s: Stream, ps: seq<Packet>): (k: nat)
    ensures k <= |ps|
    decreases |ps|
  {
    if ps == [] || Settled(Handle(s, ps[0]).0) then 0 else 1 + Undecided(Handle(s, ps[0]).0, ps[1..])
  }

  // THE VERDICT LANGUAGE. Whatever analyzers and rules do, a stream's packets are accepted one by
  // one until it settles, and from then on all have one and the same verdict, which is final and
  // that of the last match.
  lemma {:induction false} VerdictLanguage(s: Stream, ps: seq<Packet>)
    requires Consistent(s)
    ensures var t := After(s, ps);
            var k := Undecided(s, ps);
            && Consistent(t)
            && Verdicts(s, ps) == Repeat(Accept, k) + Repeat(ActionToTcpVerdict(Decision(t)), |ps| - k)
            && (k < |ps| ==> Settled(t))
    decreases |ps|
  {
    hide Handle, ActionToTcpVerdict, Decision, Repeat;
    if ps != [] {
      var (s1, v) := Handle(s, ps[0]);
      HandleConsistent(s, ps[0]);
      if Settled(s1) {
        SettledForever(s1, ps[1..]);
        RepeatMore(v, |ps| - 1);
      } else {
        VerdictLanguage(s1, ps[1..]);
        RepeatMore(Accept, Undecided(s1, ps[1..]));
      }
    }
  }

  lemma {:induction false} RepeatMore(v: Verdict, n: nat)
    ensures [v] + Repeat(v, n) == Repeat(v, n + 1)
  {
  }

  // ---- Analyzers ----

  lemma {:induction false} MatchSound(s: Stream, ctx: Verdict, initial: multiset<Entry>, cs: seq<Chunk>, gentle: bool)
    requires Sound(s.lists, initial, cs, gentle)
    ensures Sound(MatchTcp(s, ctx).0.lists, initial, cs, gentle)
  {
    hide Sound, CloseLists;
    CloseSound(s.lists, initial, cs, gentle);
  }

  lemma {:induction false} HandleSound(s: Stream, p: Packet, initial: multiset<Entry>, cs: seq<Chunk>, gentle: bool)
    requires Sound(s.lists, initial, cs, gentle)
    ensures Sound(Handle(s, p).0.lists, initial, cs + Passed(s, p), gentle)
  {
    hide Sound, ServeLists, MatchTcp;
    if !Settled(s) && p.Piece? {
      var c := p.chunk;
      ServeSound(s.lists, c, initial, cs, gentle);
      MatchSound(s.(lists := ServeLists(s.lists, c).lists), Accept, initial, cs + [c], gentle);
    } else {
      assert cs + [] == cs;
    }
  }

  lemma {:induction false} RunSound(s: Stream, ps: seq<Packet>, initial: multiset<Entry>, cs: seq<Chunk>, gentle: bool)
    requires Sound(s.lists, initial, cs, gentle)
    ensures Sound(After(s, ps).lists, initial, cs + Seen(s, ps), gentle)
    decreases |ps|
  {
    hide Sound, Handle, Passed;
    if ps == [] {
      assert cs + [] == cs;
    } else {
      var s1 := Handle(s, ps[0]).0;
      HandleSound(s, ps[0], initial, cs, gentle);
      RunSound(s1, ps[1..], initial, cs + Passed(s, ps[0]), gentle);
      Assoc(cs, Passed(s, ps[0]), Seen(s1, ps[1..]));
    }
  }

  // THE ANALYZERS OF A STREAM, in every run from its start: each one is active or done, exactly
  // once; an active one has had every piece, and the calls of a done one end as they should. The
  // pieces are those of the stream byte for byte when no analyzer writes into them.
  lemma {:induction false} AnalyzersAccounted(flow: Flow, r: Ruleset, ps: seq<Packet>, gentle: bool)
    requires gentle ==> GentlePlans(r.analyzers(flow))
    ensures var t := After(NewStream(flow, r), ps);
            var initial := Origins(StartAll(r.analyzers(flow)));
            var cs := Seen(NewStream(flow, r), ps);
            && Sound(t.lists, initial, cs, gentle)
            && Sound(Complete(t).lists, initial, cs, gentle) && Complete(t).lists.active == []
  {
    hide Sound, StartAll, Origins, GentlePlans;
    var s := NewStream(flow, r);
    var initial := Origins(StartAll(r.analyzers(flow)));
    StartSound(r.analyzers(flow), map[], gentle);
    RunSound(s, ps, initial, [], gentle);
    assert [] + Seen(s, ps) == Seen(s, ps);
    CloseSound(After(s, ps).lists, initial, Seen(s, ps), gentle);
  }

  lemma {:induction false} SeenSegments(s: Stream, ps: seq<Packet>, i: nat)
    requires forall j :: 0 <= j < |ps| && ps[j].Piece? ==> ps[j].chunk.Segment?
    requires i < |Seen(s, ps)|
    ensures Seen(s, ps)[i].Segment?
    decreases |ps|
  {
    hide Handle;
    var step := if !Settled(s) && ps[0].Piece? then 1 else 0;
    if i >= step {
      SeenSegments(Handle(s, ps[0]).0, ps[1..], i - step);
    }
  }

  // No analyzer is fed more than its limit, and all it is fed is the beginning of the stream, as
  // the analyzers before it have left it.
  lemma {:induction false} LimitsKept(flow: Flow, r: Ruleset, ps: seq<Packet>, e: Entry, gentle: bool)
    requires gentle ==> GentlePlans(r.analyzers(flow))
    requires forall j :: 0 <= j < |ps| && ps[j].Piece? ==> ps[j].chunk.Segment?
    requires var t := After(NewStream(flow, r), ps).lists; e in t.active || e in t.done
    ensures exists ds :: Offered(ds, Seen(NewStream(flow, r), ps), gentle) && FedBytes(e.calls) <= StreamBytes(ds)
    ensures e.limit > 0 ==> |FedBytes(e.calls)| <= e.limit
  {
    hide After, Seen, Active, Done, NewStream, GentlePlans;
    var s := NewStream(flow, r);
    var cs := Seen(s, ps);
    AnalyzersAccounted(flow, r, ps, gentle);
    var ds := OfferedTo(After(s, ps).lists, Origins(StartAll(r.analyzers(flow))), cs, gentle, e);
    FedIsPrefix(e, ds);
    forall i | 0 <= i < |cs| ensures cs[i].Segment? {
      SeenSegments(s, ps, i);
    }
    forall i | 0 <= i < |ds| ensures ds[i].Segment? {
      assert Like(cs[i], ds[i]);
    }
    if e.limit > 0 {
      QuotaRespected(e, ds);
    }
  }

  // ---- Properties ----

  lemma {:induction false} HandleOwned(s: Stream, p: Packet, ps: seq<Plan>)
    requires AllOwned(s.lists, ps)
    ensures AllOwned(Handle(s, p).0.lists, ps)
  {
    hide AllOwned, ServeLists, CloseLists, Answered;
    if !Settled(s) && p.Piece? {
      var r := ServeLists(s.lists, p.chunk);
      ServeOwned(s.lists, p.chunk, ps);
      CloseOwned(r.lists, ps);
    }
  }

  lemma {:induction false} RunOwned(s: Stream, packets: seq<Packet>, ps: seq<Plan>)
    requires AllOwned(s.lists, ps)
    ensures AllOwned(After(s, packets).lists, ps)
    decreases |packets|
  {
    hide AllOwned, Handle;
    if packets != [] {
      HandleOwned(s, packets[0], ps);
      RunOwned(Handle(s, packets[0]).0, packets[1..], ps);
    }
  }

  // WHAT A RULESET SEES. In every run of a stream, also after its end, what stands under the name
  // of an analyzer that shares it with no other is exactly what that analyzer has published in
  // answer to its calls, whatever the others do.
  lemma {:induction false} PropertiesPublished(flow: Flow, r: Ruleset, packets: seq<Packet>)
    ensures var t := After(NewStream(flow, r), packets);
            AllOwned(t.lists, r.analyzers(flow)) && AllOwned(Complete(t).lists, r.analyzers(flow))
  {
    hide AllOwned, StartAll, CloseLists;
    StartOwned(r.analyzers(flow));
    RunOwned(NewStream(flow, r), packets, r.analyzers(flow));
    CloseOwned(After(NewStream(flow, r), packets).lists, r.analyzers(flow));
  }

  // ---- When the ruleset is asked, and what becomes of its answer ----

  // ONE PIECE for a stream that is not settled. The ruleset is asked if and only if it is the first
  // piece or an analyzer has published something with it, and is then shown all that stands
  // published; what it answers decides the verdict.
  lemma {:induction false} PieceHandled(s: Stream, c: Chunk)
    requires !Settled(s)
    ensures var (t, v) := Handle(s, Piece(c));
            var lists := ServeLists(s.lists, c).lists;
            var asked := s.virgin || RoundCounts(s.lists.active, c);
            var a := s.ruleset.decide(s.flow, t.matched).action;
            && t.flow == s.flow && t.ruleset == s.ruleset && !t.virgin
            && t.matched == (if asked then s.matched + [lists.props] else s.matched)
            && (asked && (a.Block? || a.Drop?) ==>
                  v == DropStream && t.last == DropStream && t.lists == CloseLists(lists))
            && (asked && (a.Allow? || a.Other?) ==>
                  v == AcceptStream && t.last == AcceptStream && t.lists == CloseLists(lists))
            && (!asked || a.Maybe? || a.Modify? ==>
                  && t.lists == lists && v == (if lists.active == [] then AcceptStream else Accept)
                  && t.last == if lists.active == [] then AcceptStream else s.last)
  {
    ServeCounts(s.lists.active, c, s.lists.props);
    hide Serve, CloseLists, RoundCounts;
  }

  // And for the others.
  lemma {:induction false} NotAsked(s: Stream, p: Packet)
    requires Settled(s) || p.Held?
    ensures Handle(s, p) == (s, if Settled(s) then s.last else Accept)
  {
  }

  lemma {:induction false} HandleCurrent(s: Stream, p: Packet)
    requires Current(s)
    ensures Current(Handle(s, p).0)
  {
    if !Settled(s) && p.Piece? {
      PieceHandled(s, p.chunk);
      ServeCounts(s.lists.active, p.chunk, s.lists.props);
      hide Handle, Serve, RoundCounts, NewStream;
    }
  }

  lemma {:induction false} PieceShape(s: Stream, c: Chunk)
    requires Current(s) && !Settled(s)
    ensures var t, lists := Handle(s, Piece(c)).0, ServeLists(s.lists, c).lists;
            && (t.lists == lists || t.lists == CloseLists(lists))
            && (|| t.matched == s.matched + [lists.props]
                || (t.matched == s.matched != [] && lists.props == s.lists.props))
  {
    PieceHandled(s, c);
    ServeCounts(s.lists.active, c, s.lists.props);
    hide Handle, Serve, RoundCounts, CloseLists, NewStream;
  }

  lemma {:induction false} HandleShown(s: Stream, p: Packet, name: string, a: Analyzer)
    requires Current(s) && ShownUnder(s, name, a) && Quiet(a)
    ensures ShownUnder(Handle(s, p).0, name, a)
  {
    if Settled(s) || p.Held? {
      NotAsked(s, p);
    } else {
      PieceShape(s, p.chunk);
      ServeQuiet(s.lists, p.chunk, name, a);
      ShownStill(s, Handle(s, p).0, ServeLists(s.lists, p.chunk).lists, name, a);
    }
  }

  lemma {:induction false} RunShown(s: Stream, ps: seq<Packet>, name: string, a: Analyzer)
    requires Current(s) && ShownUnder(s, name, a) && Quiet(a)
    ensures Current(After(s, ps)) && ShownUnder(After(s, ps), name, a)
    decreases |ps|
  {
    hide Handle, Current, ShownUnder, Quiet;
    if ps != [] {
      HandleCurrent(s, ps[0]);
      HandleShown(s, ps[0], name, a);
      RunShown(Handle(s, ps[0]).0, ps[1..], name, a);
    }
  }

  lemma {:induction false} RunCurrent(s: Stream, ps: seq<Packet>)
    requires Current(s)
    ensures Current(After(s, ps))
    decreases |ps|
  {
    hide Handle, Current;
    if ps != [] {
      HandleCurrent(s, ps[0]);
      RunCurrent(Handle(s, ps[0]).0, ps[1..]);
    }
  }

  lemma {:induction false} RunStays(s: Stream, ps: seq<Packet>)
    ensures After(s, ps).flow == s.flow && After(s, ps).ruleset == s.ruleset
    decreases |ps|
  {
    hide ServeLists, CloseLists;
    if ps != [] {
      RunStays(Handle(s, ps[0]).0, ps[1..]);
    }
  }

  // WHAT THE RULESET HAS SEEN, in every run: as long as a stream is not settled, it was last shown
  // everything that stands published; and to the end, what it was last shown under the name of an
  // analyzer that shares it with no other, and publishes nothing in closing, is all that this
  // analyzer has published.
  lemma {:induction false} RulesetShown(flow: Flow, r: Ruleset, packets: seq<Packet>)
    ensures var t := After(NewStream(flow, r), packets);
            && Current(t)
            && forall i: nat :: Planned(r.analyzers(flow), i) && Quiet(r.analyzers(flow)[i].analyzer) ==>
                 ShownUnder(t, r.analyzers(flow)[i].name, r.analyzers(flow)[i].analyzer)
  {
    var s, plans := NewStream(flow, r), r.analyzers(flow);
    NewShown(flow, r);
    RunCurrent(s, packets);
    hide After, StartAll, ShownUnder, Quiet, Current;
    forall i: nat | Planned(plans, i) && Quiet(plans[i].analyzer)
      ensures ShownUnder(After(s, packets), plans[i].name, plans[i].analyzer)
    {
      RunShown(s, packets, plans[i].name, plans[i].analyzer);
    }
  }

  // ---- The object ----

  class TcpStream {
    const flow: Flow
    const ruleset: Ruleset
    const entries: EntrySet
    var virgin: bool
    var lastVerdict: Verdict
    // What the ruleset has been shown.
    var matched: seq<CombinedProps>

    ghost predicate Valid()
      reads this, entries, entries.owned
    {
      entries.Valid()
    }

    ghost function Value(): Stream
      reads this, entries, entries.activeEntries, entries.doneEntries
    {
      Stream(flow, ruleset, virgin, entries.Value(), lastVerdict, matched)
    }

    constructor (flow: Flow, r: Ruleset)
      ensures Valid() && Value() == NewStream(flow, r)
      ensures fresh(entries) && fresh(entries.owned)
    {
      this.flow, ruleset := flow, r;
      virgin, lastVerdict, matched := true, Rulesets.Accept, [];
      entries := new EntrySet(r.analyzers(flow));
    }

    // Whether the assembler is to go on with the packet.
    method Accept(ctx: Verdict) returns (ok: bool, verdict: Verdict)
      requires Valid()
      ensures ok == !Settled(Value())
      ensures verdict == if ok then ctx else lastVerdict
    {
      if |entries.activeEntries| > 0 || virgin {
        return true, ctx;
      }
      return false, lastVerdict;
    }

    method ReassembledSG(c: Chunk, ctx: Verdict) returns (verdict: Verdict)
      requires Valid()
      modifies this, entries, entries.owned
      ensures Valid()
      ensures (Value(), verdict) == Reassembled(old(Value()), c, ctx)
    {
      verdict := ctx;
      var updated, left := entries.FeedAll(c);
      if updated || virgin {
        verdict := MatchRuleset(verdict);
      }
      verdict := Drain(verdict);
    }

    // All entries are done but no verdict was issued (engine/tcp.go:154-159).
    method Drain(ctx: Verdict) returns (verdict: Verdict)
      requires Valid()
      modifies this`lastVerdict
      ensures Valid()
      ensures (Value(), verdict) == Drained(old(Value()), ctx)
    {
      verdict := ctx;
      if |entries.activeEntries| == 0 && verdict == Rulesets.Accept {
        lastVerdict := AcceptStream;
        verdict := AcceptStream;
      }
    }

    method MatchRuleset(ctx: Verdict) returns (verdict: Verdict)
      requires Valid()
      modifies this, entries, entries.owned
      ensures Valid()
      ensures (Value(), verdict) == MatchTcp(old(Value()), ctx)
    {
      verdict := ctx;
      virgin := false;
      matched := matched + [entries.props];
      var action := ruleset.decide(flow, matched).action;
      if !action.Maybe? && !action.Modify? {
        verdict := ActionToTcpVerdict(action);
        lastVerdict := verdict;
        entries.CloseActiveEntries();
      }
    }

    method ReassemblyComplete()
      requires Valid()
      modifies entries, entries.owned
      ensures Valid()
      ensures Value() == Complete(old(Value()))
    {
      entries.CloseActiveEntries();
    }
  }

  // A packet on its way through the assembler, as far as the stream is concerned
  // (engine/worker.go:170-177).
  method HandleTcp(s: TcpStream, p: Packet) returns (verdict: Verdict)
    requires s.Valid()
    modifies s, s.entries, s.entries.owned
    ensures s.Valid()
    ensures (s.Value(), verdict) == Handle(old(s.Value()), p)
  {
    var ok;
    ok, verdict := s.Accept(Accept);
    if ok && p.Piece? {
      verdict := s.ReassembledSG(p.chunk, verdict);
    }
  }
}
