/** The analyzers of one stream: what the TCP half (engine/tcp.go:106-207) and the UDP half
    (engine/udp.go:179-287) do alike with their entries, and property updates (engine/utils.go). */
module Entries {
  import opened Bytes
  import opened Props

  // What an analyzer is fed: a piece of a TCP direction or a UDP payload.
  datatype Chunk =
    | Segment(rev: bool, start: bool, end: bool, skip: int, data: bytes)
    | Datagram(rev: bool, data: bytes)

  datatype Call = Feed(chunk: Chunk) | Close(limited: bool)

  // done means nothing after a Close. left is what the analyzer leaves in the memory of the bytes
  // it was fed, when it has written there; all analyzers of a stream are handed the same memory.
  datatype Answer = Answer(update: Option<PropUpdate>, done: bool, left: Option<bytes>)

  // An analyzer answers in any way that depends on the calls it has had, the last one included.
  type Analyzer = seq<Call> -> Answer

  type CombinedProps = map<string, PropMap>

  // One analyzer of a stream. A limit that is not positive is none.
  datatype Entry = Entry(name: string, analyzer: Analyzer, limit: int, quota: int, calls: seq<Call>)

  // An analyzer that a ruleset asks for.
  datatype Plan = Plan(name: string, analyzer: Analyzer, limit: int)

  function Start(p: Plan): Entry {
    Entry(p.name, p.analyzer, p.limit, p.limit, [])
  }

  function StartAll(ps: seq<Plan>): seq<Entry> {
    seq(|ps|, i requires 0 <= i < |ps| => Start(ps[i]))
  }

  // ---- Property updates ----

  function Apply(props: CombinedProps, name: string, u: Option<PropUpdate>): (r: (CombinedProps, bool)) {
    if u.None? then (props, false)
    else
      match u.value.kind
      case NoChange => (props, false)
      case Merge =>
        var m := if name in props then props[name] else map[];
        (props[name := m + u.value.m], true)
      case Replace => (props[name := u.value.m], true)
      case Delete => (props - {name}, true)
      case Unknown => (props, false)
  }

  // ---- Feeding ----

  // The part of a chunk that a quota lets through; datagrams are never cut.
  function Fit(c: Chunk, quota: int): Chunk {
    if c.Segment? && 0 <= quota < |c.data| then c.(data := c.data[..quota]) else c
  }

  // The chunk as it is left behind by an analyzer that was fed n bytes of it. Bytes can be
  // overwritten, not added or removed.
  function Left(c: Chunk, n: nat, left: Option<bytes>): (r: Chunk)
    requires n <= |c.data|
    ensures Like(c, r)
  {
    if left.Some? && |left.value| == n then c.(data := left.value + c.data[n..]) else c
  }

  // The same chunk but for the values of its bytes.
  predicate Like(c: Chunk, d: Chunk) {
    d == c.(data := d.data) && |d.data| == |c.data|
  }

  datatype Fed = Fed(entry: Entry, update: Option<PropUpdate>, closeUpdate: Option<PropUpdate>, done: bool, left: Chunk)

  function FeedOne(e: Entry, c: Chunk): (f: Fed)
    ensures Like(c, f.left)
  {
    if e.limit <= 0 then
      var calls := e.calls + [Feed(c)];
      var a := e.analyzer(calls);
      Fed(e.(calls := calls), a.update, None, a.done, Left(c, |c.data|, a.left))
    else
      var x := Fit(c, e.quota);
      var calls := e.calls + [Feed(x)];
      var a := e.analyzer(calls);
      var quota := e.quota - |x.data|;
      var left := Left(c, |x.data|, a.left);
      if quota > 0 then Fed(e.(calls := calls, quota := quota), a.update, None, a.done, left)
      else
        var last := calls + [Close(true)];
        Fed(e.(calls := last, quota := quota), a.update, e.analyzer(last).update, true, left)
  }

  datatype Lists = Lists(active: seq<Entry>, done: seq<Entry>, props: CombinedProps)

  datatype Round = Round(stay: seq<Entry>, gone: seq<Entry>, props: CombinedProps, updated: bool, left: Chunk)

  // One entry's updates, in the order the analyzer gave them.
  function ApplyBoth(props: CombinedProps, f: Fed): (CombinedProps, bool) {
    var (p1, u1) := Apply(props, f.entry.name, f.update);
    var (p2, u2) := Apply(p1, f.entry.name, f.closeUpdate);
    (p2, u1 || u2)
  }

  // The round of the entries in front, with one more entry behind them.
  function Behind(r: Round, f: Fed, updated: bool): Round {
    if f.done then Round(r.stay, [f.entry] + r.gone, r.props, updated || r.updated, r.left)
    else Round(r.stay + [f.entry], r.gone, r.props, updated || r.updated, r.left)
  }

  // One chunk for every entry, last entry first; each one sees what the one before has left.
  function Serve(active: seq<Entry>, c: Chunk, props: CombinedProps): (r: Round)
    ensures Like(c, r.left)
  {
    if active == [] then Round([], [], props, false, c)
    else
      var n := |active| - 1;
      var f := FeedOne(active[n], c);
      var (p, u) := ApplyBoth(props, f);
      Behind(Serve(active[..n], f.left, p), f, u)
  }

  datatype Served = Served(lists: Lists, updated: bool, left: Chunk)

  function ServeLists(s: Lists, c: Chunk): (r: Served)
    ensures Like(c, r.left)
  {
    var r := Serve(s.active, c, s.props);
    Served(Lists(r.stay, s.done + r.gone, r.props), r.updated, r.left)
  }

  function Shut(e: Entry): Entry {
    e.(calls := e.calls + [Close(false)])
  }

  function ShutAll(active: seq<Entry>): seq<Entry> {
    seq(|active|, i requires 0 <= i < |active| => Shut(active[i]))
  }

  // The properties after every entry's last word, first entry first.
  function LastWords(active: seq<Entry>, props: CombinedProps): CombinedProps {
    if active == [] then props
    else
      var e := Shut(active[|active| - 1]);
      Apply(LastWords(active[..|active| - 1], props), e.name, e.analyzer(e.calls).update).0
  }

  function CloseLists(s: Lists): Lists {
    Lists([], s.done + ShutAll(s.active), LastWords(s.active, s.props))
  }

  // ---- The life of an entry ----

  function Feeds(cs: seq<Chunk>): (r: seq<Call>)
    ensures |r| == |cs|
  {
    seq(|cs|, i requires 0 <= i < |cs| => Feed(cs[i]))
  }

  function Total(cs: seq<Chunk>): nat {
    if cs == [] then 0 else Total(cs[..|cs| - 1]) + |cs[|cs| - 1].data|
  }

  // After these chunks, every one of them whole, the analyzer has not said it is done and its
  // limit is not reached.
  ghost predicate Alive(e: Entry, cs: seq<Chunk>) {
    cs == [] ||
    (&& Alive(e, cs[..|cs| - 1])
     && !e.analyzer(Feeds(cs)).done
     && (e.limit > 0 ==> Total(cs) < e.limit))
  }

  // An entry still in use has been fed exactly the stream's chunks.
  ghost predicate Active(e: Entry, cs: seq<Chunk>) {
    && e.calls == Feeds(cs) && Alive(e, cs)
    && (e.limit > 0 ==> e.quota == e.limit - Total(cs))
  }

  // The chunk that ends the entry's life, as it sees it.
  function LastFed(e: Entry, cs: seq<Chunk>, c: Chunk): Chunk {
    if e.limit > 0 then Fit(c, e.limit - Total(cs)) else c
  }

  predicate Exhausts(e: Entry, cs: seq<Chunk>, c: Chunk) {
    e.limit > 0 && Total(cs) + |c.data| >= e.limit
  }

  // After cs it was fed c and was done, because it said so or because the limit was reached.
  ghost predicate Retired(e: Entry, cs: seq<Chunk>, c: Chunk) {
    var fed := Feeds(cs) + [Feed(LastFed(e, cs, c))];
    && Alive(e, cs)
    && (Exhausts(e, cs, c) || e.analyzer(fed).done)
    && e.calls == fed + if Exhausts(e, cs, c) then [Close(true)] else []
  }

  // After cs it was closed.
  ghost predicate Closed(e: Entry, cs: seq<Chunk>) {
    Alive(e, cs) && e.calls == Feeds(cs) + [Close(false)]
  }

  ghost predicate DoneAt(e: Entry, cs: seq<Chunk>, k: nat)
    requires k <= |cs|
  {
    Closed(e, cs[..k]) || (k > 0 && Retired(e, cs[..k - 1], cs[k - 1]))
  }

  // An entry no longer in use, in a stream that has seen these chunks.
  ghost predicate Done(e: Entry, cs: seq<Chunk>) {
    exists k :: 0 <= k <= |cs| && DoneAt(e, cs, k)
  }

  lemma {:induction false} FeedsSnoc(cs: seq<Chunk>, c: Chunk)
    ensures Feeds(cs + [c]) == Feeds(cs) + [Feed(c)]
    ensures Total(cs + [c]) == Total(cs) + |c.data|
  {
    assert (cs + [c])[..|cs|] == cs;
  }

  lemma {:induction false} AliveBelow(e: Entry, cs: seq<Chunk>)
    requires Alive(e, cs) && e.limit > 0
    ensures Total(cs) < e.limit
  {
  }

  // The same analyzer under the same limit.
  function Origin(e: Entry): Entry {
    e.(quota := e.limit, calls := [])
  }

  lemma {:induction false} AliveOrigin(e: Entry, f: Entry, cs: seq<Chunk>)
    requires Origin(e) == Origin(f) && Alive(e, cs)
    ensures Alive(f, cs)
  {
    if cs != [] {
      AliveOrigin(e, f, cs[..|cs| - 1]);
    }
  }

  lemma {:induction false} FeedOneLife(e: Entry, cs: seq<Chunk>, c: Chunk)
    requires Active(e, cs)
    ensures var f := FeedOne(e, c);
            && Origin(f.entry) == Origin(e)
            && (if f.done then Retired(f.entry, cs, c) else Active(f.entry, cs + [c]))
  {
    var f := FeedOne(e, c);
    FeedsSnoc(cs, c);
    AliveOrigin(e, f.entry, cs);
    if e.limit > 0 {
      AliveBelow(e, cs);
    }
    if !f.done {
      assert (cs + [c])[..|cs|] == cs;
    } else if Exhausts(e, cs, c) {
      assert Feeds(cs) + [Feed(LastFed(e, cs, c))] + [Close(true)] == f.entry.calls;
    }
  }

  lemma {:induction false} DoneStays(e: Entry, cs: seq<Chunk>, c: Chunk)
    requires Done(e, cs)
    ensures Done(e, cs + [c])
  {
    var k :| 0 <= k <= |cs| && DoneAt(e, cs, k);
    assert (cs + [c])[..k] == cs[..k];
    if k > 0 {
      assert (cs + [c])[..k - 1] == cs[..k - 1];
    }
    assert DoneAt(e, cs + [c], k);
  }

  lemma {:induction false} RetiredDone(e: Entry, cs: seq<Chunk>, c: Chunk)
    requires Retired(e, cs, c)
    ensures Done(e, cs + [c])
  {
    assert (cs + [c])[..|cs|] == cs;
    assert DoneAt(e, cs + [c], |cs| + 1);
  }

  lemma {:induction false} ClosedDone(e: Entry, cs: seq<Chunk>)
    requires Closed(e, cs)
    ensures Done(e, cs)
  {
    assert cs[..|cs|] == cs;
    assert DoneAt(e, cs, |cs|);
  }

  // ---- The lists ----

  ghost function Origins(es: seq<Entry>): multiset<Entry> {
    if es == [] then multiset{} else Origins(es[..|es| - 1]) + multiset{Origin(es[|es| - 1])}
  }

  lemma {:induction false} OriginsJoin(a: seq<Entry>, b: seq<Entry>)
    ensures Origins(a + b) == Origins(a) + Origins(b)
  {
    if b == [] {
      assert a + b == a;
    } else {
      assert (a + b)[..|a + b| - 1] == a + b[..|b| - 1];
      OriginsJoin(a, b[..|b| - 1]);
    }
  }

  // ---- What the analyzers of a stream have been offered ----

  // An analyzer that never writes into what it is fed.
  ghost predicate Gentle(a: Analyzer) {
    forall calls :: a(calls).left.None?
  }

  // Chunks as one analyzer may have seen those of its stream: with the same shape, and the very
  // same when nobody writes into them.
  predicate Offered(ds: seq<Chunk>, cs: seq<Chunk>, gentle: bool) {
    |ds| == |cs| && (gentle ==> ds == cs) && forall i :: 0 <= i < |cs| ==> Like(cs[i], ds[i])
  }

  ghost predicate ActiveIn(e: Entry, cs: seq<Chunk>, gentle: bool) {
    (gentle ==> Gentle(e.analyzer)) && exists ds :: Offered(ds, cs, gentle) && Active(e, ds)
  }

  ghost predicate DoneIn(e: Entry, cs: seq<Chunk>, gentle: bool) {
    exists ds :: Offered(ds, cs, gentle) && Done(e, ds)
  }

  lemma {:induction false} OfferedSnoc(ds: seq<Chunk>, cs: seq<Chunk>, d: Chunk, c: Chunk, gentle: bool)
    requires Offered(ds, cs, gentle) && Like(c, d) && (gentle ==> d == c)
    ensures Offered(ds + [d], cs + [c], gentle)
  {
  }

  // An entry in use takes another chunk, as the entries before it have left it.
  lemma {:induction false} ActiveInStep(e: Entry, cs: seq<Chunk>, d: Chunk, c: Chunk, gentle: bool)
    requires ActiveIn(e, cs, gentle) && Like(c, d) && (gentle ==> d == c)
    ensures var f := FeedOne(e, d);
            && Origin(f.entry) == Origin(e) && Like(c, f.left) && (gentle ==> f.left == c)
            && (if f.done then DoneIn(f.entry, cs + [c], gentle) else ActiveIn(f.entry, cs + [c], gentle))
  {
    var ds :| Offered(ds, cs, gentle) && Active(e, ds);
    var f := FeedOne(e, d);
    FeedOneLife(e, ds, d);
    FeedOneLeaves(e, d);
    OfferedSnoc(ds, cs, d, c, gentle);
    hide FeedOne, Active, Done, Retired, Offered, Origin, Gentle;
    if f.done {
      RetiredDone(f.entry, ds, d);
    }
  }

  // What an entry leaves of a chunk for the next one.
  lemma {:induction false} FeedOneLeaves(e: Entry, d: Chunk)
    ensures var f := FeedOne(e, d);
            && Like(d, f.left) && f.entry.analyzer == e.analyzer
            && (Gentle(e.analyzer) ==> f.left == d)
  {
  }

  lemma {:induction false} DoneInStays(e: Entry, cs: seq<Chunk>, c: Chunk, gentle: bool)
    requires DoneIn(e, cs, gentle)
    ensures DoneIn(e, cs + [c], gentle)
  {
    var ds :| Offered(ds, cs, gentle) && Done(e, ds);
    DoneStays(e, ds, c);
    OfferedSnoc(ds, cs, c, c, gentle);
  }

  lemma {:induction false} ShutDoneIn(e: Entry, cs: seq<Chunk>, gentle: bool)
    requires ActiveIn(e, cs, gentle)
    ensures DoneIn(Shut(e), cs, gentle)
  {
    var ds :| Offered(ds, cs, gentle) && Active(e, ds);
    AliveOrigin(e, Shut(e), ds);
    ClosedDone(Shut(e), ds);
  }

  ghost predicate AllActive(es: seq<Entry>, cs: seq<Chunk>, gentle: bool) {
    forall i :: 0 <= i < |es| ==> ActiveIn(es[i], cs, gentle)
  }

  ghost predicate AllDone(es: seq<Entry>, cs: seq<Chunk>, gentle: bool) {
    forall i :: 0 <= i < |es| ==> DoneIn(es[i], cs, gentle)
  }

  // What every step keeps: no entry is lost or doubled, and each one's calls are explained by
  // the chunks of the stream, byte for byte when its analyzers are gentle.
  ghost predicate Sound(s: Lists, initial: multiset<Entry>, cs: seq<Chunk>, gentle: bool) {
    && Origins(s.active) + Origins(s.done) == initial
    && AllActive(s.active, cs, gentle) && AllDone(s.done, cs, gentle)
  }

  // How a round treats its entries.
  ghost predicate RoundLife(r: Round, initial: multiset<Entry>, cs: seq<Chunk>, gentle: bool) {
    && AllActive(r.stay, cs, gentle) && AllDone(r.gone, cs, gentle)
    && Origins(r.stay) + Origins(r.gone) == initial
  }

  lemma {:induction false} OneMoreActive(es: seq<Entry>, e: Entry, cs: seq<Chunk>, gentle: bool)
    requires AllActive(es, cs, gentle) && ActiveIn(e, cs, gentle)
    ensures AllActive(es + [e], cs, gentle)
  {
    hide ActiveIn;
  }

  lemma {:induction false} OneMoreDone(es: seq<Entry>, e: Entry, cs: seq<Chunk>, gentle: bool)
    requires AllDone(es, cs, gentle) && DoneIn(e, cs, gentle)
    ensures AllDone([e] + es, cs, gentle)
  {
    hide DoneIn;
  }

  lemma {:induction false} BehindOrigins(r: Round, f: Fed, u: bool)
    ensures var b := Behind(r, f, u);
            Origins(b.stay) + Origins(b.gone) == Origins(r.stay) + Origins(r.gone) + Origins([f.entry])
  {
    if f.done {
      OriginsJoin([f.entry], r.gone);
    } else {
      OriginsJoin(r.stay, [f.entry]);
    }
  }

  lemma {:induction false} BehindLife(r: Round, f: Fed, u: bool, initial: multiset<Entry>, cs: seq<Chunk>, gentle: bool)
    requires RoundLife(r, initial, cs, gentle)
    requires if f.done then DoneIn(f.entry, cs, gentle) else ActiveIn(f.entry, cs, gentle)
    ensures RoundLife(Behind(r, f, u), initial + Origins([f.entry]), cs, gentle)
  {
    hide ActiveIn, DoneIn, AllActive, AllDone;
    BehindOrigins(r, f, u);
    if f.done {
      OneMoreDone(r.gone, f.entry, cs, gentle);
    } else {
      OneMoreActive(r.stay, f.entry, cs, gentle);
    }
  }

  lemma {:induction false} FrontActive(es: seq<Entry>, n: nat, cs: seq<Chunk>, gentle: bool)
    requires AllActive(es, cs, gentle) && n < |es|
    ensures AllActive(es[..n], cs, gentle) && ActiveIn(es[n], cs, gentle)
  {
    hide ActiveIn;
  }

  lemma {:induction false} AllDoneJoin(a: seq<Entry>, b: seq<Entry>, cs: seq<Chunk>, gentle: bool)
    requires AllDone(a, cs, gentle) && AllDone(b, cs, gentle)
    ensures AllDone(a + b, cs, gentle)
  {
    hide DoneIn;
  }

  lemma {:induction false} AllDoneStays(es: seq<Entry>, cs: seq<Chunk>, c: Chunk, gentle: bool)
    requires AllDone(es, cs, gentle)
    ensures AllDone(es, cs + [c], gentle)
  {
    hide DoneIn;
    forall i | 0 <= i < |es| ensures DoneIn(es[i], cs + [c], gentle) {
      DoneInStays(es[i], cs, c, gentle);
    }
  }

  lemma {:induction false} AllShutDone(es: seq<Entry>, cs: seq<Chunk>, gentle: bool)
    requires AllActive(es, cs, gentle)
    ensures AllDone(ShutAll(es), cs, gentle)
  {
    hide ActiveIn, DoneIn;
    forall i | 0 <= i < |es| ensures DoneIn(ShutAll(es)[i], cs, gentle) {
      ShutDoneIn(es[i], cs, gentle);
    }
  }

  lemma {:induction false} ServeLife(active: seq<Entry>, d: Chunk, props: CombinedProps, cs: seq<Chunk>, c: Chunk,
      gentle: bool)
    requires AllActive(active, cs, gentle) && Like(c, d) && (gentle ==> d == c)
    ensures RoundLife(Serve(active, d, props), Origins(active), cs + [c], gentle)
    ensures gentle ==> Serve(active, d, props).left == c
  {
    hide ActiveIn, DoneIn, FeedOne, ApplyBoth, Like;
    if active != [] {
      hide Behind, RoundLife;
      var n := |active| - 1;
      var f := FeedOne(active[n], d);
      var (p, u) := ApplyBoth(props, f);
      FrontActive(active, n, cs, gentle);
      hide AllActive;
      ActiveInStep(active[n], cs, d, c, gentle);
      ServeLife(active[..n], f.left, p, cs, c, gentle);
      OneOrigin(f.entry);
      BehindLife(Serve(active[..n], f.left, p), f, u, Origins(active[..n]), cs + [c], gentle);
    }
  }

  ghost predicate GentlePlans(ps: seq<Plan>) {
    forall i :: 0 <= i < |ps| ==> Gentle(ps[i].analyzer)
  }

  lemma {:induction false} StartSound(ps: seq<Plan>, props: CombinedProps, gentle: bool)
    requires gentle ==> GentlePlans(ps)
    ensures Sound(Lists(StartAll(ps), [], props), Origins(StartAll(ps)), [], gentle)
  {
    assert Origins([]) == multiset{};
    forall i | 0 <= i < |ps| ensures ActiveIn(StartAll(ps)[i], [], gentle) {
      assert Feeds([]) == [];
      assert Offered([], [], gentle) && Active(StartAll(ps)[i], []);
    }
  }

  lemma {:induction false} OneOrigin(e: Entry)
    ensures Origins([e]) == multiset{Origin(e)}
  {
    assert [e][..0] == [];
    assert Origins([]) == multiset{};
  }

  lemma {:induction false} ServeSound(s: Lists, c: Chunk, initial: multiset<Entry>, cs: seq<Chunk>, gentle: bool)
    requires Sound(s, initial, cs, gentle)
    ensures Sound(ServeLists(s, c).lists, initial, cs + [c], gentle)
    ensures gentle ==> ServeLists(s, c).left == c
  {
    hide Serve, AllActive, AllDone;
    var r := Serve(s.active, c, s.props);
    ServeLife(s.active, c, s.props, cs, c, gentle);
    OriginsJoin(s.done, r.gone);
    AllDoneStays(s.done, cs, c, gentle);
    AllDoneJoin(s.done, r.gone, cs + [c], gentle);
  }

  lemma {:induction false} ShutOrigins(es: seq<Entry>)
    ensures Origins(ShutAll(es)) == Origins(es)
  {
    if es != [] {
      var n := |es| - 1;
      assert ShutAll(es)[..n] == ShutAll(es[..n]);
      assert Origin(Shut(es[n])) == Origin(es[n]);
      ShutOrigins(es[..n]);
    }
  }

  lemma {:induction false} CloseSound(s: Lists, initial: multiset<Entry>, cs: seq<Chunk>, gentle: bool)
    requires Sound(s, initial, cs, gentle)
    ensures Sound(CloseLists(s), initial, cs, gentle)
  {
    hide AllDone, ShutAll, LastWords;
    var shut := ShutAll(s.active);
    ShutOrigins(s.active);
    OriginsJoin(s.done, shut);
    assert Origins([]) == multiset{};
    AllShutDone(s.active, cs, gentle);
    AllDoneJoin(s.done, shut, cs, gentle);
  }

  // The chunks that an entry of a sound stream was offered.
  lemma {:induction false} OfferedTo(s: Lists, initial: multiset<Entry>, cs: seq<Chunk>, gentle: bool, e: Entry)
    returns (ds: seq<Chunk>)
    requires Sound(s, initial, cs, gentle) && (e in s.active || e in s.done)
    ensures Offered(ds, cs, gentle) && (Active(e, ds) || Done(e, ds))
  {
    hide Active, Done, Offered;
    if e in s.active {
      assert ActiveIn(e, cs, gentle);
      ds :| Offered(ds, cs, gentle) && Active(e, ds);
    } else {
      assert DoneIn(e, cs, gentle);
      ds :| Offered(ds, cs, gentle) && Done(e, ds);
    }
  }

  // ---- What the life of an entry means ----

  // Nothing is called after a Close, and there is at most one.
  lemma {:induction false} CloseIsLast(e: Entry, cs: seq<Chunk>, i: nat)
    requires Active(e, cs) || Done(e, cs)
    requires i < |e.calls| && e.calls[i].Close?
    ensures i == |e.calls| - 1
  {
  }

  lemma {:induction false} AliveAt(e: Entry, cs: seq<Chunk>, k: nat)
    requires Alive(e, cs) && 0 < k <= |cs|
    ensures !e.analyzer(Feeds(cs)[..k]).done
  {
    var n := |cs| - 1;
    if k == |cs| {
      assert Feeds(cs)[..k] == Feeds(cs);
    } else {
      AliveAt(e, cs[..n], k);
      assert Feeds(cs)[..k] == Feeds(cs[..n])[..k];
    }
  }

  // Once an analyzer has said that it is done it is not fed again, nor closed unless the same
  // chunk has used up its limit.
  lemma {:induction false} NothingAfterDone(e: Entry, cs: seq<Chunk>, i: nat)
    requires Active(e, cs) || Done(e, cs)
    requires i < |e.calls| && e.calls[i].Feed?
    ensures e.analyzer(e.calls[..i + 1]).done ==>
              e.calls[i + 1..] == [] || (e.limit > 0 && e.calls[i + 1..] == [Close(true)])
  {
    var k := FedWhole(e, cs);
    if i < k {
      AliveAt(e, cs[..k], i + 1);
      assert e.calls[..i + 1] == Feeds(cs[..k])[..i + 1];
    }
  }

  // The chunks fed whole before the entry's last day.
  ghost function FedWhole(e: Entry, cs: seq<Chunk>): (k: nat)
    requires Active(e, cs) || Done(e, cs)
    ensures k <= |cs| && Alive(e, cs[..k]) && k <= |e.calls| && e.calls[..k] == Feeds(cs[..k])
    ensures k < |e.calls| ==>
              || (e.calls[k..] == [Close(false)])
              || (k < |cs| && Retired(e, cs[..k], cs[k]))
  {
    if Active(e, cs) then
      assert cs[..|cs|] == cs;
      |cs|
    else
      var k :| 0 <= k <= |cs| && DoneAt(e, cs, k);
      if Closed(e, cs[..k]) then k else k - 1
  }

  // The bytes fed to an entry.
  function FedBytes(calls: seq<Call>): bytes {
    if calls == [] then []
    else
      var c := calls[|calls| - 1];
      FedBytes(calls[..|calls| - 1]) + if c.Feed? then c.chunk.data else []
  }

  function StreamBytes(cs: seq<Chunk>): (b: bytes)
    ensures |b| == Total(cs)
  {
    if cs == [] then [] else StreamBytes(cs[..|cs| - 1]) + cs[|cs| - 1].data
  }

  lemma {:induction false} FedFeeds(cs: seq<Chunk>)
    ensures FedBytes(Feeds(cs)) == StreamBytes(cs)
  {
    if cs != [] {
      var n := |cs| - 1;
      assert Feeds(cs)[..n] == Feeds(cs[..n]);
      FedFeeds(cs[..n]);
    }
  }

  lemma {:induction false} StreamPrefix(cs: seq<Chunk>, k: nat)
    requires k <= |cs|
    ensures StreamBytes(cs[..k]) <= StreamBytes(cs)
  {
    if k == |cs| {
      assert cs[..k] == cs;
    } else {
      var n := |cs| - 1;
      assert cs[..n][..k] == cs[..k];
      StreamPrefix(cs[..n], k);
    }
  }

  lemma {:induction false} FedSnoc(calls: seq<Call>, c: Call)
    ensures FedBytes(calls + [c]) == FedBytes(calls) + if c.Feed? then c.chunk.data else []
  {
    assert (calls + [c])[..|calls|] == calls;
  }

  // What a retiring entry has been fed, and how it compares with its limit.
  lemma {:induction false} RetiredBytes(e: Entry, cs: seq<Chunk>, c: Chunk)
    requires Retired(e, cs, c)
    ensures FedBytes(e.calls) == StreamBytes(cs) + LastFed(e, cs, c).data
    ensures e.limit > 0 && c.Segment? ==>
              |FedBytes(e.calls)| <= e.limit && (Exhausts(e, cs, c) <==> |FedBytes(e.calls)| == e.limit)
  {
    var x := LastFed(e, cs, c);
    var fed := Feeds(cs) + [Feed(x)];
    FedFeeds(cs);
    FedSnoc(Feeds(cs), Feed(x));
    FedSnoc(fed, Close(true));
    if !Exhausts(e, cs, c) {
      assert e.calls == fed;
    }
    if e.limit > 0 {
      AliveBelow(e, cs);
    }
  }

  lemma {:induction false} RetiredPrefix(e: Entry, cs: seq<Chunk>, c: Chunk)
    requires Retired(e, cs, c)
    ensures FedBytes(e.calls) <= StreamBytes(cs + [c])
  {
    var x := LastFed(e, cs, c).data;
    RetiredBytes(e, cs, c);
    assert (cs + [c])[..|cs|] == cs;
    if e.limit > 0 {
      AliveBelow(e, cs);
    }
    assert c.data == x + c.data[|x|..];
    Assoc(StreamBytes(cs), x, c.data[|x|..]);
  }

  lemma {:induction false} PrefixOfPrefix(a: bytes, b: bytes, c: bytes)
    requires a <= b <= c
    ensures a <= c
  {
  }

  lemma {:induction false} RetiredIsPrefix(e: Entry, cs: seq<Chunk>, k: nat)
    requires k < |cs| && Retired(e, cs[..k], cs[k])
    ensures FedBytes(e.calls) <= StreamBytes(cs)
  {
    RetiredPrefix(e, cs[..k], cs[k]);
    OneMorePrefix(cs, k);
    PrefixOfPrefix(FedBytes(e.calls), StreamBytes(cs[..k] + [cs[k]]), StreamBytes(cs));
  }

  lemma {:induction false} OneMorePrefix(cs: seq<Chunk>, k: nat)
    requires k < |cs|
    ensures StreamBytes(cs[..k] + [cs[k]]) <= StreamBytes(cs)
  {
    assert cs[..k + 1] == cs[..k] + [cs[k]];
    StreamPrefix(cs, k + 1);
  }

  // Whatever the analyzer is fed is the beginning of the stream.
  lemma {:induction false} FedIsPrefix(e: Entry, cs: seq<Chunk>)
    requires Active(e, cs) || Done(e, cs)
    ensures FedBytes(e.calls) <= StreamBytes(cs)
  {
    var k := FedWhole(e, cs);
    if k < |e.calls| && e.calls[k..] != [Close(false)] {
      RetiredIsPrefix(e, cs, k);
    } else {
      WholeBytes(e, cs[..k]);
      StreamPrefix(cs, k);
    }
  }

  lemma {:induction false} WholeBytes(e: Entry, head: seq<Chunk>)
    requires |head| <= |e.calls| && e.calls[..|head|] == Feeds(head)
    requires |head| == |e.calls| || e.calls[|head|..] == [Close(false)]
    ensures FedBytes(e.calls) == StreamBytes(head)
  {
    FedFeeds(head);
    if |head| == |e.calls| {
      assert e.calls == Feeds(head);
    } else {
      assert e.calls == Feeds(head) + [Close(false)];
      FedSnoc(Feeds(head), Close(false));
    }
  }

  // THE QUOTA. On TCP an analyzer is never fed more than its limit, and the limited close tells
  // exactly when the limit is reached.
  lemma {:induction false} QuotaRespected(e: Entry, cs: seq<Chunk>)
    requires Active(e, cs) || Done(e, cs)
    requires e.limit > 0 && forall i :: 0 <= i < |cs| ==> cs[i].Segment?
    ensures |FedBytes(e.calls)| <= e.limit
    ensures |FedBytes(e.calls)| == e.limit <==> e.calls != [] && e.calls[|e.calls| - 1] == Close(true)
  {
    var k := FedWhole(e, cs);
    if k < |e.calls| && e.calls[k..] != [Close(false)] {
      RetiredBytes(e, cs[..k], cs[k]);
      assert Exhausts(e, cs[..k], cs[k]) <==> e.calls[|e.calls| - 1] == Close(true);
    } else {
      WholeBytes(e, cs[..k]);
      AliveBelow(e, cs[..k]);
      if e.calls != [] && k == |e.calls| {
        assert e.calls == Feeds(cs[..k]);
      }
    }
  }

  // On either protocol an analyzer that is fed has had fewer bytes than its limit before.
  lemma {:induction false} FedOnlyBelowLimit(e: Entry, cs: seq<Chunk>, i: nat)
    requires Active(e, cs) || Done(e, cs)
    requires e.limit > 0 && i < |e.calls| && e.calls[i].Feed?
    ensures |FedBytes(e.calls[..i])| < e.limit
  {
    var k := FedWhole(e, cs);
    var head := cs[..k];
    assert i <= k;
    assert e.calls[..i] == Feeds(head)[..i] == Feeds(head[..i]);
    FedFeeds(head[..i]);
    StreamPrefix(head, i);
    AliveBelow(e, head);
  }

  // Only the chunk that reaches the limit can be cut.
  lemma {:induction false} OnlyLastCut(e: Entry, cs: seq<Chunk>, i: nat)
    requires Active(e, cs) || Done(e, cs)
    requires i < |e.calls| && e.calls[i].Feed?
    ensures i < |cs|
    ensures e.calls[i].chunk != cs[i] ==> cs[i].Segment? && e.calls[i + 1..] == [Close(true)]
  {
    var k := FedWhole(e, cs);
    if i < k {
      assert e.calls[i] == e.calls[..k][i] == Feeds(cs[..k])[i];
    }
  }

  // ---- Whose properties change ----

  function At(props: CombinedProps, name: string): Option<PropMap> {
    if name in props then Some(props[name]) else None
  }

  lemma {:induction false} ApplyElsewhere(props: CombinedProps, name: string, u: Option<PropUpdate>, other: string)
    requires other != name
    ensures At(Apply(props, name, u).0, other) == At(props, other)
  {
  }

  lemma {:induction false} ApplyLocal(p: CombinedProps, q: CombinedProps, name: string, u: Option<PropUpdate>)
    requires At(p, name) == At(q, name)
    ensures At(Apply(p, name, u).0, name) == At(Apply(q, name, u).0, name)
  {
  }

  lemma {:induction false} BothElsewhere(props: CombinedProps, f: Fed, other: string)
    requires other != f.entry.name
    ensures At(ApplyBoth(props, f).0, other) == At(props, other)
  {
    ApplyElsewhere(props, f.entry.name, f.update, other);
    ApplyElsewhere(Apply(props, f.entry.name, f.update).0, f.entry.name, f.closeUpdate, other);
  }

  lemma {:induction false} BothLocal(p: CombinedProps, q: CombinedProps, f: Fed)
    requires At(p, f.entry.name) == At(q, f.entry.name)
    ensures At(ApplyBoth(p, f).0, f.entry.name) == At(ApplyBoth(q, f).0, f.entry.name)
  {
    ApplyLocal(p, q, f.entry.name, f.update);
    ApplyLocal(Apply(p, f.entry.name, f.update).0, Apply(q, f.entry.name, f.update).0, f.entry.name, f.closeUpdate);
  }

  lemma {:induction false} ServeElsewhere(active: seq<Entry>, c: Chunk, props: CombinedProps, other: string)
    requires forall i :: 0 <= i < |active| ==> active[i].name != other
    ensures At(Serve(active, c, props).props, other) == At(props, other)
  {
    if active != [] {
      var n := |active| - 1;
      var f := FeedOne(active[n], c);
      BothElsewhere(props, f, other);
      ServeElsewhere(active[..n], f.left, ApplyBoth(props, f).0, other);
    }
  }

  // What a round leaves under a name of one's own depends on that analyzer alone, as long as
  // those that are served before it write nothing: not on what the others publish, nor on the
  // order in which they are served.
  lemma {:induction false} ServeOwn(active: seq<Entry>, c: Chunk, props: CombinedProps, j: nat)
    requires j < |active| && forall i :: 0 <= i < |active| && i != j ==> active[i].name != active[j].name
    requires forall i :: j < i < |active| ==> Gentle(active[i].analyzer)
    ensures var name := active[j].name;
            At(Serve(active, c, props).props, name) == At(ApplyBoth(props, FeedOne(active[j], c)).0, name)
  {
    hide ApplyBoth, FeedOne;
    var n := |active| - 1;
    var f := FeedOne(active[n], c);
    var p := ApplyBoth(props, f).0;
    var name := active[j].name;
    FedNames(active[n], c);
    FedNames(active[j], c);
    if j == n {
      ServeElsewhere(active[..n], f.left, p, name);
    } else {
      GentleLeaves(active[n], c);
      ServeOwn(active[..n], c, p, j);
      BothElsewhere(props, f, name);
      BothLocal(p, props, FeedOne(active[j], c));
    }
  }

  lemma {:induction false} FedNames(e: Entry, c: Chunk)
    ensures FeedOne(e, c).entry.name == e.name
  {
  }

  lemma {:induction false} GentleLeaves(e: Entry, c: Chunk)
    requires Gentle(e.analyzer)
    ensures FeedOne(e, c).left == c
  {
  }

  // An analyzer that publishes the bytes it is fed, and one that overwrites them with zeros.
  function Echo(calls: seq<Call>): Answer {
    if calls != [] && calls[|calls| - 1].Feed?
    then Answer(Some(PropUpdate(Replace, map["data" := Data(calls[|calls| - 1].chunk.data)])), false, None)
    else Answer(None, false, None)
  }

  function Eraser(calls: seq<Call>): Answer {
    if calls != [] && calls[|calls| - 1].Feed?
    then Answer(None, false, Some(seq(|calls[|calls| - 1].chunk.data|, _ => 0)))
    else Answer(None, false, None)
  }

  lemma {:induction false} ServeTwo(a: Entry, b: Entry, c: Chunk, props: CombinedProps)
    ensures var f := FeedOne(b, c);
            var p := ApplyBoth(props, f).0;
            Serve([a, b], c, props).props == ApplyBoth(p, FeedOne(a, f.left)).0
  {
    hide FeedOne, ApplyBoth;
    var f := FeedOne(b, c);
    var p := ApplyBoth(props, f).0;
    assert [a, b][..1] == [a] && [a][..0] == [];
    assert Serve([], FeedOne(a, f.left).left, ApplyBoth(p, FeedOne(a, f.left)).0).props ==
             ApplyBoth(p, FeedOne(a, f.left)).0;
  }

  // Behind an analyzer that writes, the order does matter.
  lemma {:induction false} WriterSeen()
    ensures var echo, eraser := Entry("echo", Echo, 0, 0, []), Entry("eraser", Eraser, 0, 0, []);
            var c := Datagram(false, [1]);
            && At(Serve([echo, eraser], c, map[]).props, "echo") == Some(map["data" := Data([0])])
            && At(Serve([eraser, echo], c, map[]).props, "echo") == Some(map["data" := Data([1])])
  {
    var echo, eraser := Entry("echo", Echo, 0, 0, []), Entry("eraser", Eraser, 0, 0, []);
    var c, z := Datagram(false, [1]), Datagram(false, [0]);
    ServeTwo(echo, eraser, c, map[]);
    ServeTwo(eraser, echo, c, map[]);
    assert [0] + [1][1..] == [0];
    assert FeedOne(eraser, c).left == z && FeedOne(echo, c).left == c;
  }
}
