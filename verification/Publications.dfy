/** What a ruleset sees of an analyzer: the properties under its name are exactly what it has
    published over its calls (engine/tcp.go:133-207, engine/udp.go:186-271, engine/utils.go:25-50). */
module Publications {
  import opened Bytes
  import opened Props
  import opened Entries

  // One update of what stands under a name.
  function Updated(m: Option<PropMap>, u: Option<PropUpdate>): Option<PropMap> {
    if u.None? then m
    else
      match u.value.kind
      case NoChange => m
      case Merge => Some((if m.Some? then m.value else map[]) + u.value.m)
      case Replace => Some(u.value.m)
      case Delete => None
      case Unknown => m
  }

  // All that an analyzer has published with its answers.
  function Published(a: Analyzer, calls: seq<Call>): Option<PropMap> {
    if calls == [] then None else Updated(Published(a, calls[..|calls| - 1]), a(calls).update)
  }

  // The entries of this name.
  function Named(es: seq<Entry>, name: string): (r: seq<Entry>)
    ensures forall e :: e in r ==> e in es && e.name == name
  {
    if es == [] then []
    else
      var e := es[|es| - 1];
      Named(es[..|es| - 1], name) + if e.name == name then [e] else []
  }

  // One entry has the name, and what stands under it is what that one has published.
  ghost predicate Owns(s: Lists, name: string, e: Entry) {
    && Named(s.active, name) + Named(s.done, name) == [e]
    && At(s.props, name) == Published(e.analyzer, e.calls)
  }

  lemma {:induction false} NamedJoin(a: seq<Entry>, b: seq<Entry>, name: string)
    ensures Named(a + b, name) == Named(a, name) + Named(b, name)
  {
    if b == [] {
      assert a + b == a;
    } else {
      var n := |b| - 1;
      assert (a + b)[..|a + b| - 1] == a + b[..n] && (a + b)[|a + b| - 1] == b[n];
      NamedJoin(a, b[..n], name);
    }
  }

  lemma {:induction false} NamedOne(e: Entry, name: string)
    ensures Named([e], name) == if e.name == name then [e] else []
  {
    assert [e][..0] == [];
  }

  // ---- A round ----

  lemma {:induction false} ApplyAt(props: CombinedProps, name: string, u: Option<PropUpdate>)
    ensures At(Apply(props, name, u).0, name) == Updated(At(props, name), u)
  {
  }

  lemma {:induction false} PublishedMore(a: Analyzer, calls: seq<Call>, c: Call)
    ensures Published(a, calls + [c]) == Updated(Published(a, calls), a(calls + [c]).update)
  {
    assert (calls + [c])[..|calls|] == calls;
  }

  // Feeding one entry keeps its account.
  lemma {:induction false} FeedPublishes(e: Entry, c: Chunk, props: CombinedProps)
    requires At(props, e.name) == Published(e.analyzer, e.calls)
    ensures var f := FeedOne(e, c);
            && f.entry.name == e.name && Origin(f.entry) == Origin(e)
            && At(ApplyBoth(props, f).0, e.name) == Published(e.analyzer, f.entry.calls)
  {
    hide Published, Updated, At, Apply;
    var f := FeedOne(e, c);
    ApplyAt(props, e.name, f.update);
    ApplyAt(Apply(props, e.name, f.update).0, e.name, f.closeUpdate);
    var x := if e.limit <= 0 then c else Fit(c, e.quota);
    PublishedMore(e.analyzer, e.calls, Feed(x));
    PublishedMore(e.analyzer, e.calls + [Feed(x)], Close(true));
    NoUpdate(Published(e.analyzer, e.calls + [Feed(x)]));
  }

  lemma {:induction false} NoUpdate(m: Option<PropMap>)
    ensures Updated(m, None) == m
  {
  }

  // A round leaves the other names alone.
  lemma {:induction false} ServeOthers(active: seq<Entry>, c: Chunk, props: CombinedProps, name: string)
    requires Named(active, name) == []
    ensures var r := Serve(active, c, props);
            NamedIn(r, name) == [] && At(r.props, name) == At(props, name)
  {
    if active != [] {
      var n := |active| - 1;
      var f := FeedOne(active[n], c);
      var p := ApplyBoth(props, f).0;
      var x := Named(active[..n], name);
      assert active[n].name != name && x == [] by {
        assert |Named(active, name)| == |x| + if active[n].name == name then 1 else 0;
      }
      FedNames(active[n], c);
      BothElsewhere(props, f, name);
      ServeOthers(active[..n], f.left, p, name);
      BehindOther(Serve(active[..n], f.left, p), f, ApplyBoth(props, f).1, name);
    }
  }

  // The entries of a name among those that stay and those that go.
  function NamedIn(r: Round, name: string): seq<Entry> { Named(r.stay, name) + Named(r.gone, name) }

  lemma {:induction false} BehindOther(r: Round, f: Fed, u: bool, name: string)
    requires f.entry.name != name
    ensures NamedIn(Behind(r, f, u), name) == NamedIn(r, name)
  {
    NamedOne(f.entry, name);
    NamedJoin(r.stay, [f.entry], name);
    NamedJoin([f.entry], r.gone, name);
    hide Named;
    var x, y := Named(r.stay, name), Named(r.gone, name);
    assert x + [] == x && [] + y == y;
  }

  lemma {:induction false} BehindOwn(r: Round, f: Fed, u: bool, name: string)
    requires f.entry.name == name && NamedIn(r, name) == []
    ensures NamedIn(Behind(r, f, u), name) == [f.entry]
  {
    NamedOne(f.entry, name);
    NamedJoin(r.stay, [f.entry], name);
    NamedJoin([f.entry], r.gone, name);
    hide Named;
    var x, y := Named(r.stay, name), Named(r.gone, name);
    assert |x + y| == |x| + |y|;
    assert x == [] && y == [];
  }

  // The last entry has the name, or one of those in front.
  lemma {:induction false} NamedLast(es: seq<Entry>, name: string, e: Entry)
    requires Named(es, name) == [e]
    ensures es != [] && var n := |es| - 1;
            if es[n].name == name then e == es[n] && Named(es[..n], name) == [] else Named(es[..n], name) == [e]
  {
    var n := |es| - 1;
    var x := Named(es[..n], name);
    if es[n].name == name {
      assert |x + [es[n]]| == |x| + 1;
      assert (x + [es[n]])[0] == e;
    } else {
      assert x + [] == x;
    }
  }

  // A round keeps the account of the one entry that has the name.
  lemma {:induction false} ServePublishes(active: seq<Entry>, c: Chunk, props: CombinedProps, name: string, e: Entry)
    returns (e': Entry)
    requires Named(active, name) == [e] && At(props, name) == Published(e.analyzer, e.calls)
    ensures var r := Serve(active, c, props);
            && NamedIn(r, name) == [e'] && Origin(e') == Origin(e)
            && At(r.props, name) == Published(e'.analyzer, e'.calls)
  {
    NamedLast(active, name, e);
    hide Published, FeedOne, ApplyBoth, At, Named, Origin;
    var n := |active| - 1;
    var f := FeedOne(active[n], c);
    var (p, u) := ApplyBoth(props, f);
    FedNames(active[n], c);
    if active[n].name == name {
      FeedPublishes(e, c, props);
      ServeOthers(active[..n], f.left, p, name);
      BehindOwn(Serve(active[..n], f.left, p), f, u, name);
      SameAnalyzer(f.entry, e);
      e' := f.entry;
    } else {
      BothElsewhere(props, f, name);
      e' := ServePublishes(active[..n], f.left, p, name, e);
      BehindOther(Serve(active[..n], f.left, p), f, u, name);
    }
  }

  lemma {:induction false} SameAnalyzer(e: Entry, f: Entry)
    requires Origin(e) == Origin(f)
    ensures e.analyzer == f.analyzer && e.name == f.name && e.limit == f.limit
  {
  }

  // A chunk for the lists of a stream.
  lemma {:induction false} ServeOwns(s: Lists, c: Chunk, name: string, e: Entry) returns (e': Entry)
    requires Owns(s, name, e)
    ensures Owns(ServeLists(s, c).lists, name, e') && Origin(e') == Origin(e)
  {
    hide Published, Serve, At;
    var r := Serve(s.active, c, s.props);
    NamedJoin(s.done, r.gone, name);
    if Named(s.active, name) == [] {
      ServeOthers(s.active, c, s.props, name);
      e' := e;
    } else {
      assert Named(s.active, name) == [e] && Named(s.done, name) == [];
      e' := ServePublishes(s.active, c, s.props, name, e);
    }
  }

  // ---- Closing ----

  lemma {:induction false} ShutSnoc(es: seq<Entry>, e: Entry)
    ensures ShutAll(es + [e]) == ShutAll(es) + [Shut(e)]
  {
    hide Shut;
  }

  lemma {:induction false} ShutFront(es: seq<Entry>)
    requires es != []
    ensures var n, xs := |es| - 1, ShutAll(es);
            |xs| == n + 1 && xs[..n] == ShutAll(es[..n]) && xs[n] == Shut(es[n]) && Shut(es[n]).name == es[n].name
  {
  }

  lemma {:induction false} ShutNamed(active: seq<Entry>, name: string)
    ensures Named(ShutAll(active), name) == ShutAll(Named(active, name))
  {
    if active != [] {
      var n := |active| - 1;
      ShutFront(active);
      ShutNamed(active[..n], name);
      ShutSnoc(Named(active[..n], name), active[n]);
      NamedFront(active, name);
      NamedFront(ShutAll(active), name);
      hide Named, ShutAll, Shut;
    }
  }

  lemma {:induction false} NamedFront(es: seq<Entry>, name: string)
    requires es != []
    ensures var n := |es| - 1;
            Named(es, name) == if es[n].name == name then Named(es[..n], name) + [es[n]] else Named(es[..n], name)
  {
    assert Named(es[..|es| - 1], name) + [] == Named(es[..|es| - 1], name);
  }

  lemma {:induction false} LastWordsAt(active: seq<Entry>, props: CombinedProps, name: string)
    requires Named(active, name) == []
    ensures At(LastWords(active, props), name) == At(props, name)
  {
    if active != [] {
      var n := |active| - 1;
      var e, x := Shut(active[n]), Named(active[..n], name);
      assert active[n].name != name && x == [] by {
        assert |Named(active, name)| == |x| + if active[n].name == name then 1 else 0;
      }
      LastWordsAt(active[..n], props, name);
      ApplyElsewhere(LastWords(active[..n], props), e.name, e.analyzer(e.calls).update, name);
    }
  }

  lemma {:induction false} LastWordsPublish(active: seq<Entry>, props: CombinedProps, name: string, e: Entry)
    requires Named(active, name) == [e] && At(props, name) == Published(e.analyzer, e.calls)
    ensures At(LastWords(active, props), name) == Published(e.analyzer, Shut(e).calls)
  {
    NamedLast(active, name, e);
    hide Published, At, Apply, Named;
    var n := |active| - 1;
    var x := Shut(active[n]);
    var before := LastWords(active[..n], props);
    if active[n].name == name {
      LastWordsAt(active[..n], props, name);
      ApplyAt(before, name, x.analyzer(x.calls).update);
      PublishedMore(e.analyzer, e.calls, Close(false));
    } else {
      LastWordsPublish(active[..n], props, name, e);
      ApplyElsewhere(before, x.name, x.analyzer(x.calls).update, name);
    }
  }

  lemma {:induction false} CloseOwns(s: Lists, name: string, e: Entry) returns (e': Entry)
    requires Owns(s, name, e)
    ensures Owns(CloseLists(s), name, e') && Origin(e') == Origin(e)
  {
    hide Published, LastWords, At;
    NamedJoin(s.done, ShutAll(s.active), name);
    ShutNamed(s.active, name);
    if Named(s.active, name) == [] {
      LastWordsAt(s.active, s.props, name);
      e' := e;
    } else {
      assert Named(s.active, name) == [e] && Named(s.done, name) == [];
      LastWordsPublish(s.active, s.props, name, e);
      e' := Shut(e);
      assert ShutAll([e]) == [e'];
    }
  }

  // ---- The start ----

  // One plan has the name.
  predicate Planned(ps: seq<Plan>, i: nat) {
    i < |ps| && forall j :: 0 <= j < |ps| && j != i ==> ps[j].name != ps[i].name
  }

  lemma {:induction false} StartNamed(ps: seq<Plan>, name: string)
    requires forall j :: 0 <= j < |ps| ==> ps[j].name != name
    ensures Named(StartAll(ps), name) == []
  {
    if ps != [] {
      var n := |ps| - 1;
      StartNamed(ps[..n], name);
      assert StartAll(ps)[..n] == StartAll(ps[..n]) && StartAll(ps)[n] == Start(ps[n]);
    }
  }

  lemma {:induction false} StartOwns(ps: seq<Plan>, i: nat)
    requires Planned(ps, i)
    ensures Owns(Lists(StartAll(ps), [], map[]), ps[i].name, Start(ps[i]))
  {
    StartOne(ps, i);
    assert Named(StartAll(ps), ps[i].name) + [] == Named(StartAll(ps), ps[i].name);
  }

  lemma {:induction false} StartOne(ps: seq<Plan>, i: nat)
    requires Planned(ps, i)
    ensures Named(StartAll(ps), ps[i].name) == [Start(ps[i])]
  {
    var n := |ps| - 1;
    assert StartAll(ps)[..n] == StartAll(ps[..n]) && StartAll(ps)[n] == Start(ps[n]);
    if i == n {
      StartNamed(ps[..n], ps[i].name);
    } else {
      StartOne(ps[..n], i);
      assert Named(StartAll(ps[..n]), ps[i].name) + [] == Named(StartAll(ps[..n]), ps[i].name);
    }
  }

  // ---- For a plan ----

  // The entry of this plan, and no other, has its name, and what stands under it is what the
  // analyzer has published.
  ghost predicate OwnedBy(s: Lists, p: Plan) {
    exists e :: Owns(s, p.name, e) && Origin(e) == Start(p)
  }

  // So it is for every plan whose name no other one has.
  ghost predicate AllOwned(s: Lists, ps: seq<Plan>) {
    forall i: nat :: Planned(ps, i) ==> OwnedBy(s, ps[i])
  }

  lemma {:induction false} StartOwned(ps: seq<Plan>)
    ensures AllOwned(Lists(StartAll(ps), [], map[]), ps)
  {
    hide Owns, StartAll;
    forall i: nat | Planned(ps, i) ensures OwnedBy(Lists(StartAll(ps), [], map[]), ps[i]) {
      StartOwns(ps, i);
      assert Origin(Start(ps[i])) == Start(ps[i]);
    }
  }

  lemma {:induction false} ServeOwned(s: Lists, c: Chunk, ps: seq<Plan>)
    requires AllOwned(s, ps)
    ensures AllOwned(ServeLists(s, c).lists, ps)
  {
    hide Owns, ServeLists, Origin;
    forall i: nat | Planned(ps, i) ensures OwnedBy(ServeLists(s, c).lists, ps[i]) {
      var e :| Owns(s, ps[i].name, e) && Origin(e) == Start(ps[i]);
      var e' := ServeOwns(s, c, ps[i].name, e);
    }
  }

  lemma {:induction false} CloseOwned(s: Lists, ps: seq<Plan>)
    requires AllOwned(s, ps)
    ensures AllOwned(CloseLists(s), ps)
  {
    hide Owns, CloseLists, Origin;
    forall i: nat | Planned(ps, i) ensures OwnedBy(CloseLists(s), ps[i]) {
      var e :| Owns(s, ps[i].name, e) && Origin(e) == Start(ps[i]);
      var e' := CloseOwns(s, ps[i].name, e);
    }
  }

  // ---- When a ruleset is to be asked ----

  // An update that changes what is published, in name at least.
  predicate Counts(u: Option<PropUpdate>) {
    u.Some? && (u.value.kind == Merge || u.value.kind == Replace || u.value.kind == Delete)
  }

  // What comes of feeding the i-th entry in a round, as those behind it have left the chunk.
  function FedAt(active: seq<Entry>, c: Chunk, i: nat): Fed
    requires i < |active|
    decreases |active|
  {
    var n := |active| - 1;
    if i == n then FeedOne(active[n], c) else FedAt(active[..n], FeedOne(active[n], c).left, i)
  }

  // Some analyzer of the round has published something, with its answer or in closing.
  predicate RoundCounts(active: seq<Entry>, c: Chunk) {
    exists i: nat :: i < |active| && (Counts(FedAt(active, c, i).update) || Counts(FedAt(active, c, i).closeUpdate))
  }

  lemma {:induction false} ApplyCounts(props: CombinedProps, name: string, u: Option<PropUpdate>)
    ensures Apply(props, name, u).1 <==> Counts(u)
    ensures !Counts(u) ==> Apply(props, name, u).0 == props
  {
  }

  lemma {:induction false} CountsLast(active: seq<Entry>, c: Chunk)
    requires active != []
    ensures var n := |active| - 1; var f := FeedOne(active[n], c);
            RoundCounts(active, c) <==>
              Counts(f.update) || Counts(f.closeUpdate) || RoundCounts(active[..n], f.left)
  {
    hide FeedOne, Counts;
    var n := |active| - 1;
    var f := FeedOne(active[n], c);
    assert FedAt(active, c, n) == f;
    forall i: nat | i < n ensures FedAt(active, c, i) == FedAt(active[..n], f.left, i) {
    }
    if RoundCounts(active[..n], f.left) {
      var i: nat :| i < n && (Counts(FedAt(active[..n], f.left, i).update)
                              || Counts(FedAt(active[..n], f.left, i).closeUpdate));
      assert FedAt(active, c, i) == FedAt(active[..n], f.left, i);
    }
  }

  // A round says that it has updated something exactly when an analyzer has published, and
  // otherwise the properties are as they were.
  lemma {:induction false} ServeCounts(active: seq<Entry>, c: Chunk, props: CombinedProps)
    ensures Serve(active, c, props).updated <==> RoundCounts(active, c)
    ensures !RoundCounts(active, c) ==> Serve(active, c, props).props == props
  {
    hide FeedOne, Apply, Counts;
    if active != [] {
      var n := |active| - 1;
      var f := FeedOne(active[n], c);
      ApplyCounts(props, f.entry.name, f.update);
      ApplyCounts(Apply(props, f.entry.name, f.update).0, f.entry.name, f.closeUpdate);
      CountsLast(active, c);
      ServeCounts(active[..n], f.left, ApplyBoth(props, f).0);
    }
  }

  // ---- Analyzers that publish nothing when they are closed ----

  ghost predicate Quiet(a: Analyzer) {
    forall calls: seq<Call> :: calls != [] && calls[|calls| - 1].Close? ==> a(calls).update.None?
  }

  // Closing a stream leaves what stands under the name of such an analyzer.
  lemma {:induction false} CloseQuiet(s: Lists, name: string, e: Entry)
    requires Owns(s, name, e) && Quiet(e.analyzer)
    ensures At(CloseLists(s).props, name) == At(s.props, name)
  {
    hide Published, LastWords, At;
    if Named(s.active, name) == [] {
      LastWordsAt(s.active, s.props, name);
    } else {
      assert Named(s.active, name) == [e] && Named(s.done, name) == [];
      LastWordsPublish(s.active, s.props, name, e);
      PublishedMore(e.analyzer, e.calls, Close(false));
      NoUpdate(Published(e.analyzer, e.calls));
    }
  }

  // One entry, of this analyzer, has the name, and what stands under it is what it has published.
  ghost predicate PublishedBy(s: Lists, name: string, a: Analyzer) {
    exists e :: Owns(s, name, e) && e.analyzer == a
  }

  // A round keeps that, and so does closing all after it, which leaves what stands there.
  lemma {:induction false} ServeQuiet(s: Lists, c: Chunk, name: string, a: Analyzer)
    requires PublishedBy(s, name, a) && Quiet(a)
    ensures var r := ServeLists(s, c).lists;
            && PublishedBy(r, name, a) && PublishedBy(CloseLists(r), name, a)
            && At(CloseLists(r).props, name) == At(r.props, name)
  {
    hide ServeLists, CloseLists, Owns, Quiet, At;
    var e :| Owns(s, name, e) && e.analyzer == a;
    var e1 := ServeOwns(s, c, name, e);
    SameAnalyzer(e1, e);
    var e2 := CloseOwns(ServeLists(s, c).lists, name, e1);
    SameAnalyzer(e2, e1);
    CloseQuiet(ServeLists(s, c).lists, name, e1);
  }
}
