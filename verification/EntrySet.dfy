/** The entry objects of a stream and the loops over them (engine/tcp.go:125-207, engine/udp.go:191-287). */
module EntrySets {
  import opened Bytes
  import opened Props
  import opened Entries

  class StreamEntry {
    const name: string
    const analyzer: Analyzer
    const limit: int
    const hasLimit: bool
    var quota: int
    // The calls the analyzer has had, which are all it knows.
    var calls: seq<Call>

    constructor (name: string, analyzer: Analyzer, limit: int)
      ensures hasLimit == (limit > 0) && View() == Entry(name, analyzer, limit, limit, [])
    {
      this.name, this.analyzer, this.limit := name, analyzer, limit;
      hasLimit, quota, calls := limit > 0, limit, [];
    }

    function View(): Entry
      reads this
    {
      Entry(name, analyzer, limit, quota, calls)
    }

    method Call(c: Call) returns (a: Answer)
      modifies this`calls
      ensures calls == old(calls) + [c] && a == analyzer(calls)
    {
      calls := calls + [c];
      a := analyzer(calls);
    }

    method FeedEntry(c: Chunk)
      returns (update: Option<PropUpdate>, closeUpdate: Option<PropUpdate>, done: bool, left: Chunk)
      requires hasLimit == (limit > 0) && (hasLimit ==> quota > 0)
      modifies this
      ensures Fed(View(), update, closeUpdate, done, left) == FeedOne(old(View()), c)
      ensures hasLimit && !done ==> quota > 0
    {
      closeUpdate := None;
      if !hasLimit {
        var a := Call(Entries.Feed(c));
        update, done, left := a.update, a.done, Left(c, |c.data|, a.left);
      } else {
        var qData := c;
        if c.Segment? && |c.data| > quota {
          qData := c.(data := c.data[..quota]);
        }
        var a := Call(Entries.Feed(qData));
        update, done, left := a.update, a.done, Left(c, |qData.data|, a.left);
        quota := quota - |qData.data|;
        if quota <= 0 {
          var b := Call(Entries.Close(true));
          closeUpdate, done := b.update, true;
        }
      }
    }
  }

  ghost predicate Distinct(s: seq<StreamEntry>) {
    forall i, j :: 0 <= i < j < |s| ==> s[i] != s[j]
  }

  // ---- The loop on values ----

  // One turn of the feeding loop: entry i is fed, and moved when it is done.
  function ServeAt(s: Lists, i: nat, c: Chunk): Served
    requires i < |s.active|
  {
    var f := FeedOne(s.active[i], c);
    var (p, u) := ApplyBoth(s.props, f);
    Served(if f.done then Lists(s.active[..i] + s.active[i + 1..], s.done + [f.entry], p)
           else Lists(s.active[i := f.entry], s.done, p), u, f.left)
  }

  // The round of the entries in front, put together with what the loop has already done.
  function Glue(r: Round, kept: seq<Entry>, gone: seq<Entry>, updated: bool): Round {
    Round(r.stay + kept, gone + r.gone, r.props, updated || r.updated, r.left)
  }

  lemma {:induction false} GlueBehind(r: Round, f: Fed, u: bool, kept: seq<Entry>, gone: seq<Entry>, updated: bool)
    ensures Glue(Behind(r, f, u), kept, gone, updated) ==
            Glue(r, if f.done then kept else [f.entry] + kept, if f.done then gone + [f.entry] else gone, updated || u)
  {
    if f.done {
      assert gone + ([f.entry] + r.gone) == gone + [f.entry] + r.gone;
    } else {
      assert r.stay + [f.entry] + kept == r.stay + ([f.entry] + kept);
    }
  }

  // Where the loop stands: entries up to i are still to come, and the chunk has become d.
  ghost predicate HalfServed(was: Lists, c: Chunk, now: Lists, d: Chunk, i: int, updated: bool) {
    && 0 <= i <= |was.active| && i <= |now.active| && |was.done| <= |now.done|
    && now.active[..i] == was.active[..i] && now.done[..|was.done|] == was.done
    && Serve(was.active, c, was.props) ==
       Glue(Serve(was.active[..i], d, now.props), now.active[i..], now.done[|was.done|..], updated)
  }

  lemma {:induction false} HalfServedStart(was: Lists, c: Chunk)
    ensures HalfServed(was, c, was, c, |was.active|, false)
  {
    assert was.active[..|was.active|] == was.active;
  }

  lemma {:induction false} HalfServedStep(was: Lists, c: Chunk, now: Lists, d: Chunk, i: int, updated: bool)
    requires HalfServed(was, c, now, d, i, updated) && i > 0
    ensures var s := ServeAt(now, i - 1, d); HalfServed(was, c, s.lists, s.left, i - 1, updated || s.updated)
  {
    hide FeedOne, ApplyBoth, Behind, Glue;
    var n := i - 1;
    var k := |was.done|;
    var head := was.active[..i];
    assert head[n] == now.active[..i][n] == now.active[n];
    assert head[..n] == was.active[..n];
    var f := FeedOne(now.active[n], d);
    var (p, u) := ApplyBoth(now.props, f);
    GlueBehind(Serve(was.active[..n], f.left, p), f, u, now.active[i..], now.done[k..], updated);
    ServeAtKeeps(now, n, d, k);
    assert now.active[..n] == now.active[..i][..n] == was.active[..n];
  }

  // What a turn does to the parts of the lists.
  lemma {:induction false} ServeAtKeeps(s: Lists, n: nat, d: Chunk, k: nat)
    requires n < |s.active| && k <= |s.done|
    ensures var next, f := ServeAt(s, n, d).lists, FeedOne(s.active[n], d);
            && n <= |next.active| && k <= |next.done|
            && next.active[..n] == s.active[..n] && next.done[..k] == s.done[..k]
            && next.active[n..] == (if f.done then s.active[n + 1..] else [f.entry] + s.active[n + 1..])
            && next.done[k..] == (if f.done then s.done[k..] + [f.entry] else s.done[k..])
  {
    hide FeedOne, ApplyBoth;
  }

  lemma {:induction false} HalfServedRoom(was: Lists, c: Chunk, now: Lists, d: Chunk, i: int, updated: bool)
    requires HalfServed(was, c, now, d, i, updated)
    ensures 0 <= i <= |now.active|
  {
  }

  lemma {:induction false} HalfServedEnd(was: Lists, c: Chunk, now: Lists, d: Chunk, updated: bool)
    requires HalfServed(was, c, now, d, 0, updated)
    ensures Served(now, updated, d) == ServeLists(was, c)
  {
    assert was.active[..0] == [];
    var r := Glue(Serve([], d, now.props), now.active[0..], now.done[|was.done|..], updated);
    assert r.stay == now.active;
    assert r.gone == now.done[|was.done|..];
    assert now.done == was.done + r.gone;
  }

  // One turn of the closing loop.
  function ShutAt(s: Lists, k: nat): Lists
    requires k < |s.active|
  {
    var e := Shut(s.active[k]);
    Lists(s.active[k := e], s.done, Apply(s.props, e.name, e.analyzer(e.calls).update).0)
  }

  // Where the closing loop stands: the first k entries are closed.
  ghost predicate HalfShut(was: Lists, now: Lists, k: nat) {
    && k <= |was.active| == |now.active|
    && now.active == ShutAll(was.active[..k]) + was.active[k..]
    && now.done == was.done && now.props == LastWords(was.active[..k], was.props)
  }

  lemma {:induction false} HalfShutStart(was: Lists)
    ensures HalfShut(was, was, 0)
  {
    assert was.active[..0] == [];
  }

  lemma {:induction false} HalfShutStep(was: Lists, now: Lists, k: nat)
    requires HalfShut(was, now, k) && k < |was.active|
    ensures HalfShut(was, ShutAt(now, k), k + 1)
  {
    assert was.active[..k + 1][..k] == was.active[..k];
    assert now.active[k] == was.active[k];
    assert ShutAll(was.active[..k + 1]) == ShutAll(was.active[..k]) + [Shut(was.active[k])];
  }

  lemma {:induction false} HalfShutEnd(was: Lists, now: Lists)
    requires HalfShut(was, now, |was.active|)
    ensures Lists([], now.done + now.active, now.props) == CloseLists(was)
  {
    assert was.active[..|was.active|] == was.active;
  }

  class EntrySet {
    var activeEntries: seq<StreamEntry>
    var doneEntries: seq<StreamEntry>
    var props: CombinedProps
    ghost const owned: set<StreamEntry>

    ghost predicate Valid()
      reads `activeEntries, `doneEntries, owned
    {
      ValidBut(-1)
    }

    // No entry is in two places, and every active one, but perhaps the k-th, has quota left.
    ghost predicate ValidBut(k: int)
      reads `activeEntries, `doneEntries, owned
    {
      && Distinct(activeEntries + doneEntries)
      && (forall i :: 0 <= i < |activeEntries| ==> activeEntries[i] in owned)
      && (forall i :: 0 <= i < |doneEntries| ==> doneEntries[i] in owned)
      && (forall i :: 0 <= i < |activeEntries| ==> Ready(activeEntries[i], i == k))
    }

    static ghost predicate Ready(e: StreamEntry, spent: bool)
      reads e
    {
      e.hasLimit == (e.limit > 0) && (e.hasLimit && !spent ==> e.quota > 0)
    }

    constructor (plans: seq<Plan>)
      ensures Valid() && fresh(owned)
      ensures Value() == Lists(StartAll(plans), [], map[])
    {
      var es: seq<StreamEntry> := [];
      var i := 0;
      while i < |plans|
        invariant 0 <= i == |es| <= |plans| && Distinct(es)
        invariant forall j :: 0 <= j < i ==> fresh(es[j]) && Ready(es[j], false) && es[j].View() == Start(plans[j])
      {
        var e := new StreamEntry(plans[i].name, plans[i].analyzer, plans[i].limit);
        es := es + [e];
        i := i + 1;
      }
      activeEntries, doneEntries, props := es, [], map[];
      owned := set e | e in es;
      new;
      assert activeEntries + doneEntries == es;
    }

    static function Views(es: seq<StreamEntry>): (r: seq<Entry>)
      reads es
      ensures |r| == |es|
    {
      seq(|es|, i requires 0 <= i < |es| reads es => es[i].View())
    }

    ghost function Value(): Lists
      reads this, activeEntries, doneEntries
    {
      Lists(Views(activeEntries), Views(doneEntries), props)
    }

    ghost function Members(): multiset<StreamEntry>
      reads `activeEntries, `doneEntries
    {
      multiset(activeEntries + doneEntries)
    }

    method ProcessPropUpdate(name: string, u: Option<PropUpdate>) returns (updated: bool)
      modifies this`props
      ensures (props, updated) == Apply(old(props), name, u)
    {
      if u.None? || u.value.kind.NoChange? { return false; }
      match u.value.kind {
        case Merge =>
          var m := map[];
          if name in props { m := props[name]; }
          props := props[name := m + u.value.m];
          return true;
        case Replace =>
          props := props[name := u.value.m];
          return true;
        case Delete =>
          props := props - {name};
          return true;
        case Unknown =>
          return false;
      }
    }

    static lemma {:induction false} Apart(es: seq<StreamEntry>, ds: seq<StreamEntry>, i: nat)
      requires i < |es| && Distinct(es + ds)
      ensures forall j :: 0 <= j < |es| && j != i ==> es[j] != es[i]
      ensures forall j :: 0 <= j < |ds| ==> ds[j] != es[i]
    {
      var t := es + ds;
      assert t[i] == es[i];
      forall j | 0 <= j < |es| && j != i ensures es[j] != es[i] {
        assert t[j] == es[j];
      }
      forall j | 0 <= j < |ds| ensures ds[j] != es[i] {
        assert t[|es| + j] == ds[j];
      }
    }

    // Feeds entry i where it is.
    method FeedInPlace(i: nat, c: Chunk) returns (updated: bool, done: bool, left: Chunk)
      requires Valid() && i < |activeEntries|
      modifies this`props, owned
      ensures ValidBut(if done then i else -1)
      ensures var s := old(Value()); var f := FeedOne(s.active[i], c); var (p, u) := ApplyBoth(s.props, f);
              && done == f.done && updated == u && left == f.left
              && Value() == Lists(s.active[i := f.entry], s.done, p)
    {
      var entry := activeEntries[i];
      Apart(activeEntries, doneEntries, i);
      var update, closeUpdate;
      update, closeUpdate, done, left := entry.FeedEntry(c);
      var up1 := ProcessPropUpdate(entry.name, update);
      var up2 := ProcessPropUpdate(entry.name, closeUpdate);
      updated := up1 || up2;
      assert Views(doneEntries) == old(Views(doneEntries));
      assert Views(activeEntries) == old(Views(activeEntries))[i := entry.View()];
    }

    // Moves entry i to the done ones.
    method Retire(i: nat)
      requires ValidBut(i) && i < |activeEntries|
      modifies this`activeEntries, this`doneEntries
      ensures Valid() && Members() == old(Members())
      ensures var s := old(Value()); Value() == Lists(s.active[..i] + s.active[i + 1..], s.done + [s.active[i]],
                s.props)
    {
      ghost var v := Value();
      ghost var es, ds := activeEntries, doneEntries;
      Moved(es, ds, i);
      doneEntries := doneEntries + [activeEntries[i]];
      activeEntries := activeEntries[..i] + activeEntries[i + 1..];
      assert Views(activeEntries) == v.active[..i] + v.active[i + 1..];
      assert Views(doneEntries) == v.done + [v.active[i]];
      forall j | 0 <= j < |activeEntries| ensures activeEntries[j] in owned && Ready(activeEntries[j], false) {
        assert activeEntries[j] == es[if j < i then j else j + 1];
      }
    }

    // Moves all entries to the done ones.
    method RetireAll()
      requires Valid()
      modifies this`activeEntries, this`doneEntries
      ensures Valid() && activeEntries == [] && Members() == old(Members())
      ensures var s := old(Value()); Value() == Lists([], s.done + s.active, s.props)
    {
      ghost var v := Value();
      Swapped(activeEntries, doneEntries);
      doneEntries := doneEntries + activeEntries;
      activeEntries := [];
      assert Views(doneEntries) == v.done + v.active;
    }

    // One turn of the loop: feeds entry i, and moves it when it is done.
    method FeedAt(i: nat, c: Chunk) returns (updated: bool, left: Chunk)
      requires Valid() && i < |activeEntries|
      modifies this`activeEntries, this`doneEntries, this`props, owned
      ensures Valid() && Members() == old(Members())
      ensures Served(Value(), updated, left) == ServeAt(old(Value()), i, c)
    {
      var done;
      updated, done, left := FeedInPlace(i, c);
      if done {
        Retire(i);
      }
    }

    static lemma {:induction false} Moved(es: seq<StreamEntry>, ds: seq<StreamEntry>, i: nat)
      requires i < |es| && Distinct(es + ds)
      ensures var t := es[..i] + es[i + 1..] + (ds + [es[i]]);
              Distinct(t) && multiset(t) == multiset(es + ds)
    {
      assert es + ds == es[..i] + [es[i]] + es[i + 1..] + ds;
      var t := es[..i] + es[i + 1..] + (ds + [es[i]]);
      forall a, b | 0 <= a < b < |t| ensures t[a] != t[b] {
        assert t[a] == (es + ds)[if a < i then a else a + 1];
        assert b < |t| - 1 ==> t[b] == (es + ds)[if b < i then b else b + 1];
        assert b == |t| - 1 ==> t[b] == (es + ds)[i];
      }
    }

    // Feeds a chunk to every active entry, from the last to the first so that done ones can be
    // taken out.
    method FeedAll(c: Chunk) returns (updated: bool, left: Chunk)
      requires Valid()
      modifies this`activeEntries, this`doneEntries, this`props, owned
      ensures Valid() && Members() == old(Members())
      ensures Served(Value(), updated, left) == ServeLists(old(Value()), c)
    {
      hide HalfServed, ServeAt, ServeLists;
      ghost var was := Value();
      updated, left := false, c;
      var i := |activeEntries|;
      HalfServedStart(was, c);
      while i > 0
        invariant 0 <= i <= |activeEntries|
        invariant Valid() && Members() == old(Members())
        invariant HalfServed(was, c, Value(), left, i, updated)
      {
        i := i - 1;
        HalfServedStep(was, c, Value(), left, i + 1, updated);
        var up;
        up, left := FeedAt(i, left);
        updated := updated || up;
        HalfServedRoom(was, c, Value(), left, i, updated);
      }
      HalfServedEnd(was, c, Value(), left, updated);
    }

    // Closes entry k where it is.
    method CloseAt(k: nat)
      requires Valid() && k < |activeEntries|
      modifies this`props, owned
      ensures Valid()
      ensures Value() == ShutAt(old(Value()), k)
    {
      var entry := activeEntries[k];
      Apart(activeEntries, doneEntries, k);
      var a := entry.Call(Entries.Close(false));
      var updated := ProcessPropUpdate(entry.name, a.update);
      assert Views(doneEntries) == old(Views(doneEntries));
      assert Views(activeEntries) == old(Views(activeEntries))[k := entry.View()];
    }

    // Closes every active entry where it is, first one first.
    method CloseEach()
      requires Valid()
      modifies this`props, owned
      ensures Valid()
      ensures HalfShut(old(Value()), Value(), |activeEntries|)
    {
      ghost var was := Value();
      HalfShutStart(was);
      for k := 0 to |activeEntries|
        invariant Valid()
        invariant HalfShut(was, Value(), k)
      {
        HalfShutStep(was, Value(), k);
        CloseAt(k);
      }
    }

    // Tells every active entry that the stream is over.
    method CloseActiveEntries()
      requires Valid()
      modifies this`activeEntries, this`doneEntries, this`props, owned
      ensures Valid() && activeEntries == [] && Members() == old(Members())
      ensures Value() == CloseLists(old(Value()))
    {
      ghost var was := Value();
      CloseEach();
      HalfShutEnd(was, Value());
      RetireAll();
    }

    static lemma {:induction false} Swapped(es: seq<StreamEntry>, ds: seq<StreamEntry>)
      requires Distinct(es + ds)
      ensures Distinct([] + (ds + es)) && multiset([] + (ds + es)) == multiset(es + ds)
    {
      var t := [] + (ds + es);
      forall a, b | 0 <= a < b < |t| ensures t[a] != t[b] {
        assert t[a] == (es + ds)[if a < |ds| then a + |es| else a - |ds|];
        assert t[b] == (es + ds)[if b < |ds| then b + |es| else b - |ds|];
      }
    }
  }
}
