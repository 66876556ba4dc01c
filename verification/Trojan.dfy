/** The Trojan detector (analyzer/tcp/trojan.go): counting same-direction runs of bytes. */
module Trojan {
  import opened Bytes
  import opened Props

  const CCS_PATTERN: bytes := [20, 3, 3, 0, 1, 1]

  datatype Chunk = Chunk(rev: bool, size: nat)
  datatype Packet = Packet(rev: bool, skip: int, data: bytes)

  // ---- Runs ----

  // Puts a chunk in front of runs that are already maximal.
  function Join(c: Chunk, rs: seq<Chunk>): seq<Chunk> {
    if rs != [] && rs[0].rev == c.rev then [Chunk(c.rev, c.size + rs[0].size)] + rs[1..] else [c] + rs
  }

  // The maximal same-direction runs of a sequence of chunks.
  function Runs(cs: seq<Chunk>): seq<Chunk> {
    if cs == [] then [] else Join(cs[0], Runs(cs[1..]))
  }

  // The direction of each byte.
  function Directions(cs: seq<Chunk>): seq<bool> {
    if cs == [] then [] else seq(cs[0].size, _ => cs[0].rev) + Directions(cs[1..])
  }

  // No run is empty and neighbours go different ways.
  ghost predicate Maximal(rs: seq<Chunk>) {
    && (forall i :: 0 <= i < |rs| ==> rs[i].size > 0)
    && (forall i :: 0 < i < |rs| ==> rs[i].rev != rs[i - 1].rev)
  }

  ghost predicate NonEmpty(cs: seq<Chunk>) {
    forall i :: 0 <= i < |cs| ==> cs[i].size > 0
  }

  lemma {:induction false} JoinMaximal(c: Chunk, rs: seq<Chunk>)
    requires c.size > 0 && Maximal(rs)
    ensures Maximal(Join(c, rs))
  {
  }

  lemma {:induction false} RunsMaximal(cs: seq<Chunk>)
    requires NonEmpty(cs)
    ensures Maximal(Runs(cs)) && Directions(Runs(cs)) == Directions(cs)
  {
    if cs != [] {
      var tail := Runs(cs[1..]);
      RunsMaximal(cs[1..]);
      JoinMaximal(cs[0], tail);
      JoinDirections(cs[0], tail);
      JoinDirections(cs[0], cs[1..]);
      assert cs == [cs[0]] + cs[1..] && Runs(cs) == Join(cs[0], tail);
      hide Directions, Maximal, Join, Runs;
    }
  }

  lemma {:induction false} JoinDirections(c: Chunk, rs: seq<Chunk>)
    ensures Directions(Join(c, rs)) == Directions([c] + rs) == seq(c.size, _ => c.rev) + Directions(rs)
  {
    assert ([c] + rs)[1..] == rs;
    if rs != [] && rs[0].rev == c.rev {
      assert Join(c, rs)[1..] == rs[1..];
      assert seq(c.size + rs[0].size, _ => c.rev) == seq(c.size, _ => c.rev) + seq(rs[0].size, _ => rs[0].rev);
    }
  }

  lemma {:induction false} FirstRunEnds(rs: seq<Chunk>)
    requires Maximal(rs) && rs != []
    ensures var d := Directions(rs);
            |d| >= rs[0].size && (forall i :: 0 <= i < rs[0].size ==> d[i] == rs[0].rev)
            && (|d| > rs[0].size ==> d[rs[0].size] != rs[0].rev)
            && d[rs[0].size..] == Directions(rs[1..])
  {
    if |rs| > 1 {
      assert rs[1..][0] == rs[1];
    }
  }

  function Smaller(a: nat, b: nat): nat { if a < b then a else b }

  // Maximal runs are determined by the directions of the bytes alone.
  lemma {:induction false} MaximalUnique(r: seq<Chunk>, s: seq<Chunk>)
    requires Maximal(r) && Maximal(s) && Directions(r) == Directions(s)
    ensures r == s
  {
    if r != [] { FirstRunEnds(r); }
    if s != [] { FirstRunEnds(s); }
    if r != [] && s != [] {
      var d := Directions(r);
      var m := Smaller(r[0].size, s[0].size);
      assert d[0] == r[0].rev == s[0].rev;
      assert |d| > m ==> (d[m] == d[0] <==> m < r[0].size) && (d[m] == d[0] <==> m < s[0].size);
      assert r[0].size == s[0].size;
      MaximalUnique(r[1..], s[1..]);
      assert r == [r[0]] + r[1..] && s == [s[0]] + s[1..];
    }
  }

  // THE CUT DOES NOT MATTER. Two ways of cutting the same bytes have the same runs.
  lemma {:induction false} SameBytesSameRuns(a: seq<Chunk>, b: seq<Chunk>)
    requires NonEmpty(a) && NonEmpty(b) && Directions(a) == Directions(b)
    ensures Runs(a) == Runs(b)
  {
    RunsMaximal(a);
    RunsMaximal(b);
    MaximalUnique(Runs(a), Runs(b));
  }

  // The last run grows with a chunk of its direction, another direction opens a new one.
  function Extend(rs: seq<Chunk>, c: Chunk): seq<Chunk> {
    var n := |rs|;
    if n > 0 && rs[n - 1].rev == c.rev then rs[..n - 1] + [Chunk(c.rev, rs[n - 1].size + c.size)] else rs + [c]
  }

  lemma {:induction false} JoinExtend(c: Chunk, rs: seq<Chunk>, e: Chunk)
    ensures Join(c, Extend(rs, e)) == Extend(Join(c, rs), e)
  {
    if |rs| > 1 && rs[|rs| - 1].rev == e.rev {
      assert Extend(rs, e)[0] == rs[0] && Extend(rs, e)[1..] == Extend(rs[1..], e);
    }
  }

  lemma {:induction false} RunsSnoc(cs: seq<Chunk>, e: Chunk)
    ensures Runs(cs + [e]) == Extend(Runs(cs), e)
  {
    if cs == [] {
      assert cs + [e] == [e];
    } else {
      assert (cs + [e])[1..] == cs[1..] + [e];
      RunsSnoc(cs[1..], e);
      JoinExtend(cs[0], Runs(cs[1..]), e);
    }
  }

  // Closed runs stay as they are.
  lemma {:induction false} RunsGrow(a: seq<Chunk>, b: seq<Chunk>)
    ensures |Runs(a)| <= |Runs(a + b)|
    ensures forall k :: 0 <= k < |Runs(a)| - 1 ==> Runs(a + b)[k] == Runs(a)[k]
  {
    if b == [] {
      assert a + b == a;
    } else {
      var n := |b| - 1;
      RunsGrow(a, b[..n]);
      assert a + b == (a + b[..n]) + [b[n]];
      RunsSnoc(a + b[..n], b[n]);
    }
  }

  // ---- What is counted ----

  predicate Opens(p: Packet) {
    !p.rev && |p.data| >= 6 && p.data[..6] == CCS_PATTERN
  }

  function Sizes(ps: seq<Packet>): (r: seq<Chunk>)
    ensures NonEmpty(r)
  {
    if ps == [] then []
    else (if ps[0].data == [] then [] else [Chunk(ps[0].rev, |ps[0].data|)]) + Sizes(ps[1..])
  }

  // Everything from the client's Change Cipher Spec on.
  function Counted(ps: seq<Packet>): (r: seq<Chunk>)
    ensures NonEmpty(r)
  {
    if ps == [] then [] else if Opens(ps[0]) then Sizes(ps) else Counted(ps[1..])
  }

  lemma {:induction false} SizesJoin(a: seq<Packet>, b: seq<Packet>)
    ensures Sizes(a + b) == Sizes(a) + Sizes(b)
  {
    if a == [] {
      assert a + b == b;
    } else {
      assert (a + b)[1..] == a[1..] + b;
      SizesJoin(a[1..], b);
    }
  }

  lemma {:induction false} CountedJoin(a: seq<Packet>, b: seq<Packet>)
    ensures Counted(a + b) == if Counted(a) == [] then Counted(b) else Counted(a) + Sizes(b)
  {
    if a == [] {
      assert a + b == b;
    } else {
      assert (a + b)[1..] == a[1..] + b;
      if Opens(a[0]) {
        SizesJoin(a, b);
      } else {
        CountedJoin(a[1..], b);
      }
    }
  }

  lemma {:induction false} CountedSnoc(ps: seq<Packet>, p: Packet)
    ensures p.data == [] ==> Counted(ps + [p]) == Counted(ps)
    ensures Counted(ps) == [] && !Opens(p) ==> Counted(ps + [p]) == []
    ensures p.data != [] && (Counted(ps) != [] || Opens(p)) ==>
              Counted(ps + [p]) == Counted(ps) + [Chunk(p.rev, |p.data|)]
  {
    CountedJoin(ps, [p]);
    assert [p][1..] == [];
    assert Counted([]) == [] && Sizes([]) == [];
  }

  function BeforeGap(ps: seq<Packet>): seq<Packet> {
    if ps == [] || ps[0].skip != 0 then [] else [ps[0]] + BeforeGap(ps[1..])
  }

  lemma {:induction false} BeforeGapStops(ps: seq<Packet>, k: nat)
    requires k <= |ps| && forall i :: 0 <= i < k ==> ps[i].skip == 0
    ensures k == |ps| || ps[k].skip != 0 ==> BeforeGap(ps) == ps[..k]
    ensures k <= |BeforeGap(ps)| && BeforeGap(ps)[..k] == ps[..k]
  {
    if k > 0 {
      BeforeGapStops(ps[1..], k - 1);
      assert ps[..k] == [ps[0]] + ps[1..][..k - 1];
    }
  }

  function FirstFour(r: seq<Chunk>): seq<nat>
    requires |r| >= 4
  {
    [r[0].size, r[1].size, r[2].size, r[3].size]
  }

  // What the detector says of a stream: nothing before the fifth run is opened, the sizes of
  // the first four when it is.
  function Detected(ps: seq<Packet>): Option<seq<nat>> {
    var r := Runs(Counted(BeforeGap(ps)));
    if |r| >= 5 then Some(FirstFour(r)) else None
  }

  lemma {:induction false} DetectedPositive(ps: seq<Packet>)
    requires Detected(ps).Some?
    ensures var f := Detected(ps).value; |f| == 4 && forall k :: 0 <= k < 4 ==> f[k] > 0
  {
    RunsMaximal(Counted(BeforeGap(ps)));
  }

  // Later packets do not change what was detected.
  lemma {:induction false} DetectedEarly(ps: seq<Packet>, k: nat)
    requires k <= |ps| && forall i :: 0 <= i < k ==> ps[i].skip == 0
    requires |Runs(Counted(ps[..k]))| >= 5
    ensures Detected(ps) == Some(FirstFour(Runs(Counted(ps[..k]))))
  {
    BeforeGapStops(ps, k);
    var b := BeforeGap(ps);
    assert b == ps[..k] + b[k..];
    CountedJoin(ps[..k], b[k..]);
    RunsGrow(Counted(ps[..k]), Sizes(b[k..]));
  }

  lemma {:induction false} DirectionsJoin(a: seq<Chunk>, b: seq<Chunk>)
    ensures Directions(a + b) == Directions(a) + Directions(b)
  {
    if a == [] {
      assert a + b == b;
    } else {
      assert (a + b)[1..] == a[1..] + b;
      DirectionsJoin(a[1..], b);
    }
  }

  lemma {:induction false} BeforeGapAll(ps: seq<Packet>)
    requires forall i :: 0 <= i < |ps| ==> ps[i].skip == 0
    ensures BeforeGap(ps) == ps
  {
    BeforeGapStops(ps, |ps|);
    assert ps[..|ps|] == ps;
  }

  lemma {:induction false} SizesDirections(ps: seq<Packet>, x: bytes, y: bytes, rev: bool)
    ensures Directions(Sizes([Packet(rev, 0, x), Packet(rev, 0, y)])) == Directions(Sizes([Packet(rev, 0, x + y)]))
  {
    var xs, ys := [Packet(rev, 0, x)], [Packet(rev, 0, y)];
    SizesJoin(xs, ys);
    assert xs + ys == [Packet(rev, 0, x), Packet(rev, 0, y)];
    DirectionsJoin(Sizes(xs), Sizes(ys));
    OneSize(rev, x);
    OneSize(rev, y);
    OneSize(rev, x + y);
    assert seq(|x|, _ => rev) + seq(|y|, _ => rev) == seq(|x + y|, _ => rev);
  }

  lemma {:induction false} OneSize(rev: bool, x: bytes)
    ensures Directions(Sizes([Packet(rev, 0, x)])) == seq(|x|, _ => rev)
  {
    var p := [Packet(rev, 0, x)];
    assert p[1..] == [] && Sizes([]) == [];
    if x != [] {
      assert Sizes(p) == [Chunk(rev, |x|)];
      assert Sizes(p)[1..] == [];
    }
  }

  // Once counting has begun, cutting a chunk in two changes nothing.
  lemma {:induction false} Resplit(a: seq<Packet>, rev: bool, x: bytes, y: bytes, b: seq<Packet>)
    requires Counted(a) != []
    requires forall i :: 0 <= i < |a| ==> a[i].skip == 0
    requires forall i :: 0 <= i < |b| ==> b[i].skip == 0
    ensures Detected(a + [Packet(rev, 0, x), Packet(rev, 0, y)] + b) == Detected(a + [Packet(rev, 0, x + y)] + b)
  {
    var two, one := [Packet(rev, 0, x), Packet(rev, 0, y)], [Packet(rev, 0, x + y)];
    BeforeGapAll(a + two + b);
    BeforeGapAll(a + one + b);
    CountedSplit(a, two, b);
    CountedSplit(a, one, b);
    SizesDirections(a, x, y, rev);
    SameBytesSameRuns(Counted(a + two + b), Counted(a + one + b));
  }

  lemma {:induction false} CountedSplit(a: seq<Packet>, m: seq<Packet>, b: seq<Packet>)
    requires Counted(a) != []
    ensures Directions(Counted(a + m + b)) == Directions(Counted(a)) + Directions(Sizes(m)) + Directions(Sizes(b))
  {
    CountedJoin(a, m);
    CountedJoin(a + m, b);
    DirectionsJoin(Counted(a) + Sizes(m), Sizes(b));
    DirectionsJoin(Counted(a), Sizes(m));
  }

  // ---- Byte by byte ----

  // Which way each byte went; true is from the server.
  function Ways(ps: seq<Packet>): seq<bool> {
    if ps == [] then [] else seq(|ps[0].data|, _ => ps[0].rev) + Ways(ps[1..])
  }

  // The client's first packet that begins with a Change Cipher Spec record, without a gap before.
  predicate OpensAt(ps: seq<Packet>, k: nat) {
    && k < |ps| && (forall j :: 0 <= j <= k ==> ps[j].skip == 0)
    && StartsCcs(ps[k]) && forall j :: 0 <= j < k ==> !StartsCcs(ps[j])
  }

  predicate StartsCcs(p: Packet) { !p.rev && [20, 3, 3, 0, 1, 1] <= p.data }

  // Runs of these lengths, in turn one way and the other, and at least one byte more in turn.
  predicate Turns(w: seq<bool>, lengths: seq<nat>, way: bool) {
    if lengths == [] then w != [] && w[0] == way
    else
      var n := lengths[0];
      && 0 < n <= |w| && (forall i :: 0 <= i < n ==> w[i] == way)
      && Turns(w[n..], lengths[1..], !way)
  }

  lemma {:induction false} SizesWays(ps: seq<Packet>)
    ensures Directions(Sizes(ps)) == Ways(ps)
  {
    if ps != [] {
      var p := ps[0];
      SizesWays(ps[1..]);
      SizesJoin([p], ps[1..]);
      assert ps == [p] + ps[1..];
      DirectionsJoin(Sizes([p]), Sizes(ps[1..]));
      assert Sizes([p]) == if p.data == [] then [] else [Chunk(p.rev, |p.data|)] by {
        assert [p][1..] == [] && Sizes([]) == [];
      }
      OneDirection(Chunk(p.rev, |p.data|));
    }
  }

  lemma {:induction false} OneDirection(c: Chunk)
    ensures Directions([c]) == seq(c.size, _ => c.rev)
  {
    assert [c][1..] == [] && Directions([]) == [];
  }

  lemma {:induction false} EmptyRuns(rs: seq<Chunk>)
    requires Maximal(rs)
    ensures Directions(rs) == [] <==> rs == []
  {
    if rs != [] {
      FirstRunEnds(rs);
    }
  }

  // The lengths of the first runs.
  lemma {:induction false} TurnsMean(rs: seq<Chunk>, lengths: seq<nat>, way: bool)
    requires Maximal(rs)
    ensures Turns(Directions(rs), lengths, way) <==>
              |rs| > |lengths| && rs[0].rev == way && forall i :: 0 <= i < |lengths| ==> rs[i].size == lengths[i]
  {
    EmptyRuns(rs);
    if rs != [] {
      FirstRunEnds(rs);
      if lengths != [] {
        TurnsMean(rs[1..], lengths[1..], !way);
        TurnsStep(rs, lengths, way);
      }
    }
  }

  lemma {:induction false} TurnsStep(rs: seq<Chunk>, lengths: seq<nat>, way: bool)
    requires Maximal(rs) && rs != [] && lengths != []
    requires Turns(Directions(rs[1..]), lengths[1..], !way) <==>
               && |rs| > |lengths| && rs[1].rev == !way
               && forall i :: 0 <= i < |lengths| - 1 ==> rs[1..][i].size == lengths[1..][i]
    ensures Turns(Directions(rs), lengths, way) <==>
              |rs| > |lengths| && rs[0].rev == way && forall i :: 0 <= i < |lengths| ==> rs[i].size == lengths[i]
  {
    var w, n := Directions(rs), lengths[0];
    FirstRunEnds(rs);
    hide Directions;
    if Turns(w, lengths, way) {
      assert w[0] == way;
      assert w[n..] != [] && w[n..][0] == !way by {
        TurnsFirst(w[n..], lengths[1..], !way);
      }
      assert n == rs[0].size;
      forall i | 0 <= i < |lengths| ensures rs[i].size == lengths[i] {
        assert i > 0 ==> rs[1..][i - 1] == rs[i] && lengths[1..][i - 1] == lengths[i];
      }
    }
    if |rs| > |lengths| && rs[0].rev == way && forall i :: 0 <= i < |lengths| ==> rs[i].size == lengths[i] {
      assert w[n..] == Directions(rs[1..]);
    }
  }

  lemma {:induction false} TurnsFirst(w: seq<bool>, lengths: seq<nat>, way: bool)
    requires Turns(w, lengths, way)
    ensures w != [] && w[0] == way
  {
  }

  lemma {:induction false} CountedFrom(ps: seq<Packet>, k: nat)
    requires OpensAt(ps, k)
    ensures Counted(ps) == Sizes(ps[k..])
  {
    if k > 0 {
      CountedFrom(ps[1..], k - 1);
      assert !Opens(ps[0]) by {
        assert !StartsCcs(ps[0]);
      }
      assert ps[1..][k - 1..] == ps[k..];
    }
  }

  lemma {:induction false} NeverCounted(ps: seq<Packet>)
    requires forall j :: 0 <= j < |ps| ==> !StartsCcs(ps[j])
    ensures Counted(ps) == []
  {
    if ps != [] {
      assert !StartsCcs(ps[0]);
      NeverCounted(ps[1..]);
    }
  }

  // The packets that come before a gap.
  predicate UpToGap(ps: seq<Packet>, n: nat) {
    n <= |ps| && (forall j :: 0 <= j < n ==> ps[j].skip == 0) && (n == |ps| || ps[n].skip != 0)
  }

  // WHAT IS DETECTED, byte by byte: from the client's Change Cipher Spec on and up to the first
  // gap, a bytes of the client's, b of the server's, c of the client's and d of the server's, all
  // of them at least one, and then one of the client's.
  lemma {:induction false} DetectedMeans(ps: seq<Packet>, k: nat, n: nat, a: nat, b: nat, c: nat, d: nat)
    requires UpToGap(ps, n) && OpensAt(ps, k) && k < n
    ensures Detected(ps) == Some([a, b, c, d]) <==> Turns(Ways(ps[k..n]), [a, b, c, d], false)
  {
    BeforeGapStops(ps, n);
    assert ps[..n][k..] == ps[k..n];
    CountedFrom(ps[..n], k);
    var cs := Sizes(ps[k..n]);
    RunsMaximal(cs);
    SizesWays(ps[k..n]);
    TurnsMean(Runs(cs), [a, b, c, d], false);
    FirstWay(ps[k..n]);
    if Runs(cs) != [] {
      FirstRunEnds(Runs(cs));
    }
    hide Runs, Turns, Ways, Directions, Sizes, Counted;
  }

  lemma {:induction false} FirstWay(ps: seq<Packet>)
    requires ps != [] && StartsCcs(ps[0])
    ensures Ways(ps) != [] && Ways(ps)[0] == false
  {
  }

  // Without it nothing is detected.
  lemma {:induction false} NothingDetected(ps: seq<Packet>, n: nat)
    requires UpToGap(ps, n) && forall j :: 0 <= j < n ==> !StartsCcs(ps[j])
    ensures Detected(ps) == None
  {
    BeforeGapStops(ps, n);
    NeverCounted(ps[..n]);
  }

  // ---- The detector ----

  // What the fields say about the chunks counted.
  ghost predicate Tallied(cs: seq<Chunk>, count: bool, rev: bool, index: nat, lengths: seq<nat>) {
    var r := Runs(cs);
    && |lengths| == 4 && index < 4 && (count <==> cs != [])
    && (if count then |r| == index + 1 && rev == r[index].rev else !rev && index == 0)
    && forall k :: 0 <= k < 4 ==> lengths[k] == if k < |r| then r[k].size else 0
  }

  lemma {:induction false} TallySame(cs: seq<Chunk>, count: bool, rev: bool, index: nat, lengths: seq<nat>, n: nat)
    requires Tallied(cs, count, rev, index, lengths)
    ensures Tallied(cs + [Chunk(rev, n)], true, rev, index, lengths[index := lengths[index] + n])
  {
    RunsSnoc(cs, Chunk(rev, n));
  }

  lemma {:induction false} TallyOther(cs: seq<Chunk>, rev: bool, index: nat, lengths: seq<nat>, n: nat)
    requires Tallied(cs, true, rev, index, lengths)
    ensures index < 3 ==> Tallied(cs + [Chunk(!rev, n)], true, !rev, index + 1,
              lengths[index + 1 := lengths[index + 1] + n])
    ensures index == 3 ==> var r := Runs(cs + [Chunk(!rev, n)]); |r| == 5 && FirstFour(r) == lengths
  {
    RunsSnoc(cs, Chunk(!rev, n));
  }

  class TrojanStream {
    const isTrojan: seq<nat> -> bool
    // Nothing in the program ever sets this flag.
    var first: bool
    var count: bool
    var rev: bool
    const lengths: array<nat>
    var seqIndex: nat
    // Every packet fed so far.
    ghost var fed: seq<Packet>

    ghost predicate Valid()
      reads `count, `rev, `seqIndex, `fed, lengths
    {
      Tallied(Counted(fed), count, rev, seqIndex, lengths[..])
    }

    constructor (isTrojan: seq<nat> -> bool)
      ensures Valid() && fresh(lengths) && fed == [] && !first && this.isTrojan == isTrojan
    {
      this.isTrojan := isTrojan;
      first, count, rev := false, false, false;
      lengths := new nat[4](_ => 0);
      seqIndex := 0;
      fed := [];
    }

    // Adds n bytes to the current run, or opens the next one; full when that would be the fifth.
    method Tally(rev: bool, n: nat, ghost before: seq<Chunk>) returns (full: bool)
      requires Tallied(before, before != [], this.rev, seqIndex, lengths[..])
      requires before == [] ==> rev == this.rev
      modifies this`rev, this`seqIndex, lengths
      ensures !full ==> Tallied(before + [Chunk(rev, n)], true, this.rev, seqIndex, lengths[..])
      ensures full ==> seqIndex == 4 && var r := Runs(before + [Chunk(rev, n)]); |r| == 5 && lengths[..] == FirstFour(r)
    {
      ghost var was := lengths[..];
      if rev == this.rev {
        TallySame(before, before != [], rev, seqIndex, was, n);
        lengths[seqIndex] := lengths[seqIndex] + n;
        assert lengths[..] == was[seqIndex := was[seqIndex] + n];
      } else {
        TallyOther(before, this.rev, seqIndex, was, n);
        seqIndex := seqIndex + 1;
        if seqIndex == 4 {
          return true;
        }
        lengths[seqIndex] := lengths[seqIndex] + n;
        this.rev := rev;
        assert lengths[..] == was[seqIndex := was[seqIndex] + n];
      }
      return false;
    }

    method Feed(rev: bool, skip: int, data: bytes) returns (u: Option<PropUpdate>, done: bool)
      requires Valid()
      modifies this`first, this`count, this`rev, this`seqIndex, this`fed, lengths
      ensures fed == old(fed) + [Packet(rev, skip, data)]
      ensures !old(first) ==> !first
      ensures !done ==> skip == 0 && u.None? && Valid()
      ensures skip != 0 ==> done && u.None?
      ensures skip == 0 && done && !old(first) ==>
                var r := Runs(Counted(fed)); |r| == 5 && u == Some(Report(isTrojan, FirstFour(r)))
      ensures seqIndex <= 4 && (seqIndex == 4 <==> u.Some?)
    {
      ghost var before := Counted(fed);
      CountedSnoc(fed, Packet(rev, skip, data));
      fed := fed + [Packet(rev, skip, data)];
      if skip != 0 { return None, true; }
      if |data| == 0 { return None, false; }

      if first {
        first := false;
        if !(!rev && |data| >= 3 && 0x16 <= data[0] <= 0x17 && data[1] == 0x03 && data[2] <= 0x09) {
          return None, true;
        }
      }
      if !rev && !count && |data| >= 6 && data[..6] == CCS_PATTERN {
        count := true;
      }
      if count {
        var full := Tally(rev, |data|, before);
        if full {
          u := Some(Report(isTrojan, lengths[..]));
          return u, true;
        }
      }
      return None, false;
    }
  }

  function Report(isTrojan: seq<nat> -> bool, f: seq<nat>): PropUpdate {
    PropUpdate(Replace, map["seq" := Ints(f), "yes" := Flag(isTrojan(f))])
  }

  // THE DETECTOR OVER A WHOLE STREAM, fed as the engine does: never again once it is done.
  method Detect(isTrojan: seq<nat> -> bool, ps: seq<Packet>) returns (u: Option<PropUpdate>)
    ensures Detected(ps).None? ==> u == None
    ensures Detected(ps).Some? ==>
              var f := Detected(ps).value; u == Some(PropUpdate(Replace,
                map["seq" := Ints(f), "yes" := Flag(isTrojan(f))]))
  {
    var s := new TrojanStream(isTrojan);
    u := None;
    var i := 0;
    while i < |ps|
      invariant 0 <= i <= |ps| && u.None?
      invariant s.Valid() && fresh(s) && fresh(s.lengths) && !s.first && s.fed == ps[..i] && s.isTrojan == isTrojan
      invariant forall j :: 0 <= j < i ==> ps[j].skip == 0
    {
      var done;
      u, done := s.Feed(ps[i].rev, ps[i].skip, ps[i].data);
      assert s.fed == ps[..i + 1];
      if done {
        if ps[i].skip == 0 {
          DetectedEarly(ps, i + 1);
        } else {
          BeforeGapStops(ps, i);
        }
        return;
      }
      i := i + 1;
    }
    BeforeGapStops(ps, i);
  }
}
