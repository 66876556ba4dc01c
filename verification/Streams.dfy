/** The state that TCP and UDP streams have in common (engine/tcp.go:99-107, engine/udp.go:155-163). */
module Streams {
  import opened Bytes
  import opened Props
  import opened Entries
  import opened Rulesets
  import opened Publications

  // matched holds the properties that the ruleset has been shown.
  datatype Stream = Stream(flow: Flow, ruleset: Ruleset, virgin: bool, lists: Lists, last: Verdict,
        matched: seq<CombinedProps>)

  function NewStream(flow: Flow, r: Ruleset): Stream {
    Stream(flow, r, true, Lists(StartAll(r.analyzers(flow)), [], map[]), Accept, [])
  }

  // Nothing is left to do but to repeat the last verdict.
  predicate Settled(s: Stream) {
    s.lists.active == [] && !s.virgin
  }

  // A stream that has been matched and is not settled has been matched against the properties it
  // has now; one that has not been matched is new.
  ghost predicate Current(s: Stream) {
    && (s.virgin <==> s.matched == [])
    && (s.virgin ==> s == NewStream(s.flow, s.ruleset))
    && (!s.virgin && !Settled(s) ==> s.matched[|s.matched| - 1] == s.lists.props)
  }

  // What was last shown under a name is what stands there, published by this analyzer alone.
  ghost predicate ShownUnder(s: Stream, name: string, a: Analyzer) {
    && PublishedBy(s.lists, name, a)
    && (s.matched != [] ==> At(s.matched[|s.matched| - 1], name) == At(s.lists.props, name))
  }

  // So it is for every analyzer that shares its name with no other and publishes nothing in closing.
  ghost predicate AllShown(s: Stream) {
    var plans := s.ruleset.analyzers(s.flow);
    forall i: nat :: Planned(plans, i) && Quiet(plans[i].analyzer) ==> ShownUnder(s, plans[i].name, plans[i].analyzer)
  }

  lemma {:induction false} ShownPublished(s: Stream, name: string, a: Analyzer)
    requires ShownUnder(s, name, a)
    ensures PublishedBy(s.lists, name, a)
  {
  }

  lemma {:induction false} NewShown(flow: Flow, r: Ruleset)
    ensures Current(NewStream(flow, r)) && AllShown(NewStream(flow, r))
  {
    var s, plans := NewStream(flow, r), r.analyzers(flow);
    StartOwned(plans);
    hide StartAll, Owns, Quiet;
    forall i: nat | Planned(plans, i) && Quiet(plans[i].analyzer)
      ensures ShownUnder(s, plans[i].name, plans[i].analyzer)
    {
      assert OwnedBy(s.lists, plans[i]);
    }
  }

  lemma {:induction false} ShownStill(s: Stream, t: Stream, lists: Lists, name: string, a: Analyzer)
    requires ShownUnder(s, name, a) && PublishedBy(lists, name, a) && PublishedBy(CloseLists(lists), name, a)
    requires At(CloseLists(lists).props, name) == At(lists.props, name)
    requires t.lists == lists || t.lists == CloseLists(lists)
    requires t.matched == s.matched + [lists.props] || (t.matched == s.matched && lists.props == s.lists.props)
    ensures ShownUnder(t, name, a)
  {
    hide PublishedBy, CloseLists, At;
  }

  function Shown(s: Stream): Stream {
    s.(virgin := false, matched := s.matched + [s.lists.props])
  }

  function Answered(s: Stream): MatchResult {
    s.ruleset.decide(s.flow, s.matched)
  }

  // All entries are done but no verdict was issued.
  function Drained(s: Stream, ctx: Verdict): (Stream, Verdict) {
    if s.lists.active == [] && ctx == Accept then (s.(last := AcceptStream), AcceptStream) else (s, ctx)
  }
}
