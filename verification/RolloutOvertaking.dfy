/**
 The other side of the version order: the gate compares references as they stand
 (internal/controllers/component/hooks.go line 56), so a component may overtake a dependency built
 from the same source through a different reference.
 */
module RolloutOvertaking {
  import opened Options
  import opened Names
  import opened Api
  import opened ComponentIndex
  import opened Hooks
  import opened Graphs
  import opened Rollout
  import opened RolloutOrder

  /** In the end `k` has applied a version its source has offered after the one `d` has applied. */
  ghost predicate Overtakes(s: State, run: seq<Event>, k: Key, d: Key) {
    && ValidRun(s, run) && AllNew(s, run)
    && var t := After(s, run);
       && k in t.live && d in t.live && t.live[k].Source() == t.live[d].Source()
       && Pos(HistOf(t, k), t.live[k].status.applied) > Pos(HistOf(t, k), t.live[d].status.applied)
  }

  /** A queued component whose only dependency is ready at a version that is no longer the latest of their source. */
  ghost predicate IsDue(s: State, k: Key, d: Key) {
    && k in s.queue && k in s.cached && k in s.live && k !in s.passes && !s.live[k].spec.sticky
    && s.live[k].DependencyKeys() == {d} && d in s.live && d in s.cached && s.cached[d].IsReady()
    && s.live[d].Source() == s.live[k].Source()
    && var h := HistOf(s, k);
       && h != [] && Pos(h, s.live[d].status.applied) < |h| - 1
       && MatchesPins(s.live[k].spec, OfferedVersion(h[|h| - 1]))
  }

  function Pass3(k: Key): seq<Event> {
    [Start(k, None, 0), Gate(k, false), Finish(k, true)]
  }

  lemma OneMore(s: State, e: Event, rest: seq<Event>)
    requires Enabled(s, e) && IsNew(s, e) && ValidRun(Step(s, e), rest) && AllNew(Step(s, e), rest)
    ensures ValidRun(s, [e] + rest) && AllNew(s, [e] + rest) && After(s, [e] + rest) == After(Step(s, e), rest)
  {
    assert ([e] + rest)[1..] == rest;
  }

  /** The three steps of a pass, and what comes after them. */
  ghost predicate PassLeadsTo(s: State, k: Key, t: State) {
    && Enabled(s, Start(k, None, 0)) && var s1 := Step(s, Start(k, None, 0));
    && Enabled(s1, Gate(k, false)) && var s2 := Step(s1, Gate(k, false));
    && Enabled(s2, Finish(k, true)) && Step(s2, Finish(k, true)) == t
  }

  lemma PassAndRest(s: State, k: Key, t: State, rest: seq<Event>)
    requires PassLeadsTo(s, k, t) && ValidRun(t, rest) && AllNew(t, rest)
    ensures ValidRun(s, Pass3(k) + rest) && AllNew(s, Pass3(k) + rest) && After(s, Pass3(k) + rest) == After(t, rest)
  {
    var s1 := Step(s, Start(k, None, 0));
    OneMore(Step(s1, Gate(k, false)), Finish(k, true), rest);
    OneMore(s1, Gate(k, false), [Finish(k, true)] + rest);
    OneMore(s, Start(k, None, 0), [Gate(k, false)] + ([Finish(k, true)] + rest));
    assert Pass3(k) + rest == [Start(k, None, 0)] + ([Gate(k, false)] + ([Finish(k, true)] + rest));
  }

  /** The pass loads the latest version. */
  lemma StartLoadsLatest(s: State, k: Key, d: Key)
    requires KeyOk(s, k) && IsDue(s, k, d)
    ensures Enabled(s, Start(k, None, 0))
    ensures var h, t := HistOf(s, k), Step(s, Start(k, None, 0));
      && k in t.passes && t.passes[k].phase.Loaded? && SameIdentity(t.passes[k].work, s.live[k])
      && Recorded(t.passes[k].work.status) == OfferedVersion(h[|h| - 1])
  {
  }

  /** The gate does not compare versions behind different references. */
  lemma GateLetsThrough(t: State, k: Key, d: Key)
    requires k in t.passes && t.passes[k].phase.Loaded? && t.passes[k].work.DependencyKeys() == {d}
    requires d in t.cached && t.cached[d].IsReady()
    requires t.cached[d].spec.sourceRef != t.passes[k].work.spec.sourceRef
    ensures Enabled(t, Gate(k, false))
    ensures var p := Step(t, Gate(k, false)).passes[k];
      && p.phase.Gated? && Recorded(p.work.status) == p.work.status.attempted == Recorded(t.passes[k].work.status)
      && SameIdentity(p.work, t.passes[k].work)
  {
    var work := WithAttempted(t.passes[k].work, Recorded(t.passes[k].work.status));
    forall i | 0 <= i < |work.spec.dependencies|
      ensures Satisfied(t.cached, work, work.spec.dependencies[i])
    {
      assert work.DependencyKey(work.spec.dependencies[i]) in t.passes[k].work.DependencyKeys();
    }
  }

  lemma FinishApplies(u: State, k: Key, d: Key)
    requires k in u.live && d in u.live && k != d && k in u.passes && u.passes[k].phase.Gated?
    requires u.passes[k].work.status.attempted == Recorded(u.passes[k].work.status)
    ensures Enabled(u, Finish(k, true))
    ensures var v := Step(u, Finish(k, true));
      && v.live.Keys == u.live.Keys && v.live[k].status.applied == Recorded(u.passes[k].work.status)
      && v.live[d] == u.live[d] && v.live[k].Source() == u.live[k].Source() && v.sources == u.sources
  {
  }

  /** `k` has applied the latest version and `d` is as it was. */
  ghost predicate Advanced(s: State, v: State, k: Key, d: Key)
    requires k in s.live && d in s.live && HistOf(s, k) != []
  {
    && k in v.live && d in v.live && v.live[d] == s.live[d] && v.live[k].Source() == s.live[k].Source()
    && v.sources == s.sources && v.live[k].status.applied == OfferedVersion(HistOf(s, k)[|HistOf(s, k)| - 1])
  }

  lemma DuePass(s: State, k: Key, d: Key) returns (v: State)
    requires KeyOk(s, k) && KeyOk(s, d) && IsDue(s, k, d)
    requires s.live[d].spec.sourceRef != s.live[k].spec.sourceRef
    ensures PassLeadsTo(s, k, v) && Advanced(s, v, k, d)
  {
    StartLoadsLatest(s, k, d);
    var t := Step(s, Start(k, None, 0));
    assert t.live == s.live && t.cached == s.cached && t.sources == s.sources;
    assert t.passes[k].work.DependencyKeys() == s.live[k].DependencyKeys();
    GateLetsThrough(t, k, d);
    var u := Step(t, Gate(k, false));
    assert u.live == s.live && u.sources == s.sources;
    FinishApplies(u, k, d);
    v := Step(u, Finish(k, true));
  }

  lemma ThroughIsAhead(s: State, k: Key, d: Key)
    requires KeyOk(s, k) && KeyOk(s, d) && HistoryOk(if k in s.live then HistOf(s, k) else [])
    requires IsDue(s, k, d) && s.live[d].spec.sourceRef != s.live[k].spec.sourceRef
    ensures Overtakes(s, Pass3(k), k, d)
  {
    var v := DuePass(s, k, d);
    CurrentIsLast(HistOf(s, k));
    assert ValidRun(v, []) && AllNew(v, []) && After(v, []) == v;
    PassAndRest(s, k, v, []);
    assert Pass3(k) + [] == Pass3(k);
  }

  /** Names, namespaces and sources of components never change, nor do components go. */
  lemma StepKeepsTracked(s: State, e: Event, k: Key, d: Key)
    requires Enabled(s, e) && Tracked(s.live, k, d) && s.live[k].Key() == k && s.live[d].Key() == d
    ensures var t := Step(s, e); Tracked(t.live, k, d) && t.live[k].Key() == k && t.live[d].Key() == d
  {
  }

  lemma {:induction false} StaysTracked(s: State, run: seq<Event>, k: Key, d: Key)
    requires ValidRun(s, run) && Tracked(s.live, k, d) && s.live[k].Key() == k && s.live[d].Key() == d
    ensures Tracked(After(s, run).live, k, d)
    decreases |run|
  {
    if run != [] {
      StepKeepsTracked(s, run[0], k, d);
      StaysTracked(Step(s, run[0]), run[1..], k, d);
    }
  }

  /**
   A component that is due can overtake its dependency exactly if their references differ: the
   gate holds the order where the references are the same, for every kind of source, and only there.
   */
  lemma OvertakesExactly(s: State, k: Key, d: Key)
    requires Inv(s) && IsDue(s, k, d)
    ensures (exists run :: Overtakes(s, run, k, d)) <==> s.live[d].spec.sourceRef != s.live[k].spec.sourceRef
  {
    assert KeyOk(s, k) && KeyOk(s, d);
    if s.live[d].spec.sourceRef == s.live[k].spec.sourceRef {
      forall run | ValidRun(s, run) && AllNew(s, run)
        ensures !Overtakes(s, run, k, d)
      {
        RunKeepsInv(s, run);
        StaysTracked(s, run, k, d);
        assert PairOk(After(s, run), k, d);
      }
    } else {
      ThroughIsAhead(s, k, d);
    }
  }

  // ---------------------------------------------------------------- such states are reached

  function NewComponent(k: Key, source: SourceRef, dependencies: seq<Key>): Component {
    Component(k.ns, k.name, 1, false, Spec(source, "", "", false, None, None, dependencies),
      Status(0, false, None, NO_VERSION, NO_VERSION, None, 0))
  }

  /** A component and a dependency of one namespace; only the dependency spells out that namespace in its reference. */
  function TwoSpellings(k: Key, d: Key, name: string, first: SourceStatus): State {
    var cs := map[
      k := NewComponent(k, Blueprint(NamespacedName("", name)), [d]),
      d := NewComponent(d, Blueprint(NamespacedName(k.ns, name)), [])];
    State(cs, cs, map[], {k, d}, map[Blueprint(NamespacedName(k.ns, name)) := [first]], {})
  }

  function RolledOut(c: Component, o: SourceStatus): Component {
    c.(status := Status(c.generation, true, Some(o), OfferedVersion(o), OfferedVersion(o), None, 0))
  }

  /** After a pass of the dependency, when that has been observed, and when the blueprint is written again. */
  function PassDone(k: Key, d: Key, name: string, first: SourceStatus): State {
    var s := TwoSpellings(k, d, name, first);
    s.(live := s.live[d := RolledOut(s.live[d], first)], queue := {k})
  }

  function PassSeen(k: Key, d: Key, name: string, first: SourceStatus): State {
    var s := PassDone(k, d, name, first);
    s.(cached := s.live)
  }

  function Rewritten(k: Key, d: Key, name: string, first: SourceStatus, second: SourceStatus): State {
    var source := Blueprint(NamespacedName(k.ns, name));
    PassSeen(k, d, name, first).(sources := map[source := [first, second]], pending := {source})
  }

  lemma DependencyPass(k: Key, d: Key, name: string, first: SourceStatus)
    requires k != d && k.ns == d.ns && d.ns != ""
    ensures PassLeadsTo(TwoSpellings(k, d, name, first), d, PassDone(k, d, name, first))
  {
    var s := TwoSpellings(k, d, name, first);
    assert Hist(s, s.live[d].Source()) == [first];
    var s1 := Step(s, Start(d, None, 0));
    var s2 := Step(s1, Gate(d, false));
    assert s2.passes[d].phase.Gated?;
    var s3, t := Step(s2, Finish(d, true)), PassDone(k, d, name, first);
    assert s3.live == t.live && s3.passes == t.passes && s3.queue == t.queue;
  }

  lemma DependencySeen(k: Key, d: Key, name: string, first: SourceStatus)
    requires k != d && k.ns == d.ns && d.ns != ""
    ensures Enabled(PassDone(k, d, name, first), Observe(d))
    ensures Step(PassDone(k, d, name, first), Observe(d)) == PassSeen(k, d, name, first)
  {
    var s, t := PassDone(k, d, name, first), PassSeen(k, d, name, first);
    assert s.cached[d := s.live[d]] == t.cached;
    assert s.live[d].DependencyKeys() == {} && Dependents(t.cached, d) <= {k};
  }

  lemma IsDueThen(k: Key, d: Key, name: string, first: SourceStatus, second: SourceStatus)
    requires k != d && k.ns == d.ns && d.ns != "" && OfferedVersion(first) != OfferedVersion(second)
    ensures var s := Rewritten(k, d, name, first, second);
      IsDue(s, k, d) && s.live[d].spec.sourceRef != s.live[k].spec.sourceRef
  {
    var s := Rewritten(k, d, name, first, second);
    assert HistOf(s, k) == [first, second];
    assert s.live[k].spec.dependencies[0] == d && s.live[k].DependencyKeys() == {d};
    assert Pos([first, second], OfferedVersion(first)) == 0 by { assert [first, second][..1] == [first]; }
  }

  lemma BlueprintWritten(k: Key, d: Key, name: string, first: SourceStatus, second: SourceStatus)
    requires k != d && second.artifact.digest != "" && second.artifact.revision != ""
    requires OfferedVersion(first) != OfferedVersion(second)
    ensures var s, e := PassSeen(k, d, name, first), Publish(Blueprint(NamespacedName(k.ns, name)), second);
      Enabled(s, e) && IsNew(s, e) && Step(s, e) == Rewritten(k, d, name, first, second)
  {
    var s, e := PassSeen(k, d, name, first), Publish(Blueprint(NamespacedName(k.ns, name)), second);
    assert Hist(s, e.source) == [first] && [first] + [second] == [first, second];
  }

  lemma SpellingsAreInitial(k: Key, d: Key, name: string, first: SourceStatus)
    requires IsObjectName(k) && IsObjectName(d) && k != d
    requires first.artifact.digest != "" && first.artifact.revision != ""
    ensures Initial(TwoSpellings(k, d, name, first))
  {
  }

  /** The dependency is rolled out, and then the blueprint is written. */
  function FirstSteps(k: Key, d: Key, name: string, second: SourceStatus): seq<Event> {
    Pass3(d) + ([Observe(d)] + [Publish(Blueprint(NamespacedName(k.ns, name)), second)])
  }

  /** From components nobody has reconciled a run without failures leads to where the component overtakes. */
  lemma SpellingLetsOvertake(k: Key, d: Key, name: string, first: SourceStatus, second: SourceStatus)
    requires IsObjectName(k) && IsObjectName(d) && k != d && k.ns == d.ns
    requires first.artifact.digest != "" && first.artifact.revision != ""
    requires second.artifact.digest != "" && second.artifact.revision != ""
    requires OfferedVersion(first) != OfferedVersion(second)
    ensures var s, run := TwoSpellings(k, d, name, first), FirstSteps(k, d, name, second);
      Initial(s) && ValidRun(s, run) && AllNew(s, run) && Overtakes(After(s, run), Pass3(k), k, d)
  {
    var s, write := TwoSpellings(k, d, name, first), Publish(Blueprint(NamespacedName(k.ns, name)), second);
    var done, seen, t := PassDone(k, d, name, first), PassSeen(k, d, name, first), Rewritten(k, d, name, first, second);
    assert ValidRun(t, []) && AllNew(t, []) && After(t, []) == t;
    BlueprintWritten(k, d, name, first, second);
    OneMore(seen, write, []);
    DependencySeen(k, d, name, first);
    OneMore(done, Observe(d), [write]);
    DependencyPass(k, d, name, first);
    PassAndRest(s, d, done, [Observe(d)] + [write]);
    SpellingsAreInitial(k, d, name, first);
    InitialInv(s);
    RunKeepsInv(s, FirstSteps(k, d, name, second));
    IsDueThen(k, d, name, first, second);
    assert KeyOk(t, k) && KeyOk(t, d);
    ThroughIsAhead(t, k, d);
  }
}
