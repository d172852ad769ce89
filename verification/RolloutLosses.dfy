/**
 Source updates that do get lost, until some timer queues the component: a source that goes back
 to a version while the cache still shows it, and a sticky component that is processing.
 */
module RolloutLosses {
  import opened Options
  import opened Names
  import opened Api
  import opened SourceLoading
  import opened Graphs
  import opened Rollout
  import Order = RolloutOrder
  import W = RolloutWakeups
  import A = RolloutAttention

  ghost predicate Reaches(s: State, run: seq<Event>, t: State) {
    ValidRun(s, run) && After(s, run) == t
  }

  lemma JoinReaches(s: State, run: seq<Event>, t: State, rest: seq<Event>, u: State)
    requires Reaches(s, run, t) && Reaches(t, rest, u)
    ensures Reaches(s, run + rest, u)
  {
    JoinRuns(s, run, rest);
  }

  lemma OneStep(s: State, e: Event)
    requires Enabled(s, e)
    ensures Reaches(s, [e], Step(s, e))
  {
    assert ValidRun(Step(s, e), []) && After(Step(s, e), []) == Step(s, e);
    Prepend(s, e, []);
  }

  // ---------------------------------------------------------------- one component

  /** The component can be rolled out on its own: it has no dependencies and accepts every version. */
  ghost predicate IsPlain(c: Component) {
    IsObjectName(c.Key()) && c.spec.dependencies == [] && c.spec.digest == "" && c.spec.revision == ""
  }

  /** One component and its source, with all events handled. */
  function One(live: Component, cached: Component, queued: bool, h: History): State {
    State(map[live.Key() := live], map[live.Key() := cached], map[],
      if queued then {live.Key()} else {}, map[live.Source() := h], {})
  }

  function Passed(c: Component, since: Option<int>, at: int, loaded: SourceStatus, done: bool): Component {
    var v := OfferedVersion(loaded);
    c.(status := c.status.(processingSince := since, lastObservedAt := at, sourceRef := Some(loaded), attempted := v,
      applied := if done then v else c.status.applied, ready := done, observedGeneration := c.generation))
  }

  function PassEvents(k: Key, since: Option<int>, at: int, done: bool): seq<Event> {
    [Start(k, since, at)] + ([Gate(k, false)] + [Finish(k, done)])
  }

  /** What a pass starting now loads. */
  ghost predicate Loads(c: Component, since: Option<int>, at: int, h: History, loaded: SourceStatus) {
    LoadStep(WithTimes(c, since, at), CurrentOffer(h)) ==
      (c.(status := c.status.(processingSince := since, lastObservedAt := at, sourceRef := Some(loaded))), Some(loaded))
  }

  /** A whole pass of a queued component nothing holds back. */
  lemma PassOnce(c: Component, cached: Component, h: History, since: Option<int>, at: int,
                 loaded: SourceStatus, done: bool)
    requires IsPlain(c) && Loads(c, since, at, h, loaded)
    ensures Reaches(One(c, cached, true, h), PassEvents(c.Key(), since, at, done),
      One(Passed(c, since, at, loaded, done), cached, !done, h))
  {
    var k, s := c.Key(), One(c, cached, true, h);
    assert Hist(s, c.Source()) == h;
    var s1 := Step(s, Start(k, since, at));
    assert s1.passes[k].phase.Loaded?;
    var s2 := Step(s1, Gate(k, false));
    assert s2.passes[k].phase.Gated?;
    var s3 := Step(s2, Finish(k, done));
    assert s3 == One(Passed(c, since, at, loaded, done), cached, !done, h);
    OneStep(s, Start(k, since, at));
    OneStep(s1, Gate(k, false));
    OneStep(s2, Finish(k, done));
    JoinReaches(s1, [Gate(k, false)], s2, [Finish(k, done)], s3);
    JoinReaches(s, [Start(k, since, at)], s1, [Gate(k, false)] + [Finish(k, done)], s3);
  }

  lemma ObserveOnce(c: Component, cached: Component, h: History)
    requires IsPlain(c) && cached.generation == c.generation && cached.Key() == c.Key()
    ensures Reaches(One(c, cached, false, h), [Observe(c.Key())], One(c, c, false, h))
  {
    var s := One(c, cached, false, h);
    assert c.DependencyKeys() == {};
    assert Step(s, Observe(c.Key())) == One(c, c, false, h);
    OneStep(s, Observe(c.Key()));
  }

  /** The handler lets the component sleep. */
  predicate Sleeps(cached: Component, v: Version) {
    if cached.Source().HttpRepository? then cached.status.attempted == v
    else cached.IsReady() && cached.status.attempted == v
  }

  function UpdateEvents(source: SourceRef, o: SourceStatus): seq<Event> {
    [Publish(source, o)] + [Announce(source)]
  }

  lemma UpdateOnce(c: Component, cached: Component, queued: bool, h: History, o: SourceStatus)
    requires cached.Key() == c.Key() && cached.Source() == c.Source()
    requires o.artifact.digest != "" && o.artifact.revision != ""
    ensures Reaches(One(c, cached, queued, h), UpdateEvents(c.Source(), o),
      One(c, cached, queued || !Sleeps(cached, OfferedVersion(o)), h + [o]))
  {
    var s, source := One(c, cached, queued, h), c.Source();
    assert Hist(s, source) == h;
    var t := Step(s, Publish(source, o));
    assert Hist(t, source) == h + [o];
    var u := Step(t, Announce(source));
    assert Woken(t, source) == if Sleeps(cached, OfferedVersion(o)) then {} else {c.Key()};
    assert u == One(c, cached, queued || !Sleeps(cached, OfferedVersion(o)), h + [o]);
    OneStep(s, Publish(source, o));
    OneStep(t, Announce(source));
    JoinReaches(s, [Publish(source, o)], t, [Announce(source)], u);
  }

  // ---------------------------------------------------------------- going back to a version

  lemma NotPinned(c: Component, h: History)
    requires h != []
    ensures Loads(c, None, 0, h, h[|h| - 1])
  {
  }

  /**
   A source goes to another version and back. The second event finds the first version in the
   cache and lets the component sleep, which by then has gone on to the other one: everything is at
   rest with the component ready at a version its source no longer offers. No pass fails, and the
   component need not be sticky.
   */
  lemma GoingBackIsMissed(c: Component, h: History, other: SourceStatus, again: SourceStatus)
    returns (run: seq<Event>, t: State)
    requires IsPlain(c) && h != [] && OfferedVersion(again) == OfferedVersion(h[|h| - 1]) != OfferedVersion(other)
    requires again.artifact.digest != "" && again.artifact.revision != ""
    requires other.artifact.digest != "" && other.artifact.revision != ""
    ensures Reaches(One(c, c, true, h), run, t)
    ensures W.Quiescent(t) && c.Key() in t.live && t.live[c.Key()].IsReady()
    ensures t.live[c.Key()].status.attempted == OfferedVersion(other) != W.CurrentVersion(t, c.Key())
  {
    var k, first := c.Key(), h[|h| - 1];
    var c1 := Passed(c, None, 0, first, true);
    var c2 := Passed(c1, None, 0, other, true);
    var pass, observe := PassEvents(k, None, 0, true), [Observe(k)];
    var there, back := UpdateEvents(c.Source(), other), UpdateEvents(c.Source(), again);
    t := One(c2, c2, false, h + [other] + [again]);
    NotPinned(c, h);
    PassOnce(c, c, h, None, 0, first, true);
    ObserveOnce(c1, c, h);
    UpdateOnce(c1, c1, false, h, other);
    NotPinned(c1, h + [other]);
    PassOnce(c1, c1, h + [other], None, 0, other, true);
    UpdateOnce(c2, c1, false, h + [other], again);
    ObserveOnce(c2, c1, h + [other] + [again]);
    JoinReaches(One(c2, c1, false, h + [other]), back, One(c2, c1, false, h + [other] + [again]), observe, t);
    JoinReaches(One(c1, c1, true, h + [other]), pass, One(c2, c1, false, h + [other]), back + observe, t);
    JoinReaches(One(c1, c1, false, h), there, One(c1, c1, true, h + [other]), pass + (back + observe), t);
    JoinReaches(One(c1, c, false, h), observe, One(c1, c1, false, h), there + (pass + (back + observe)), t);
    JoinReaches(One(c, c, true, h), pass, One(c1, c, false, h), observe + (there + (pass + (back + observe))), t);
    run := pass + (observe + (there + (pass + (back + observe))));
    GoneBack(c2, h, other, again);
  }

  lemma GoneBack(c: Component, h: History, other: SourceStatus, again: SourceStatus)
    requires c.status.attempted == OfferedVersion(other) != OfferedVersion(again)
    ensures var t := One(c, c, false, h + [other] + [again]);
      W.Quiescent(t) && t.live[c.Key()] == c && c.status.attempted != W.CurrentVersion(t, c.Key())
  {
  }

  // ---------------------------------------------------------------- sticky components

  /** A component nobody has reconciled. */
  ghost predicate IsNewcomer(c: Component) {
    IsPlain(c) && IsFresh(c.status)
  }

  /** Processing starts no later than it is observed. */
  ghost predicate SaneClock(run: seq<Event>) {
    forall i | 0 <= i < |run| && run[i].Start? && run[i].since.Some? :: run[i].since.value <= run[i].at
  }

  ghost predicate NoEdits(run: seq<Event>) {
    forall i | 0 <= i < |run| :: !run[i].Edit?
  }

  /** A run from the newcomer in which its source offers only new versions, which ends at rest at an old one. */
  ghost predicate Misses(c: Component, h: History, run: seq<Event>) {
    var s := One(c, c, true, h);
    && ValidRun(s, run) && Order.AllNew(s, run) && SaneClock(run) && NoEdits(run)
    && W.Quiescent(After(s, run)) && c.Key() in After(s, run).live
    && After(s, run).live[c.Key()].status.attempted != W.CurrentVersion(After(s, run), c.Key())
  }

  function StickyEvents(c: Component, o: SourceStatus): seq<Event> {
    var k := c.Key();
    PassEvents(k, Some(0), 0, false) +
    (UpdateEvents(c.Source(), o) + (PassEvents(k, Some(0), 0, true) + [Observe(k)]))
  }

  /** The newcomer fails its first pass, is told of an update, and finishes pinned to what it had loaded. */
  lemma StickyRun(c: Component, h: History, o: SourceStatus) returns (run: seq<Event>, t: State)
    requires IsNewcomer(c) && c.spec.sticky && EffectiveTimeout(c.spec) > 0 && h != []
    requires OfferedVersion(o) != OfferedVersion(h[|h| - 1]) && o.artifact.digest != "" && o.artifact.revision != ""
    ensures Reaches(One(c, c, true, h), run, t)
    ensures t.live.Keys == {c.Key()} && W.Quiescent(t)
    ensures t.live[c.Key()].IsReady()
    ensures t.live[c.Key()].status.attempted == OfferedVersion(h[|h| - 1]) != W.CurrentVersion(t, c.Key())
    ensures run == StickyEvents(c, o)
  {
    var k, first := c.Key(), h[|h| - 1];
    var c1 := Passed(c, Some(0), 0, first, false);
    var c2 := Passed(c1, Some(0), 0, first, true);
    var trying, update := PassEvents(k, Some(0), 0, false), UpdateEvents(c.Source(), o);
    var pinned, observe := PassEvents(k, Some(0), 0, true), [Observe(k)];
    t := One(c2, c2, false, h + [o]);
    PassOnce(c, c, h, Some(0), 0, first, false);
    UpdateOnce(c1, c, true, h, o);
    assert IsPinned(WithTimes(c1, Some(0), 0)) && Loads(c1, Some(0), 0, h + [o], first);
    PassOnce(c1, c, h + [o], Some(0), 0, first, true);
    ObserveOnce(c2, c, h + [o]);
    JoinReaches(One(c1, c, true, h + [o]), pinned, One(c2, c, false, h + [o]), observe, t);
    JoinReaches(One(c1, c, true, h), update, One(c1, c, true, h + [o]), pinned + observe, t);
    JoinReaches(One(c, c, true, h), trying, One(c1, c, true, h), update + (pinned + observe), t);
    run := trying + (update + (pinned + observe));
    RestedBehind(c2, h, o);
  }

  lemma RestedBehind(c: Component, h: History, o: SourceStatus)
    requires c.status.attempted != OfferedVersion(o)
    ensures var t := One(c, c, false, h + [o]);
      W.Quiescent(t) && t.live[c.Key()] == c && c.status.attempted != W.CurrentVersion(t, c.Key())
  {
  }

  /** On a sane clock only a sticky component with a positive timeout is ever pinned. */
  lemma {:induction false} SlackIsNeverStale(s: State, run: seq<Event>, k: Key)
    requires ValidRun(s, run) && SaneClock(run) && NoEdits(run) && k in s.live
    requires !(s.live[k].spec.sticky && EffectiveTimeout(s.live[k].spec) > 0)
    ensures A.NeverStale(s, run, k)
    decreases |run|
  {
    if run != [] {
      assert !run[0].Edit?;
      assert run[0].Start? && run[0].since.Some? ==> run[0].since.value <= run[0].at;
      SlackIsNeverStale(Step(s, run[0]), run[1..], k);
    }
  }

  lemma NewcomerIsUntried(c: Component, h: History)
    requires IsNewcomer(c) && HistoryOk(h)
    ensures W.Untried(One(c, c, true, h)) && Order.HistoriesOk(One(c, c, true, h)) && W.Restarted(One(c, c, true, h))
  {
    W.UntriedIsRestarted(One(c, c, true, h));
  }

  lemma SlackMissesNothing(c: Component, h: History, run: seq<Event>)
    requires IsNewcomer(c) && HistoryOk(h) && Misses(c, h, run)
    ensures c.spec.sticky && EffectiveTimeout(c.spec) > 0
  {
    var s := One(c, c, true, h);
    if !(c.spec.sticky && EffectiveTimeout(c.spec) > 0) {
      NewcomerIsUntried(c, h);
      A.UntriedIsInitial(s);
      SlackIsNeverStale(s, run, c.Key());
      A.NewVersionsAreNoticed(s, run, c.Key());
      W.NoUpdateLost(s, run, c.Key());
      assert false;
    }
  }

  /** A single publication of a new version. */
  lemma {:induction false} OneNewVersion(s: State, before: seq<Event>, e: Event, rest: seq<Event>)
    requires ValidRun(s, before + ([e] + rest)) && Order.IsNew(s, e)
    requires forall i | 0 <= i < |before| :: !before[i].Publish?
    requires forall i | 0 <= i < |rest| :: !rest[i].Publish?
    ensures Order.AllNew(s, before + ([e] + rest))
    decreases |before|
  {
    var run := before + ([e] + rest);
    if before == [] {
      assert run[1..] == rest;
      QuietIsNew(Step(s, e), rest);
    } else {
      assert run[1..] == before[1..] + ([e] + rest) && !before[0].Publish?;
      assert e.Publish? ==> Hist(Step(s, before[0]), e.source) == Hist(s, e.source);
      OneNewVersion(Step(s, before[0]), before[1..], e, rest);
    }
  }

  lemma {:induction false} QuietIsNew(s: State, run: seq<Event>)
    requires ValidRun(s, run) && forall i | 0 <= i < |run| :: !run[i].Publish?
    ensures Order.AllNew(s, run)
    decreases |run|
  {
    if run != [] { QuietIsNew(Step(s, run[0]), run[1..]); }
  }

  lemma NewVersionsIn(c: Component, h: History, o: SourceStatus, run: seq<Event>)
    requires Order.IsNew(One(c, c, true, h), Publish(c.Source(), o))
    requires run == StickyEvents(c, o)
    requires ValidRun(One(c, c, true, h), run)
    ensures Order.AllNew(One(c, c, true, h), run) && SaneClock(run) && NoEdits(run)
  {
    var rest := [Announce(c.Source())] + (PassEvents(c.Key(), Some(0), 0, true) + [Observe(c.Key())]);
    assert run == PassEvents(c.Key(), Some(0), 0, false) + ([Publish(c.Source(), o)] + rest);
    OneNewVersion(One(c, c, true, h), PassEvents(c.Key(), Some(0), 0, false), Publish(c.Source(), o), rest);
  }

  /**
   Of a newcomer, whatever its timeouts, an update with a new version can be missed exactly if the
   component is sticky and its timeout is positive.
   */
  lemma StickyMissesExactly(c: Component, h: History, o: SourceStatus)
    requires IsNewcomer(c) && h != [] && HistoryOk(h)
    requires Enabled(One(c, c, true, h), Publish(c.Source(), o))
    requires Order.IsNew(One(c, c, true, h), Publish(c.Source(), o))
    ensures (exists run :: Misses(c, h, run)) <==> c.spec.sticky && EffectiveTimeout(c.spec) > 0
  {
    if c.spec.sticky && EffectiveTimeout(c.spec) > 0 {
      assert Hist(One(c, c, true, h), c.Source()) == h;
      assert OfferedVersion(o) != OfferedVersion(h[|h| - 1]);
      var run, t := StickyRun(c, h, o);
      NewVersionsIn(c, h, o, run);
      assert Misses(c, h, run);
    }
    if run :| Misses(c, h, run) {
      SlackMissesNothing(c, h, run);
    }
  }
}
