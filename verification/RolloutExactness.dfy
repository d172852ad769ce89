/**
 When a rollout gets everywhere. From components nobody has reconciled, with components created on
 the way, a run at rest is complete exactly if the dependency graph has no cycle, no dependency is
 missing, and dependencies with equal references are offered the same version. The last is not a
 matter of course: references are compared before their namespaces are filled in.
 */
module RolloutExactness {
  import opened Api
  import opened ComponentIndex
  import opened Hooks
  import opened Graphs
  import opened Rollout
  import opened RolloutWakeups
  import Order = RolloutOrder
  import A = RolloutAttention
  import Readiness = RolloutReadiness

  // ---------------------------------------------------------------- ready components agree with their dependencies

  /** The cache shows the dependency at the version, or not ready. */
  ghost predicate Shows(s: State, d: Key, v: Version) {
    d in s.cached && s.cached[d].IsReady() ==> s.cached[d].status.attempted == v
  }

  ghost predicate Linked(s: State, k: Key, d: Key) {
    && k in s.live && d in s.live && d in s.live[k].DependencyKeys()
    && s.live[d].spec.sourceRef == s.live[k].spec.sourceRef
  }

  /** Outside the queue a component that is ready, or may become so, agrees with a dependency of the same reference. */
  ghost predicate Agrees(s: State, k: Key, d: Key) {
    Linked(s, k, d) && k !in s.queue ==>
      && (k !in s.passes && s.live[k].status.ready ==> Shows(s, d, s.live[k].status.attempted))
      && (k in s.passes && s.passes[k].phase.Gated? ==> Shows(s, d, s.passes[k].work.status.attempted))
  }

  /** The gate lets a component through only if it agrees with the dependency. */
  lemma OpenGateShows(s: State, c: Component, k: Key, d: Key)
    requires Linked(s, k, d) && SameIdentity(c, s.live[k]) && Sound(s, d) && GateOpen(s.cached, c)
    ensures Shows(s, d, c.status.attempted)
  {
    var i :| 0 <= i < |c.spec.dependencies| && c.DependencyKey(c.spec.dependencies[i]) == d;
    assert Satisfied(s.cached, c, c.spec.dependencies[i]);
  }

  lemma GateAgrees(s: State, k: Key, broken: bool, d: Key)
    requires Sound(s, k) && Sound(s, d) && Enabled(s, Gate(k, broken))
    ensures Agrees(Step(s, Gate(k, broken)), k, d)
  {
    var p := GatePass(s.passes[k], s.cached, broken);
    if p.phase.Gated? && Linked(s, k, d) {
      OpenGateShows(s, p.work, k, d);
    }
  }

  /** Seeing a dependency become ready queues the component; seeing it otherwise proves nothing. */
  lemma ObserveAgrees(s: State, j: Key, k: Key, d: Key)
    requires Agrees(s, k, d) && Sound(s, k) && Sound(s, d) && Enabled(s, Observe(j))
    ensures Agrees(Step(s, Observe(j)), k, d)
  {
    var t := Step(s, Observe(j));
    if j == d && Linked(t, k, d) && k in t.cached && t.cached[d].IsReady() {
      assert t.cached[k].DependencyKeys() == s.live[k].DependencyKeys();
      assert k in Dependents(t.cached, d);
    }
  }

  lemma StepAgrees(s: State, e: Event, k: Key, d: Key)
    requires Inv(s) && Agrees(s, k, d) && Enabled(s, e)
    ensures Agrees(Step(s, e), k, d)
  {
    assert Awake(s, k) && Awake(s, d);
    match e
    case Observe(j) => ObserveAgrees(s, j, k, d);
    case Gate(j, broken) => if j == k { GateAgrees(s, k, broken, d); }
    case _ =>
  }

  lemma {:induction false} RunAgrees(s: State, run: seq<Event>, k: Key, d: Key)
    requires Inv(s) && Agrees(s, k, d) && ValidRun(s, run)
    ensures Agrees(After(s, run), k, d)
    decreases |run|
  {
    if run != [] {
      StepAgrees(s, run[0], k, d);
      StepKeepsInv(s, run[0]);
      RunAgrees(Step(s, run[0]), run[1..], k, d);
    }
  }

  // ---------------------------------------------------------------- cycles that form on the way

  /** Not there at all, or not let through and not seen to be ready. */
  ghost predicate Idle(s: State, k: Key) {
    && (k in s.live ==> Unfinished(s.live[k]))
    && (k in s.cached ==> k in s.live && Unfinished(s.cached[k]))
    && (k in s.passes ==> k in s.live && SameIdentity(s.passes[k].work, s.live[k]) && !s.passes[k].phase.Gated?)
  }

  lemma IdleStep(s: State, e: Event, k: Key, next: Key)
    requires Enabled(s, e) && Idle(s, k) && Idle(s, next)
    requires k in s.live ==> next in s.live[k].DependencyKeys()
    ensures Idle(Step(s, e), k)
  {
    if e.Gate? && e.key == k {
      ClosedByNext(s.cached, WithAttempted(s.passes[k].work, Recorded(s.passes[k].work.status)), next);
    }
  }

  /** The members of a cycle that exists in the end have never become ready, whenever they were created. */
  lemma {:induction false} CycleStaysIdle(s: State, run: seq<Event>, w: seq<Key>)
    requires ValidRun(s, run) && IsCycle(GraphOf(After(s, run).live), w)
    requires forall i | 0 <= i < |w| :: Idle(s, w[i])
    ensures forall i | 0 <= i < |w| :: Idle(After(s, run), w[i])
    decreases |run|
  {
    if run != [] {
      forall i | 0 <= i < |w|
        ensures Idle(Step(s, run[0]), w[i])
      {
        CycleEdges(GraphOf(After(s, run).live), w, i);
        var j := if i + 1 < |w| then i + 1 else 0;
        assert Idle(s, w[i]) && Idle(s, w[j]);
        if w[i] in s.live { IdentitiesStay(s, run, w[i]); }
        IdleStep(s, run[0], w[i], Next(w, i));
      }
      CycleStaysIdle(Step(s, run[0]), run[1..], w);
    }
  }

  // ---------------------------------------------------------------- the exact condition

  /** No cycle, no missing dependency, and the same offer behind equal references. */
  ghost predicate CanComplete(s: State) {
    Acyclic(GraphOf(s.live)) && DependenciesExist(s.live) && SameOffers(s)
  }

  lemma CycleIsUnready(s: State, run: seq<Event>, w: seq<Key>)
    requires Untried(s) && ValidRun(s, run) && IsCycle(GraphOf(After(s, run).live), w)
    ensures w[0] in After(s, run).live && !After(s, run).live[w[0]].IsReady()
  {
    CycleStaysIdle(s, run, w);
    CycleEdges(GraphOf(After(s, run).live), w, 0);
    assert Idle(After(s, run), w[0]);
  }

  lemma CompleteIsAcyclic(s: State, run: seq<Event>)
    requires Untried(s) && ValidRun(s, run) && AllRolledOut(After(s, run))
    ensures Acyclic(GraphOf(After(s, run).live))
  {
    if w :| IsCycle(GraphOf(After(s, run).live), w) {
      CycleIsUnready(s, run, w);
    }
  }

  lemma CompleteHasDependencies(s: State, run: seq<Event>)
    requires Untried(s) && ValidRun(s, run) && AllRolledOut(After(s, run))
    ensures DependenciesExist(After(s, run).live)
  {
    var t := After(s, run);
    forall k | k in t.live
      ensures t.live[k].DependencyKeys() <= t.live.Keys
    {
      assert RolledOut(t, k);
      Readiness.ReadyMeansApplied(s, run, k);
    }
  }

  lemma RestingPairAgrees(t: State, k: Key, d: Key)
    requires Quiescent(t) && Agrees(t, k, d) && Linked(t, k, d) && RolledOut(t, k) && RolledOut(t, d)
    ensures CurrentVersion(t, d) == CurrentVersion(t, k)
  {
  }

  lemma CompletePair(s: State, run: seq<Event>, k: Key, d: Key)
    requires Untried(s) && ValidRun(s, run) && Quiescent(After(s, run)) && Linked(After(s, run), k, d)
    requires RolledOut(After(s, run), k) && RolledOut(After(s, run), d)
    ensures CurrentVersion(After(s, run), d) == CurrentVersion(After(s, run), k)
  {
    UntriedIsRestarted(s);
    RestartedInv(s);
    UntriedAgrees(s, k, d);
    RunAgrees(s, run, k, d);
    RestingPairAgrees(After(s, run), k, d);
  }

  lemma CompleteHasSameOffers(s: State, run: seq<Event>)
    requires Untried(s) && ValidRun(s, run) && AllRolledOut(After(s, run)) && Quiescent(After(s, run))
    ensures SameOffers(After(s, run))
  {
    var t := After(s, run);
    forall k, d | k in t.live && d in t.live && d in t.live[k].DependencyKeys() &&
      t.live[d].spec.sourceRef == t.live[k].spec.sourceRef
      ensures CurrentVersion(t, d) == CurrentVersion(t, k)
    {
      CompletePair(s, run, k, d);
    }
  }

  lemma UntriedAgrees(s: State, k: Key, d: Key)
    requires Untried(s)
    ensures Agrees(s, k, d)
  {
  }

  /** A rollout at rest that has lost no update is complete exactly under these conditions. */
  lemma RolloutExact(s: State, run: seq<Event>)
    requires Untried(s) && ValidRun(s, run) && Quiescent(After(s, run)) && forall k :: AttentiveRun(s, run, k)
    ensures AllRolledOut(After(s, run)) <==> CanComplete(After(s, run))
  {
    UntriedIsRestarted(s);
    if CanComplete(After(s, run)) {
      RolloutConverges(s, run);
    }
    if AllRolledOut(After(s, run)) {
      CompleteIsAcyclic(s, run);
      CompleteHasDependencies(s, run);
      CompleteHasSameOffers(s, run);
    }
  }

  /** In particular for sources that never go back to a version. */
  lemma RolloutExactForNewVersions(s: State, run: seq<Event>)
    requires Untried(s) && Order.HistoriesOk(s) && ValidRun(s, run) && Order.AllNew(s, run)
    requires Quiescent(After(s, run)) && forall k :: A.NeverStale(s, run, k)
    ensures AllRolledOut(After(s, run)) <==> CanComplete(After(s, run))
  {
    A.UntriedIsInitial(s);
    forall k
      ensures AttentiveRun(s, run, k)
    {
      assert A.NeverStale(s, run, k);
      A.NewVersionsAreNoticed(s, run, k);
    }
    RolloutExact(s, run);
  }

  /** And for fixed sources, whoever is sticky and whatever the sources have offered before. */
  lemma RolloutExactForFixedSources(s: State, run: seq<Event>)
    requires Untried(s) && ValidRun(s, run) && Quiescent(After(s, run))
    requires forall i | 0 <= i < |run| :: !run[i].Publish?
    ensures AllRolledOut(After(s, run)) <==> CanComplete(After(s, run))
  {
    A.UntriedIsUpToDate(s);
    RestartedInv(s);
    forall k
      ensures AttentiveRun(s, run, k)
    {
      A.FixedSourcesLoseNothing(s, run, k);
    }
    RolloutExact(s, run);
  }
}
