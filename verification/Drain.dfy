/**
 Deleting interdependent components: the deletion gate (internal/controllers/component/hooks.go
 lines 75-89) together with the wake-ups of the Delete event
 (internal/controllers/component/handlers.go lines 64-72), as a transition system over the
 stored components, the lagging cache, the work queue and passes that are not atomic.
 */
module Drain {
  import opened Api
  import opened ComponentIndex
  import opened Graphs

  /** Taken: before the gate. Refused: held back by a dependent. Cleared: allowed to go. */
  datatype Phase = Taken | Refused | Cleared

  /** `live` is the API server, `cached` what the informer has seen, `visits` the running passes. */
  datatype State = State(live: Components, cached: Components, queue: set<Key>, visits: map<Key, Phase>)

  datatype Event =
    | Take(key: Key)                      // a worker takes a key from the queue
    | Gate(key: Key)                      // PreDelete reads the cache
    | Finish(key: Key, finished: bool)    // the pass ends; finished: the managed resources are gone
    | Observe(key: Key)                   // the informer sees a removal and delivers the Delete event
    | Requeue(key: Key)                   // any timer of the runtime

  /** The deletion gate is closed: the cache shows a dependent. */
  ghost predicate Blocked(s: State, k: Key) {
    Dependents(s.cached, k) != {}
  }

  ghost function DependentOf(s: State, k: Key): (d: Key)
    requires Blocked(s, k)
    ensures d in s.cached && k in s.cached[d].DependencyKeys()
  {
    var d :| d in Dependents(s.cached, k); d
  }

  ghost predicate Enabled(s: State, e: Event) {
    match e
    case Take(k) => k in s.queue && k !in s.visits
    case Gate(k) => k in s.visits && s.visits[k].Taken?
    case Finish(k, _) => k in s.visits && !s.visits[k].Taken?
    case Observe(k) => k in s.cached && k !in s.live
    case Requeue(k) => true
  }

  /** A pass that is refused is not queued again, one that finds resources still being deleted is. */
  ghost function Step(s: State, e: Event): State
    requires Enabled(s, e)
  {
    match e
    case Take(k) => s.(queue := s.queue - {k}, visits := s.visits[k := Taken])
    case Gate(k) => s.(visits := s.visits[k := if k !in s.live || Blocked(s, k) then Refused else Cleared])
    case Finish(k, finished) =>
      var t := s.(visits := s.visits - {k});
      if s.visits[k].Refused? then t
      else if finished then t.(live := s.live - {k})
      else t.(queue := s.queue + {k})
    case Observe(k) => s.(cached := s.cached - {k}, queue := s.queue + s.cached[k].DependencyKeys())
    case Requeue(k) => s.(queue := s.queue + {k})
  }

  ghost predicate ValidRun(s: State, run: seq<Event>)
    decreases |run|
  {
    run == [] || (Enabled(s, run[0]) && ValidRun(Step(s, run[0]), run[1..]))
  }

  ghost function After(s: State, run: seq<Event>): State
    requires ValidRun(s, run)
    decreases |run|
  {
    if run == [] then s else After(Step(s, run[0]), run[1..])
  }

  /** Everything has been marked for deletion, which queued it; the cache has caught up. */
  ghost predicate Start(s: State) {
    && WellKeyed(s.live) && s.cached == s.live && s.live.Keys <= s.queue && s.visits == map[]
    && forall k | k in s.live :: s.live[k].deleting
  }

  /** Nothing is queued or running and no removal is waiting to be observed. */
  ghost predicate Quiescent(s: State) {
    s.queue == {} && s.visits == map[] && s.cached.Keys == s.live.Keys
  }

  // ---------------------------------------------------------------- no lost wake-ups

  /** Somebody is going to look at the component: it is queued, or in a pass that has not been refused. */
  ghost predicate Attended(s: State, k: Key) {
    k in s.queue || (k in s.visits && !s.visits[k].Refused?)
  }

  /** The store only shrinks, and a component nobody looks at is held back by a dependent the cache still shows. */
  ghost predicate Inv(first: Components, s: State) {
    && s.live.Keys <= s.cached.Keys && s.cached.Keys <= first.Keys
    && (forall k | k in s.cached :: s.cached[k] == first[k])
    && (forall k | k in s.live :: s.live[k] == first[k])
    && (forall k {:trigger Blocked(s, k)} | k in s.live :: Attended(s, k) || Blocked(s, k))
  }

  lemma StepKeepsInv(first: Components, s: State, e: Event)
    requires Inv(first, s) && Enabled(s, e)
    ensures Inv(first, Step(s, e))
  {
    var t := Step(s, e);
    forall k | k in t.live
      ensures Attended(t, k) || Blocked(t, k)
    {
      if !Attended(s, k) {
        assert Blocked(s, k);
        var d := DependentOf(s, k);
        if e.Observe? && e.key == d {
          assert k in t.queue;
        } else {
          assert d in Dependents(t.cached, k);
        }
      }
    }
  }

  lemma {:induction false} RunKeepsInv(first: Components, s: State, run: seq<Event>)
    requires Inv(first, s) && ValidRun(s, run)
    ensures Inv(first, After(s, run))
    decreases |run|
  {
    if run != [] {
      StepKeepsInv(first, s, run[0]);
      RunKeepsInv(first, Step(s, run[0]), run[1..]);
    }
  }

  // ---------------------------------------------------------------- cycles stay

  /** The member depends on the next one and has not got past the gate. */
  ghost predicate Held(s: State, k: Key, next: Key) {
    && k in s.live && k in s.cached && s.cached[k] == s.live[k] && next in s.live[k].DependencyKeys()
    && (k in s.visits ==> !s.visits[k].Cleared?)
  }

  ghost predicate AllHeld(s: State, w: seq<Key>) {
    |w| > 0 && forall i | 0 <= i < |w| :: Held(s, w[i], Next(w, i))
  }

  lemma HeldStep(s: State, e: Event, last: Key, k: Key, next: Key)
    requires Enabled(s, e) && Held(s, last, k) && Held(s, k, next)
    ensures Held(Step(s, e), k, next) && Step(s, e).live[k] == s.live[k]
  {
    assert last in Dependents(s.cached, k);
  }

  /** No member of a cycle is ever removed. */
  lemma {:induction false} CycleStays(s: State, run: seq<Event>, w: seq<Key>)
    requires ValidRun(s, run) && AllHeld(s, w)
    ensures AllHeld(After(s, run), w)
    ensures forall i | 0 <= i < |w| :: w[i] in s.live && w[i] in After(s, run).live
    ensures forall i | 0 <= i < |w| :: After(s, run).live[w[i]] == s.live[w[i]]
    decreases |run|
  {
    if run != [] {
      var t := Step(s, run[0]);
      forall i | 0 <= i < |w|
        ensures Held(t, w[i], Next(w, i)) && t.live[w[i]] == s.live[w[i]]
      {
        var p := if i > 0 then i - 1 else |w| - 1;
        assert Held(s, w[p], Next(w, p)) && Held(s, w[i], Next(w, i));
        HeldStep(s, run[0], w[p], w[i], Next(w, i));
      }
      CycleStays(t, run[1..], w);
    } else {
      forall i | 0 <= i < |w|
        ensures w[i] in s.live
      {
        assert Held(s, w[i], Next(w, i));
      }
    }
  }

  lemma CycleIsHeld(s: State, w: seq<Key>)
    requires s.cached == s.live && s.visits == map[] && IsCycle(GraphOf(s.live), w)
    ensures AllHeld(s, w)
  {
    forall i | 0 <= i < |w|
      ensures Held(s, w[i], Next(w, i))
    {
      CycleEdges(GraphOf(s.live), w, i);
    }
  }

  // ---------------------------------------------------------------- the drain

  lemma DependentRemains(first: Components, t: State, k: Key)
    requires Inv(first, t) && Quiescent(t) && k in t.live
    ensures HasPredecessorIn(GraphOf(first), t.live.Keys, k)
  {
    assert Blocked(t, k);
    var d := DependentOf(t, k);
    assert d in t.cached.Keys;
    assert Edge(GraphOf(first), d, k);
  }

  /** At rest every remaining component is a dependency of another remaining one. */
  lemma RestingComponentsFormCycles(first: Components, t: State) returns (w: seq<Key>)
    requires Inv(first, t) && Quiescent(t) && t.live != map[]
    ensures IsCycle(GraphOf(first), w)
  {
    var g := GraphOf(first);
    forall k {:trigger HasPredecessorIn(g, t.live.Keys, k)} | k in t.live.Keys
      ensures HasPredecessorIn(g, t.live.Keys, k)
    {
      DependentRemains(first, t, k);
    }
    w := CycleFromPredecessors(g, t.live.Keys);
  }

  /**
   Whatever the order of events, and without a single retry, a run that has come to rest has
   removed every component exactly when the dependency graph has no cycle.
   */
  lemma DrainExact(s: State, run: seq<Event>)
    requires Start(s) && ValidRun(s, run) && Quiescent(After(s, run))
    ensures After(s, run).live == map[] <==> Acyclic(GraphOf(s.live))
  {
    RunKeepsInv(s.live, s, run);
    if After(s, run).live != map[] {
      var w := RestingComponentsFormCycles(s.live, After(s, run));
    }
    if w :| IsCycle(GraphOf(s.live), w) {
      CycleIsHeld(s, w);
      CycleStays(s, run, w);
      assert w[0] in After(s, run).live;
    }
  }

  // ---------------------------------------------------------------- termination

  /** One unit for each cached component and three for each wake-up its removal can cause. */
  ghost function Weight(cs: Components): nat
    decreases cs.Keys
  {
    if cs == map[] then 0
    else
      var k :| k in cs;
      1 + 3 * |cs[k].DependencyKeys()| + Weight(cs - {k})
  }

  lemma {:induction false} WeightWithout(cs: Components, k: Key)
    requires k in cs
    ensures Weight(cs) == 1 + 3 * |cs[k].DependencyKeys()| + Weight(cs - {k})
    decreases cs.Keys
  {
    var l :| l in cs && Weight(cs) == 1 + 3 * |cs[l].DependencyKeys()| + Weight(cs - {l});
    if l != k {
      WeightWithout(cs - {l}, k);
      WeightWithout(cs - {k}, l);
      assert cs - {l} - {k} == cs - {k} - {l};
    }
  }

  /** The passes that have yet to read the cache. */
  ghost function Entered(s: State): set<Key> {
    set k | k in s.visits && s.visits[k].Taken?
  }

  ghost function Effort(s: State): nat {
    3 * |s.queue| + |s.visits.Keys| + |Entered(s)| + Weight(s.cached)
  }

  /** Steps that are neither a timer nor a pass that finds resources still being deleted. */
  ghost predicate Effective(s: State, e: Event) {
    && Enabled(s, e)
    && !e.Requeue?
    && (e.Finish? && !e.finished ==> s.visits[e.key].Refused?)
  }

  lemma OneMoreVisit(s: State, k: Key)
    requires Enabled(s, Take(k))
    ensures Step(s, Take(k)).visits.Keys == s.visits.Keys + {k} && k !in s.visits.Keys
    ensures Entered(Step(s, Take(k))) == Entered(s) + {k} && k !in Entered(s)
  {
  }

  lemma TakeDecreases(s: State, k: Key)
    requires Enabled(s, Take(k))
    ensures Effort(Step(s, Take(k))) < Effort(s)
  {
    OneMoreVisit(s, k);
  }

  lemma GateDecreases(s: State, k: Key)
    requires Enabled(s, Gate(k))
    ensures Effort(Step(s, Gate(k))) < Effort(s)
  {
    var t := Step(s, Gate(k));
    assert t.visits.Keys == s.visits.Keys;
    assert Entered(t) == Entered(s) - {k};
  }

  lemma FinishDecreases(s: State, k: Key, finished: bool)
    requires Effective(s, Finish(k, finished))
    ensures Effort(Step(s, Finish(k, finished))) < Effort(s)
  {
    var t := Step(s, Finish(k, finished));
    assert t.visits.Keys == s.visits.Keys - {k};
    assert Entered(t) == Entered(s);
  }

  lemma ObserveDecreases(s: State, k: Key)
    requires Enabled(s, Observe(k))
    ensures Effort(Step(s, Observe(k))) < Effort(s)
  {
    WeightWithout(s.cached, k);
    var deps := s.cached[k].DependencyKeys();
    assert s.queue + deps == s.queue + (deps - s.queue);
  }

  lemma EffortDecreases(s: State, e: Event)
    requires Effective(s, e)
    ensures Effort(Step(s, e)) < Effort(s)
  {
    match e
    case Take(k) => TakeDecreases(s, k);
    case Gate(k) => GateDecreases(s, k);
    case Finish(k, finished) => FinishDecreases(s, k, finished);
    case Observe(k) => ObserveDecreases(s, k);
  }

  ghost predicate AllEffective(s: State, run: seq<Event>)
    decreases |run|
  {
    run == [] || (Effective(s, run[0]) && AllEffective(Step(s, run[0]), run[1..]))
  }

  /** No run of effective steps is longer than the initial effort. */
  lemma {:induction false} DrainTerminates(s: State, run: seq<Event>)
    requires AllEffective(s, run)
    ensures ValidRun(s, run)
    ensures |run| + Effort(After(s, run)) <= Effort(s)
    decreases |run|
  {
    if run != [] {
      EffortDecreases(s, run[0]);
      DrainTerminates(Step(s, run[0]), run[1..]);
    }
  }

  /** Until it has come to rest the system always has an effective step to take. */
  lemma NeverStuck(first: Components, s: State) returns (e: Event)
    requires Inv(first, s) && !Quiescent(s)
    ensures Effective(s, e)
  {
    if k :| k in s.visits {
      e := if s.visits[k].Taken? then Gate(k) else Finish(k, true);
    } else if k :| k in s.queue {
      e := Take(k);
    } else {
      assert s.queue == {} && s.visits.Keys == {};
      assert !(s.cached.Keys <= s.live.Keys);
      var k :| k in s.cached && k !in s.live;
      e := Observe(k);
    }
  }

  /** Together: acyclic components are all removed by some run, whose length is bounded by the effort. */
  lemma {:induction false} DrainCompletes(first: Components, s: State) returns (run: seq<Event>)
    requires Inv(first, s)
    ensures AllEffective(s, run) && ValidRun(s, run) && Quiescent(After(s, run))
    decreases Effort(s)
  {
    if Quiescent(s) {
      run := [];
    } else {
      var e := NeverStuck(first, s);
      EffortDecreases(s, e);
      StepKeepsInv(first, s, e);
      var rest := DrainCompletes(first, Step(s, e));
      run := [e] + rest;
    }
  }
}
