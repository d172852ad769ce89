/**
 Progress of rollouts: no source update and no unblocking is ever lost, so a rollout that has
 come to rest has reached every component of an acyclic graph, while the members of a
 dependency cycle never move.
 */
module RolloutWakeups {
  import opened Options
  import opened Names
  import opened Api
  import opened ComponentIndex
  import opened SourceLoading
  import opened Hooks
  import opened Graphs
  import opened Rollout

  // ---------------------------------------------------------------- what keeps a component awake

  /** The version `k` is at: the one its running pass has loaded, else the one last attempted. */
  ghost function VersionAt(s: State, k: Key): Version
    requires k in s.live
  {
    if k in s.passes then Recorded(s.passes[k].work.status) else s.live[k].status.attempted
  }

  ghost predicate AtCurrent(h: History, v: Version) {
    h != [] && v == OfferedVersion(h[|h| - 1])
  }

  /** Outside the queue a component has the current version, unless an event of its source is still to come. */
  ghost predicate Informed(s: State, k: Key) {
    k in s.cached && k in s.live && k !in s.queue && s.live[k].Source() !in s.pending ==>
      AtCurrent(Hist(s, s.live[k].Source()), VersionAt(s, k))
  }

  /** Its spec has been edited and the informer has not seen it yet. */
  ghost predicate EditPending(s: State, k: Key)
    requires k in s.cached && k in s.live
  {
    s.cached[k].generation != s.live[k].generation
  }

  /** Outside the queue a component without a running pass is ready, or the gate would refuse it even now. */
  ghost predicate Excused(s: State, k: Key) {
    k in s.cached && k in s.live && k !in s.queue && k !in s.passes && !EditPending(s, k) ==>
      s.live[k].IsReady() || !GateOpen(s.cached, s.live[k])
  }

  ghost predicate RefusedExcused(s: State, k: Key) {
    k in s.cached && k in s.live && k !in s.queue && k in s.passes && s.passes[k].phase.Refused? ==>
      !GateOpen(s.cached, s.passes[k].work)
  }

  /** Cache and passes show earlier states of stored components; what has never been cached is not ready. */
  ghost predicate Sound(s: State, k: Key) {
    && (k in s.live ==> IsObjectName(k) && s.live[k].Key() == k)
    && (k in s.live && s.live[k].status.ready ==>
          k in s.cached && s.live[k].status.applied == s.live[k].status.attempted)
    && (k in s.cached ==>
          k in s.live && SameIdentity(s.cached[k], s.live[k]) && s.cached[k].generation <= s.live[k].generation)
    && (k in s.passes ==> k in s.cached && PassSound(s.live[k], s.passes[k]))
  }

  /** A pass has loaded something for the component, and past the gate it has attempted that. */
  ghost predicate PassSound(c: Component, p: Pass) {
    && SameIdentity(p.work, c) && p.work.generation <= c.generation
    && (p.phase.Gated? || p.phase.Refused? ==> p.work.status.attempted == Recorded(p.work.status))
  }

  /** Outside the queue a pass has read the current spec. */
  ghost predicate PassFresh(s: State, k: Key) {
    k in s.passes && k in s.cached && k in s.live && k !in s.queue && !EditPending(s, k) ==>
      s.passes[k].work.generation == s.live[k].generation
  }

  ghost predicate Awake(s: State, k: Key) {
    Sound(s, k) && Excused(s, k) && RefusedExcused(s, k) && PassFresh(s, k)
  }

  /** Sources offer versions with a digest and a revision. */
  ghost predicate Filled(s: State) {
    forall source, i | source in s.sources && 0 <= i < |s.sources[source]| ::
      s.sources[source][i].artifact.digest != "" && s.sources[source][i].artifact.revision != ""
  }

  /** No component is held back without somebody being left to wake it. */
  ghost predicate Inv(s: State) {
    Filled(s) && forall k :: Awake(s, k)
  }

  // ---------------------------------------------------------------- the gate under changes of the cache

  /** The gate of a component reads its dependencies in the cache, its references and its attempted version. */
  lemma GateFrame(c: Component, d: Component, cache: Components, cache': Components)
    requires SameIdentity(c, d) && c.status.attempted == d.status.attempted
    requires forall i | 0 <= i < |c.spec.dependencies| ::
      var k := c.DependencyKey(c.spec.dependencies[i]);
      (k in cache <==> k in cache') && (k in cache ==> cache[k] == cache'[k])
    ensures GateOpen(cache, c) <==> GateOpen(cache', d)
  {
    forall i | 0 <= i < |c.spec.dependencies|
      ensures Satisfied(cache, c, c.spec.dependencies[i]) <==> Satisfied(cache', d, d.spec.dependencies[i])
    {
    }
  }

  /** A closed gate stays closed when a component that is not ready is observed. */
  lemma GateStaysClosed(c: Component, cache: Components, k: Key, seen: Component)
    requires !GateOpen(cache, c) && !seen.IsReady()
    ensures !GateOpen(cache[k := seen], c)
  {
    var i :| 0 <= i < |c.spec.dependencies| && !Satisfied(cache, c, c.spec.dependencies[i]);
    assert !Satisfied(cache[k := seen], c, c.spec.dependencies[i]);
  }

  /** Observing anything at all leaves the gate alone unless the component depends on it. */
  lemma GateIgnoresOthers(c: Component, cache: Components, k: Key, seen: Component)
    requires k !in c.DependencyKeys()
    ensures GateOpen(cache[k := seen], c) <==> GateOpen(cache, c)
  {
    forall i | 0 <= i < |c.spec.dependencies|
      ensures c.DependencyKey(c.spec.dependencies[i]) != k
    {
      assert c.DependencyKey(c.spec.dependencies[i]) in c.DependencyKeys();
    }
    GateFrame(c, c, cache, cache[k := seen]);
  }

  // ---------------------------------------------------------------- steps keep components awake

  /** A step that touches neither `j` nor the cache nor takes `j` out of the queue. */
  ghost predicate Untouched(s: State, t: State, j: Key) {
    && t.cached == s.cached && t.sources == s.sources && s.pending <= t.pending
    && (j in s.queue ==> j in t.queue)
    && (j in t.live <==> j in s.live) && (j in s.live ==> t.live[j] == s.live[j])
    && (j in t.passes <==> j in s.passes) && (j in s.passes ==> t.passes[j] == s.passes[j])
  }

  lemma UntouchedAwake(s: State, t: State, j: Key)
    requires Awake(s, j) && Untouched(s, t, j)
    ensures Awake(t, j)
  {
  }

  lemma PublishAwake(s: State, source: SourceRef, o: SourceStatus, j: Key)
    requires Awake(s, j) && Enabled(s, Publish(source, o))
    ensures Awake(Step(s, Publish(source, o)), j)
  {
  }

  lemma AnnounceAwake(s: State, source: SourceRef, j: Key)
    requires Awake(s, j) && Enabled(s, Announce(source))
    ensures Awake(Step(s, Announce(source)), j)
  {
  }

  lemma CreateAwake(s: State, c: Component, j: Key)
    requires Awake(s, j) && Enabled(s, Create(c))
    ensures Awake(Step(s, Create(c)), j)
  {
  }

  lemma EditAwake(s: State, k: Key, spec: Spec, j: Key)
    requires Awake(s, j) && Enabled(s, Edit(k, spec))
    ensures Awake(Step(s, Edit(k, spec)), j)
  {
  }

  /** Observing a component that has become ready wakes its dependents; observing any other cannot open a gate. */
  lemma ObserveAwake(s: State, k: Key, j: Key)
    requires Awake(s, j) && Sound(s, k) && Enabled(s, Observe(k))
    ensures Awake(Step(s, Observe(k)), j)
  {
    var t := Step(s, Observe(k));
    if j in t.cached && j !in t.queue {
      if j in s.passes {
        ObserveKeepsGateClosed(s, k, j, s.passes[j].work);
      } else {
        ObserveKeepsGateClosed(s, k, j, s.live[j]);
      }
    }
  }

  lemma ObserveKeepsGateClosed(s: State, k: Key, j: Key, c: Component)
    requires Sound(s, k) && Sound(s, j) && Enabled(s, Observe(k))
    requires j in s.live && SameIdentity(c, s.live[j])
    requires var t := Step(s, Observe(k)); j in t.cached && j !in t.queue
    ensures !GateOpen(s.cached, c) ==> !GateOpen(s.cached[k := s.live[k]], c)
  {
    var cached := s.cached[k := s.live[k]];
    if s.live[k].IsReady() {
      assert j !in Dependents(cached, k);
      assert c.DependencyKeys() == cached[j].DependencyKeys();
      GateIgnoresOthers(c, s.cached, k, s.live[k]);
    } else if !GateOpen(s.cached, c) {
      GateStaysClosed(c, s.cached, k, s.live[k]);
    }
  }

  lemma StartAwake(s: State, k: Key, since: Option<int>, at: int)
    requires Awake(s, k) && Enabled(s, Start(k, since, at))
    ensures Awake(Step(s, Start(k, since, at)), k)
  {
  }

  lemma GateAwake(s: State, k: Key, broken: bool)
    requires Awake(s, k) && Enabled(s, Gate(k, broken))
    ensures Awake(Step(s, Gate(k, broken)), k)
  {
  }

  /** A pass that ends without being queued again leaves its component ready or refused. */
  lemma FinishAwake(s: State, k: Key, done: bool)
    requires Awake(s, k) && Enabled(s, Finish(k, done))
    ensures Awake(Step(s, Finish(k, done)), k)
  {
    var p, t := s.passes[k], Step(s, Finish(k, done));
    if p.phase.Refused? {
      GateFrame(p.work, t.live[k], s.cached, t.cached);
    }
  }

  /** Every step keeps this, whatever sources offer and whoever is sticky. */
  lemma StepAwake(s: State, e: Event, j: Key)
    requires Inv(s) && Enabled(s, e)
    ensures Awake(Step(s, e), j)
  {
    assert Awake(s, j);
    match e
    case Publish(source, o) => PublishAwake(s, source, o, j);
    case Announce(source) => AnnounceAwake(s, source, j);
    case Create(c) => CreateAwake(s, c, j);
    case Edit(k, spec) => EditAwake(s, k, spec, j);
    case Observe(k) => assert Awake(s, k); ObserveAwake(s, k, j);
    case Requeue(k) => UntouchedAwake(s, Step(s, e), j);
    case Start(k, since, at) =>
      if j == k { StartAwake(s, k, since, at); } else { UntouchedAwake(s, Step(s, e), j); }
    case Gate(k, broken) =>
      if j == k { GateAwake(s, k, broken); } else { UntouchedAwake(s, Step(s, e), j); }
    case Finish(k, done) =>
      if j == k { FinishAwake(s, k, done); } else { UntouchedAwake(s, Step(s, e), j); }
  }

  // ---------------------------------------------------------------- source updates

  /** The load of a pass that starts now is pinned to what the component has recorded. */
  predicate StartsPinned(s: State, k: Key, since: Option<int>, at: int)
    requires k in s.live
  {
    IsPinned(WithTimes(s.live[k], since, at))
  }

  /** The handler of an event to come looks at `k`, outside the queue, and lets it sleep. */
  ghost predicate Skipped(s: State, source: SourceRef, k: Key)
    requires Enabled(s, Announce(source))
  {
    && k in s.cached && k in s.live && k !in s.queue
    && s.live[k].Source() == source && source in s.pending && k !in Woken(s, source)
  }

  /**
   The step does not lose an update for `k`: a handler that lets it sleep is right to do so, and a
   pass that starts without an event to come is not pinned to an old version.
   */
  ghost predicate Attentive(s: State, e: Event, k: Key)
    requires Enabled(s, e)
  {
    match e
    case Announce(source) =>
      Skipped(s, source, k) ==>
        AtCurrent(Hist(s, source), VersionAt(s, k))
    case Start(j, since, at) =>
      j == k && StartsPinned(s, k, since, at) && s.live[k].Source() !in s.pending ==>
        AtCurrent(Hist(s, s.live[k].Source()), Recorded(s.live[k].status))
    case _ => true
  }

  /** These two are the only ways to lose an update. */
  lemma UpdateLostExactly(s: State, e: Event, k: Key)
    requires Sound(s, k) && Informed(s, k) && Enabled(s, e)
    ensures Informed(Step(s, e), k) <==> Attentive(s, e, k)
  {
    match e
    case Start(j, since, at) => StartInforms(s, j, since, at, k);
    case _ =>
  }

  lemma StartInforms(s: State, j: Key, since: Option<int>, at: int, k: Key)
    requires Sound(s, k) && Informed(s, k) && Enabled(s, Start(j, since, at))
    ensures Informed(Step(s, Start(j, since, at)), k) <==> Attentive(s, Start(j, since, at), k)
  {
    if j == k && StartsPinned(s, k, since, at) {
      var p := StartPass(s.live[k], since, at, Hist(s, s.live[k].Source()));
      assert Recorded(p.work.status) == Recorded(s.live[k].status);
    }
  }

  // ---------------------------------------------------------------- over whole runs

  /** The operator has just started: everything the informer lists is queued, and what it does not list is not ready. */
  ghost predicate Restarted(s: State) {
    && Filled(s) && s.passes == map[] && s.cached.Keys <= s.queue
    && forall k :: Sound(s, k)
  }

  lemma RestartedInv(s: State)
    requires Restarted(s)
    ensures Inv(s) && forall k :: Informed(s, k)
  {
    forall k
      ensures Awake(s, k)
    {
      assert Sound(s, k);
    }
  }

  lemma StepKeepsInv(s: State, e: Event)
    requires Inv(s) && Enabled(s, e)
    ensures Inv(Step(s, e))
  {
    forall j ensures Awake(Step(s, e), j) { StepAwake(s, e, j); }
    FilledStep(s, e);
  }

  lemma FilledStep(s: State, e: Event)
    requires Filled(s) && Enabled(s, e)
    ensures Filled(Step(s, e))
  {
    if e.Publish? {
      var h := Hist(Step(s, e), e.source);
      assert forall i | 0 <= i < |h| - 1 :: h[i] == Hist(s, e.source)[i];
    }
  }

  lemma {:induction false} RunKeepsInv(s: State, run: seq<Event>)
    requires Inv(s) && ValidRun(s, run)
    ensures Inv(After(s, run))
    decreases |run|
  {
    if run != [] {
      StepKeepsInv(s, run[0]);
      RunKeepsInv(Step(s, run[0]), run[1..]);
    }
  }

  ghost predicate AttentiveRun(s: State, run: seq<Event>, k: Key)
    requires ValidRun(s, run)
    decreases |run|
  {
    run == [] || (Attentive(s, run[0], k) && AttentiveRun(Step(s, run[0]), run[1..], k))
  }

  lemma {:induction false} RunInforms(s: State, run: seq<Event>, k: Key)
    requires Inv(s) && Informed(s, k) && ValidRun(s, run) && AttentiveRun(s, run, k)
    ensures Informed(After(s, run), k)
    decreases |run|
  {
    if run != [] {
      assert Awake(s, k);
      UpdateLostExactly(s, run[0], k);
      StepKeepsInv(s, run[0]);
      RunInforms(Step(s, run[0]), run[1..], k);
    }
  }

  /** Nothing is queued or running, every event is handled and the informer has caught up. */
  ghost predicate Quiescent(s: State) {
    s.queue == {} && s.passes == map[] && s.pending == {} && s.cached == s.live
  }

  ghost predicate DependenciesExist(cs: Components) {
    forall k | k in cs :: cs[k].DependencyKeys() <= cs.Keys
  }

  ghost function CurrentVersion(s: State, k: Key): Version
    requires k in s.live
  {
    var h := Hist(s, s.live[k].Source());
    if h == [] then NO_VERSION else OfferedVersion(h[|h| - 1])
  }

  /** Components linked by a dependency with the same source reference are offered the same version. */
  ghost predicate SameOffers(s: State) {
    forall k, d | k in s.live && d in s.live && d in s.live[k].DependencyKeys() &&
      s.live[d].spec.sourceRef == s.live[k].spec.sourceRef :: CurrentVersion(s, d) == CurrentVersion(s, k)
  }

  /** Ready, with the current version of its source attempted and applied. */
  ghost predicate RolledOut(s: State, k: Key) {
    && k in s.live && s.live[k].IsReady()
    && s.live[k].status.attempted == CurrentVersion(s, k)
    && s.live[k].status.applied == CurrentVersion(s, k)
  }

  ghost predicate AllRolledOut(s: State) {
    forall k | k in s.live :: RolledOut(s, k)
  }

  /** At rest, with every update received. */
  ghost predicate AtRest(s: State) {
    && Inv(s) && Quiescent(s)
    && forall k :: Informed(s, k)
  }

  /** Every dependency with the same reference resolves to the same source, which can be read off the specs. */
  ghost predicate SameSources(cs: Components) {
    forall k, d | k in cs && d in cs && d in cs[k].DependencyKeys() &&
      cs[d].spec.sourceRef == cs[k].spec.sourceRef ::
      cs[d].Source() == cs[k].Source()
  }

  lemma SameSourcesSameOffers(s: State)
    requires SameSources(s.live)
    ensures SameOffers(s)
  {
  }

  ghost function Unready(s: State): set<Key> {
    set k | k in s.live && !s.live[k].IsReady()
  }

  lemma RestingIsCurrent(s: State, k: Key)
    requires Informed(s, k) && Quiescent(s) && k in s.live
    ensures s.live[k].status.attempted == CurrentVersion(s, k)
  {
  }

  /**
   What can hold back `k` at rest: a dependency that is missing, not ready or, behind an equal
   reference, offered something else.
   */
  ghost predicate Obstacle(s: State, k: Key, d: Key)
    requires k in s.live
  {
    d in s.live[k].DependencyKeys() &&
    (d !in s.live || !s.live[d].IsReady() ||
     (s.live[d].spec.sourceRef == s.live[k].spec.sourceRef && CurrentVersion(s, d) != CurrentVersion(s, k)))
  }

  /** At rest a component that is not ready has such a dependency. */
  lemma RestingComponentWaits(s: State, k: Key) returns (d: Key)
    requires AtRest(s) && k in s.live && !s.live[k].IsReady()
    ensures Obstacle(s, k, d)
  {
    var c := s.live[k];
    assert Awake(s, k) && Informed(s, k);
    var i :| 0 <= i < |c.spec.dependencies| && !Satisfied(s.cached, c, c.spec.dependencies[i]);
    d := c.DependencyKey(c.spec.dependencies[i]);
    assert d in c.DependencyKeys();
    if d in s.live {
      assert Awake(s, d) && Informed(s, d);
      RestingIsCurrent(s, k);
      RestingIsCurrent(s, d);
      assert s.live[d].status.attempted.digest != "" && s.live[d].status.attempted.revision != "";
    }
  }

  lemma RestingIsRolledOut(s: State, k: Key)
    requires AtRest(s) && k in s.live && s.live[k].IsReady()
    ensures RolledOut(s, k)
  {
    assert Awake(s, k) && Informed(s, k);
  }

  lemma UnreadyFormCycles(t: State) returns (w: seq<Key>)
    requires AtRest(t) && DependenciesExist(t.live) && SameOffers(t) && Unready(t) != {}
    ensures IsCycle(GraphOf(t.live), w)
  {
    var g, u := GraphOf(t.live), Unready(t);
    forall k {:trigger HasSuccessorIn(g, u, k)} | k in u
      ensures HasSuccessorIn(g, u, k)
    {
      var d := RestingComponentWaits(t, k);
      assert d in u && Edge(g, k, d);
    }
    w := CycleFromSuccessors(g, u);
  }

  lemma RestIsRolledOut(t: State)
    requires AtRest(t) && Acyclic(GraphOf(t.live)) && DependenciesExist(t.live) && SameOffers(t)
    ensures AllRolledOut(t)
  {
    if Unready(t) != {} {
      var w := UnreadyFormCycles(t);
    }
    forall k | k in t.live
      ensures RolledOut(t, k)
    {
      assert k !in Unready(t);
      RestingIsRolledOut(t, k);
    }
  }

  /**
   However events, passes and source changes interleave, and without a single retry: when
   everything has come to rest and no update was lost on the way, every component of an acyclic
   graph is ready at the latest version of its source, if no dependency is missing or, behind an
   equal reference, offered something else.
   */
  lemma RolloutConverges(s: State, run: seq<Event>)
    requires Restarted(s) && ValidRun(s, run) && forall k :: AttentiveRun(s, run, k)
    requires Quiescent(After(s, run)) && Acyclic(GraphOf(After(s, run).live))
    requires DependenciesExist(After(s, run).live) && SameOffers(After(s, run))
    ensures AllRolledOut(After(s, run))
  {
    RunComesToRest(s, run);
    RestIsRolledOut(After(s, run));
  }

  lemma RunComesToRest(s: State, run: seq<Event>)
    requires Restarted(s) && ValidRun(s, run) && forall k :: AttentiveRun(s, run, k)
    requires Quiescent(After(s, run))
    ensures AtRest(After(s, run))
  {
    RestartedInv(s);
    RunKeepsInv(s, run);
    forall k
      ensures Informed(After(s, run), k)
    {
      assert AttentiveRun(s, run, k);
      RunInforms(s, run, k);
    }
  }

  /**
   At rest a component for which no update was lost is at the latest version, ready or not,
   whatever happened to others.
   */
  lemma NoUpdateLost(s: State, run: seq<Event>, k: Key)
    requires Restarted(s) && ValidRun(s, run) && AttentiveRun(s, run, k)
    requires Quiescent(After(s, run)) && k in After(s, run).live
    ensures After(s, run).live[k].status.attempted == CurrentVersion(After(s, run), k)
  {
    RestartedInv(s);
    RunInforms(s, run, k);
    RestingIsCurrent(After(s, run), k);
  }

  // ---------------------------------------------------------------- cycles

  /** Not ready, and no later observation can make it so. */
  predicate Unfinished(c: Component) {
    !c.status.ready || c.status.observedGeneration < c.generation
  }

  ghost predicate StuckAt(s: State, k: Key, next: Key) {
    && k in s.live && Unfinished(s.live[k]) && next in s.live[k].DependencyKeys()
    && (k in s.cached ==> Unfinished(s.cached[k]))
    && (k in s.passes ==> SameIdentity(s.passes[k].work, s.live[k]) && !s.passes[k].phase.Gated?
                          && s.passes[k].work.status.applied == s.live[k].status.applied)
  }

  /** Every member of the cycle waits for the next one. */
  ghost predicate Deadlocked(s: State, w: seq<Key>) {
    |w| > 0 && forall i | 0 <= i < |w| :: StuckAt(s, w[i], Next(w, i))
  }

  lemma ClosedByNext(cached: Components, c: Component, next: Key)
    requires next in c.DependencyKeys() && (next in cached ==> Unfinished(cached[next]))
    ensures !GateOpen(cached, c)
  {
    var i :| 0 <= i < |c.spec.dependencies| && c.DependencyKey(c.spec.dependencies[i]) == next;
    assert !Satisfied(cached, c, c.spec.dependencies[i]);
  }

  lemma StaysStuck(s: State, e: Event, k: Key, next: Key)
    requires Enabled(s, e) && StuckAt(s, k, next) && (next in s.cached ==> Unfinished(s.cached[next]))
    ensures StuckAt(Step(s, e), k, next)
    ensures Step(s, e).live[k].status.applied == s.live[k].status.applied
  {
    if e.Gate? && e.key == k {
      ClosedByNext(s.cached, WithAttempted(s.passes[k].work, Recorded(s.passes[k].work.status)), next);
    }
  }

  /** The members of a cycle nobody has finished never pass the gate and never change what they have applied. */
  lemma {:induction false} CycleDeadlock(s: State, run: seq<Event>, w: seq<Key>)
    requires ValidRun(s, run) && Deadlocked(s, w)
    ensures Deadlocked(After(s, run), w)
    ensures forall i | 0 <= i < |w| :: w[i] in s.live && w[i] in After(s, run).live
    ensures forall i | 0 <= i < |w| :: After(s, run).live[w[i]].status.applied == s.live[w[i]].status.applied
    decreases |run|
  {
    if run != [] {
      var t := Step(s, run[0]);
      forall i | 0 <= i < |w|
        ensures StuckAt(t, w[i], Next(w, i)) && t.live[w[i]].status.applied == s.live[w[i]].status.applied
      {
        var j := if i + 1 < |w| then i + 1 else 0;
        assert StuckAt(s, w[i], Next(w, i)) && StuckAt(s, w[j], Next(w, j));
        StaysStuck(s, run[0], w[i], Next(w, i));
      }
      CycleDeadlock(t, run[1..], w);
    } else {
      forall i | 0 <= i < |w|
        ensures w[i] in s.live
      {
        assert StuckAt(s, w[i], Next(w, i));
      }
    }
  }

  lemma {:induction false} IdentitiesStay(s: State, run: seq<Event>, k: Key)
    requires ValidRun(s, run) && k in s.live
    ensures k in After(s, run).live && SameIdentity(s.live[k], After(s, run).live[k])
    decreases |run|
  {
    if run != [] { IdentitiesStay(Step(s, run[0]), run[1..], k); }
  }

  /** Components nobody has reconciled yet; sources may have any history. */
  ghost predicate Untried(s: State) {
    && Filled(s) && WellKeyed(s.live) && s.passes == map[] && s.cached.Keys <= s.queue
    && (forall k | k in s.live :: IsFresh(s.live[k].status))
    && (forall k | k in s.cached :: k in s.live && s.cached[k] == s.live[k])
  }

  lemma UntriedIsRestarted(s: State)
    requires Untried(s)
    ensures Restarted(s)
  {
  }
}
