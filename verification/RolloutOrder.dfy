/**
 Safety of rollouts: no component is ever ahead of a dependency that is built from the same
 source, in any reachable state, with concurrent passes and a stale cache. Positions in the history
 of a source need its versions to be distinct, so no source may go back to an earlier version here.
 */
module RolloutOrder {
  import opened Options
  import opened Names
  import opened Api
  import opened ComponentIndex
  import opened Hooks
  import opened Graphs
  import opened Rollout

  /** `d` is a dependency of `k` by the same source reference, which also resolves to the same source. */
  ghost predicate Tracked(cs: Components, k: Key, d: Key) {
    && k in cs && d in cs && d in cs[k].DependencyKeys()
    && cs[d].spec.sourceRef == cs[k].spec.sourceRef && cs[d].Source() == cs[k].Source()
  }

  ghost function HistOf(s: State, k: Key): History
    requires k in s.live
  {
    Hist(s, s.live[k].Source())
  }

  // ---------------------------------------------------------------- the invariant, key by key

  ghost predicate LiveOk(s: State, k: Key) {
    k in s.live ==> IsObjectName(k) && s.live[k].Key() == k && StatusOk(HistOf(s, k), s.live[k].status)
  }

  /** The cache shows some earlier state of the component. */
  ghost predicate CachedOk(s: State, k: Key) {
    k in s.cached ==>
      && k in s.live && SameIdentity(s.cached[k], s.live[k])
      && StatusOk(HistOf(s, k), s.cached[k].status)
      && NotBehind(HistOf(s, k), s.cached[k].status, s.live[k].status)
  }

  /** A pass works on a copy that has loaded at least what the component had recorded. */
  ghost predicate PassOk(s: State, k: Key) {
    k in s.passes ==>
      var work := s.passes[k].work;
      var h := if k in s.live then HistOf(s, k) else [];
      && k in s.live && SameIdentity(work, s.live[k])
      && Pos(h, Recorded(work.status)) >= 0
      && Pos(h, Recorded(s.live[k].status)) <= Pos(h, Recorded(work.status))
      && work.status.applied == s.live[k].status.applied
      && (work.status.attempted == s.live[k].status.attempted || work.status.attempted == Recorded(work.status))
      && (s.passes[k].phase.Gated? || s.passes[k].phase.Refused? ==> work.status.attempted == Recorded(work.status))
  }

  /** The ordering claim for one dependency. */
  ghost predicate EdgeOk(s: State, k: Key, d: Key) {
    Tracked(s.live, k, d) ==>
      Pos(HistOf(s, k), s.live[k].status.applied) <= Pos(HistOf(s, k), s.live[d].status.applied)
  }

  /** A pass allowed to apply has found its dependencies at its version. */
  ghost predicate GatedOk(s: State, k: Key, d: Key) {
    k in s.passes && s.passes[k].phase.Gated? && Tracked(s.live, k, d) ==>
      Pos(HistOf(s, k), Recorded(s.passes[k].work.status)) <= Pos(HistOf(s, k), s.live[d].status.applied)
  }

  /** What has been applied, or is allowed to be, has all its dependencies in the store. */
  ghost predicate Rooted(s: State, k: Key) {
    k in s.live && (s.live[k].status.applied != NO_VERSION || (k in s.passes && s.passes[k].phase.Gated?)) ==>
      s.live[k].DependencyKeys() <= s.live.Keys
  }

  ghost predicate KeyOk(s: State, k: Key) {
    LiveOk(s, k) && CachedOk(s, k) && PassOk(s, k) && Rooted(s, k)
  }

  ghost predicate PairOk(s: State, k: Key, d: Key) {
    EdgeOk(s, k, d) && GatedOk(s, k, d)
  }

  ghost predicate HistoriesOk(s: State) {
    forall source | source in s.sources :: HistoryOk(s.sources[source])
  }

  ghost predicate Inv(s: State) {
    && HistoriesOk(s)
    && (forall k :: KeyOk(s, k))
    && (forall k, d :: PairOk(s, k, d))
  }

  // ---------------------------------------------------------------- frames

  lemma NoVersionNowhere(h: History)
    requires HistoryOk(h)
    ensures Pos(h, NO_VERSION) == -1
  {
  }

  /** Nothing about `k` changes; other components may appear. */
  ghost predicate SameAt(s: State, t: State, k: Key) {
    && (k in t.live <==> k in s.live) && (k in s.live ==> t.live[k] == s.live[k])
    && (k in t.cached <==> k in s.cached) && (k in s.cached ==> t.cached[k] == s.cached[k])
    && (k in t.passes <==> k in s.passes) && (k in s.passes ==> t.passes[k] == s.passes[k])
    && s.live.Keys <= t.live.Keys && t.sources == s.sources
  }

  lemma KeyFrame(s: State, t: State, k: Key)
    requires KeyOk(s, k) && SameAt(s, t, k)
    ensures KeyOk(t, k)
  {
  }

  /** `d` keeps what it has applied or moves on; `k` has applied nothing new and is allowed nothing new. */
  ghost predicate NoNewClaim(s: State, t: State, k: Key, d: Key) {
    && t.sources == s.sources
    && (k in t.live && d in t.live ==>
        && k in s.live && d in s.live
        && SameIdentity(s.live[k], t.live[k]) && SameIdentity(s.live[d], t.live[d])
        && t.live[k].status.applied == s.live[k].status.applied
        && Pos(HistOf(s, d), s.live[d].status.applied) <= Pos(HistOf(s, d), t.live[d].status.applied))
    && (k in t.passes && t.passes[k].phase.Gated? ==>
        && k in s.passes && s.passes[k].phase.Gated?
        && Recorded(t.passes[k].work.status) == Recorded(s.passes[k].work.status))
  }

  lemma PairFrame(s: State, t: State, k: Key, d: Key)
    requires PairOk(s, k, d) && NoNewClaim(s, t, k, d)
    ensures PairOk(t, k, d)
  {
  }

  /** A step that leaves identities and applied versions alone and lets no pass apply makes no new claim. */
  lemma NoClaimFromAppliedSame(s: State, t: State, k: Key, j: Key, d: Key)
    requires t.sources == s.sources && t.live.Keys == s.live.Keys
    requires forall i | i != k :: SameAt(s, t, i)
    requires k in s.live ==> SameIdentity(s.live[k], t.live[k]) && t.live[k].status.applied == s.live[k].status.applied
    requires k in t.passes && t.passes[k].phase.Gated? ==>
      && k in s.passes && s.passes[k].phase.Gated?
      && Recorded(t.passes[k].work.status) == Recorded(s.passes[k].work.status)
    ensures NoNewClaim(s, t, j, d)
  {
    assert j != k ==> SameAt(s, t, j);
    assert d != k ==> SameAt(s, t, d);
  }

  /** Keys outside `k` are untouched, `k` is fine again, and no pair has a new claim. */
  lemma InvFromFrames(s: State, t: State, k: Key)
    requires Inv(s) && t.sources == s.sources
    requires forall j | j != k :: SameAt(s, t, j)
    requires KeyOk(t, k)
    requires forall j, d {:trigger PairOk(t, j, d)} :: NoNewClaim(s, t, j, d) || PairOk(t, j, d)
    ensures Inv(t)
  {
    forall j
      ensures KeyOk(t, j)
    {
      if j != k { assert KeyOk(s, j); KeyFrame(s, t, j); }
    }
    forall j, d
      ensures PairOk(t, j, d)
    {
      assert PairOk(s, j, d);
      if NoNewClaim(s, t, j, d) { PairFrame(s, t, j, d); }
    }
  }

  // ---------------------------------------------------------------- steps keep it

  /** The source has not offered the version before. */
  ghost predicate IsNew(s: State, e: Event) {
    e.Publish? ==>
      forall i | 0 <= i < |Hist(s, e.source)| :: OfferedVersion(Hist(s, e.source)[i]) != OfferedVersion(e.offer)
  }

  lemma KnownAppend(h: History, o: SourceStatus, v: Version)
    requires Known(h, v) && o.artifact.digest != ""
    requires forall i | 0 <= i < |h| :: OfferedVersion(h[i]) != OfferedVersion(o)
    ensures Known(h + [o], v) && Pos(h + [o], v) == Pos(h, v)
  {
    PosAppend(h, o, v);
    assert v != OfferedVersion(o);
  }

  /** A new offer moves nothing that is already known. */
  lemma KnownStays(s: State, source: SourceRef, o: SourceStatus, at: SourceRef, v: Version)
    requires Enabled(s, Publish(source, o)) && IsNew(s, Publish(source, o)) && Known(Hist(s, at), v)
    ensures var t := Step(s, Publish(source, o)); Known(Hist(t, at), v) && Pos(Hist(t, at), v) == Pos(Hist(s, at), v)
  {
    if at == source {
      KnownAppend(Hist(s, source), o, v);
    }
  }

  lemma StatusStaysOk(s: State, source: SourceRef, o: SourceStatus, at: SourceRef, st: Status)
    requires Enabled(s, Publish(source, o)) && IsNew(s, Publish(source, o)) && StatusOk(Hist(s, at), st)
    ensures var t := Step(s, Publish(source, o)); StatusOk(Hist(t, at), st)
    ensures var t := Step(s, Publish(source, o));
      && Pos(Hist(t, at), st.applied) == Pos(Hist(s, at), st.applied)
      && Pos(Hist(t, at), st.attempted) == Pos(Hist(s, at), st.attempted)
      && Pos(Hist(t, at), Recorded(st)) == Pos(Hist(s, at), Recorded(st))
  {
    KnownStays(s, source, o, at, st.applied);
    KnownStays(s, source, o, at, st.attempted);
    KnownStays(s, source, o, at, Recorded(st));
  }

  lemma PublishKeepsPass(s: State, source: SourceRef, o: SourceStatus, k: Key)
    requires Enabled(s, Publish(source, o)) && IsNew(s, Publish(source, o)) && LiveOk(s, k) && PassOk(s, k)
    ensures PassOk(Step(s, Publish(source, o)), k)
  {
    if k in s.passes {
      var at := s.live[k].Source();
      StatusStaysOk(s, source, o, at, s.live[k].status);
      KnownStays(s, source, o, at, Recorded(s.passes[k].work.status));
    }
  }

  lemma PublishKeepsKey(s: State, source: SourceRef, o: SourceStatus, k: Key)
    requires Enabled(s, Publish(source, o)) && IsNew(s, Publish(source, o)) && KeyOk(s, k)
    ensures var t := Step(s, Publish(source, o)); KeyOk(t, k)
  {
    if k in s.live {
      var at := s.live[k].Source();
      StatusStaysOk(s, source, o, at, s.live[k].status);
      if k in s.cached { StatusStaysOk(s, source, o, at, s.cached[k].status); }
      PublishKeepsPass(s, source, o, k);
    }
  }

  lemma PublishKeepsEdge(s: State, source: SourceRef, o: SourceStatus, k: Key, d: Key)
    requires Enabled(s, Publish(source, o)) && IsNew(s, Publish(source, o))
    requires LiveOk(s, k) && LiveOk(s, d) && PassOk(s, k)
    requires PairOk(s, k, d)
    ensures PairOk(Step(s, Publish(source, o)), k, d)
  {
    if Tracked(s.live, k, d) {
      var at := s.live[k].Source();
      KnownStays(s, source, o, at, s.live[k].status.applied);
      KnownStays(s, source, o, at, s.live[d].status.applied);
      if k in s.passes { KnownStays(s, source, o, at, Recorded(s.passes[k].work.status)); }
    }
  }

  lemma PublishKeepsInv(s: State, source: SourceRef, o: SourceStatus)
    requires Inv(s) && Enabled(s, Publish(source, o)) && IsNew(s, Publish(source, o))
    ensures Inv(Step(s, Publish(source, o)))
  {
    var t := Step(s, Publish(source, o));
    forall k
      ensures KeyOk(t, k)
    {
      assert KeyOk(s, k);
      PublishKeepsKey(s, source, o, k);
    }
    forall k, d
      ensures PairOk(t, k, d)
    {
      assert PairOk(s, k, d) && KeyOk(s, k) && KeyOk(s, d);
      PublishKeepsEdge(s, source, o, k, d);
    }
  }

  lemma CreateKeepsInv(s: State, c: Component)
    requires Inv(s) && Enabled(s, Create(c))
    ensures Inv(Step(s, Create(c)))
  {
    var t, k := Step(s, Create(c)), c.Key();
    NoVersionNowhere(Hist(s, c.Source()));
    assert KeyOk(s, k);
    forall j, d
      ensures NoNewClaim(s, t, j, d) || PairOk(t, j, d)
    {
      if j == k || d == k {
        NewcomerHasNoClaim(s, c, j, d);
      }
    }
    InvFromFrames(s, t, k);
  }

  /** Nothing that has applied a version, or may, depends on a component that did not exist. */
  lemma NewcomerHasNoClaim(s: State, c: Component, j: Key, d: Key)
    requires Enabled(s, Create(c)) && (j == c.Key() || d == c.Key())
    requires KeyOk(s, j) && KeyOk(s, c.Key()) && Pos(Hist(s, c.Source()), NO_VERSION) == -1
    ensures PairOk(Step(s, Create(c)), j, d)
  {
  }

  lemma EditKeepsInv(s: State, k: Key, spec: Spec)
    requires Inv(s) && Enabled(s, Edit(k, spec))
    ensures Inv(Step(s, Edit(k, spec)))
  {
    var t := Step(s, Edit(k, spec));
    assert KeyOk(s, k);
    forall j, d ensures NoNewClaim(s, t, j, d) { NoClaimFromAppliedSame(s, t, k, j, d); }
    InvFromFrames(s, t, k);
  }

  lemma ObserveKeepsInv(s: State, k: Key)
    requires Inv(s) && Enabled(s, Observe(k))
    ensures Inv(Step(s, Observe(k)))
  {
    var t := Step(s, Observe(k));
    assert KeyOk(s, k);
    forall j, d ensures NoNewClaim(s, t, j, d) { NoClaimFromAppliedSame(s, t, k, j, d); }
    InvFromFrames(s, t, k);
  }

  lemma StartKeepsPass(s: State, k: Key, since: Option<int>, at: int)
    requires LiveOk(s, k) && HistoriesOk(s) && Enabled(s, Start(k, since, at))
    ensures PassOk(Step(s, Start(k, since, at)), k)
  {
    var h := HistOf(s, k);
    assert HistoryOk(h);
    NoVersionNowhere(h);
    if h != [] { CurrentIsLast(h); }
  }

  lemma StartKeepsKey(s: State, k: Key, since: Option<int>, at: int)
    requires KeyOk(s, k) && HistoriesOk(s) && Enabled(s, Start(k, since, at))
    ensures KeyOk(Step(s, Start(k, since, at)), k)
  {
    StartKeepsPass(s, k, since, at);
  }

  lemma CurrentIsLast(h: History)
    requires HistoryOk(h) && h != []
    ensures Pos(h, OfferedVersion(h[|h| - 1])) == |h| - 1
  {
  }

  lemma StartNoClaim(s: State, k: Key, since: Option<int>, at: int, j: Key, d: Key)
    requires Enabled(s, Start(k, since, at))
    ensures NoNewClaim(s, Step(s, Start(k, since, at)), j, d)
  {
    NoClaimFromAppliedSame(s, Step(s, Start(k, since, at)), k, j, d);
  }

  lemma StartKeepsInv(s: State, k: Key, since: Option<int>, at: int)
    requires Inv(s) && Enabled(s, Start(k, since, at))
    ensures Inv(Step(s, Start(k, since, at)))
  {
    var t := Step(s, Start(k, since, at));
    assert KeyOk(s, k);
    StartKeepsKey(s, k, since, at);
    forall j, d ensures NoNewClaim(s, t, j, d) { StartNoClaim(s, k, since, at, j, d); }
    InvFromFrames(s, t, k);
  }

  /** An open gate has seen every dependency in the cache, hence in the store. */
  lemma OpenGateHasDependencies(s: State, c: Component)
    requires (forall k :: KeyOk(s, k)) && GateOpen(s.cached, c)
    ensures c.DependencyKeys() <= s.live.Keys
  {
    forall d | d in c.DependencyKeys()
      ensures d in s.live
    {
      var i :| 0 <= i < |c.spec.dependencies| && c.DependencyKey(c.spec.dependencies[i]) == d;
      assert Satisfied(s.cached, c, c.spec.dependencies[i]) && KeyOk(s, d);
    }
  }

  /** It has seen a tracked dependency ready at the attempted version, which cannot have fallen back since. */
  lemma OpenGateSeesDependency(s: State, c: Component, k: Key, d: Key)
    requires KeyOk(s, d) && Tracked(s.live, k, d) && SameIdentity(c, s.live[k])
    requires GateOpen(s.cached, c)
    ensures Pos(HistOf(s, k), c.status.attempted) <= Pos(HistOf(s, k), s.live[d].status.applied)
  {
    var i :| 0 <= i < |s.live[k].spec.dependencies| && s.live[k].DependencyKey(s.live[k].spec.dependencies[i]) == d;
    assert Satisfied(s.cached, c, c.spec.dependencies[i]);
  }

  lemma GateKeepsKey(s: State, k: Key, broken: bool)
    requires KeyOk(s, k) && Enabled(s, Gate(k, broken))
    requires var p := GatePass(s.passes[k], s.cached, broken); p.phase.Gated? ==> p.work.DependencyKeys() <= s.live.Keys
    ensures KeyOk(Step(s, Gate(k, broken)), k)
  {
    assert GatePass(s.passes[k], s.cached, broken).work.DependencyKeys() == s.live[k].DependencyKeys();
  }

  lemma GateKeepsPair(s: State, k: Key, broken: bool, d: Key)
    requires KeyOk(s, k) && KeyOk(s, d) && PairOk(s, k, d) && Enabled(s, Gate(k, broken))
    ensures PairOk(Step(s, Gate(k, broken)), k, d)
  {
    var p := GatePass(s.passes[k], s.cached, broken);
    if p.phase.Gated? && Tracked(s.live, k, d) {
      OpenGateSeesDependency(s, p.work, k, d);
    }
  }

  lemma GateNoClaim(s: State, k: Key, broken: bool, j: Key, d: Key)
    requires Enabled(s, Gate(k, broken)) && j != k
    ensures NoNewClaim(s, Step(s, Gate(k, broken)), j, d)
  {
  }

  lemma GateKeepsInv(s: State, k: Key, broken: bool)
    requires Inv(s) && Enabled(s, Gate(k, broken))
    ensures Inv(Step(s, Gate(k, broken)))
  {
    var t := Step(s, Gate(k, broken));
    assert KeyOk(s, k);
    if t.passes[k].phase.Gated? {
      OpenGateHasDependencies(s, t.passes[k].work);
    }
    GateKeepsKey(s, k, broken);
    forall j, d
      ensures NoNewClaim(s, t, j, d) || PairOk(t, j, d)
    {
      if j == k {
        assert KeyOk(s, d) && PairOk(s, k, d);
        GateKeepsPair(s, k, broken, d);
      } else {
        GateNoClaim(s, k, broken, j, d);
      }
    }
    InvFromFrames(s, t, k);
  }

  /** The status a pass writes is consistent and moves the component forward. */
  lemma FinalStatusOk(s: State, k: Key, done: bool)
    requires KeyOk(s, k) && HistoriesOk(s) && Enabled(s, Finish(k, done))
    ensures StatusOk(HistOf(s, k), FinalStatus(s.passes[k], done))
  {
    NoVersionNowhere(HistOf(s, k));
  }

  lemma FinalStatusAdvances(s: State, k: Key, done: bool)
    requires KeyOk(s, k) && HistoriesOk(s) && Enabled(s, Finish(k, done))
    ensures StatusOk(HistOf(s, k), FinalStatus(s.passes[k], done))
    ensures NotBehind(HistOf(s, k), s.live[k].status, FinalStatus(s.passes[k], done))
    ensures FinalStatus(s.passes[k], done).applied ==
      if s.passes[k].phase.Gated? && done then Recorded(s.passes[k].work.status) else s.live[k].status.applied
  {
    FinalStatusOk(s, k, done);
  }

  lemma FinishKeepsKey(s: State, k: Key, done: bool)
    requires KeyOk(s, k) && HistoriesOk(s) && Enabled(s, Finish(k, done))
    ensures KeyOk(Step(s, Finish(k, done)), k)
  {
    FinalStatusAdvances(s, k, done);
  }

  /** Other components gain nothing but a dependency that may have moved on. */
  lemma FinishNoClaim(s: State, k: Key, done: bool, j: Key, d: Key)
    requires KeyOk(s, k) && HistoriesOk(s) && Enabled(s, Finish(k, done)) && j != k
    ensures NoNewClaim(s, Step(s, Finish(k, done)), j, d)
  {
    FinalStatusAdvances(s, k, done);
  }

  /** What `k` now claims to have applied, the gate has vouched for. */
  lemma FinishKeepsPair(s: State, k: Key, done: bool, d: Key)
    requires KeyOk(s, k) && HistoriesOk(s) && Enabled(s, Finish(k, done)) && PairOk(s, k, d)
    ensures PairOk(Step(s, Finish(k, done)), k, d)
  {
    FinalStatusAdvances(s, k, done);
    var t := Step(s, Finish(k, done));
    assert k !in t.passes;
    if Tracked(t.live, k, d) {
      assert Tracked(s.live, k, d) && HistOf(t, k) == HistOf(s, k);
    }
  }

  lemma FinishKeepsInv(s: State, k: Key, done: bool)
    requires Inv(s) && Enabled(s, Finish(k, done))
    ensures Inv(Step(s, Finish(k, done)))
  {
    var t := Step(s, Finish(k, done));
    assert KeyOk(s, k);
    FinishKeepsKey(s, k, done);
    forall j, d
      ensures NoNewClaim(s, t, j, d) || PairOk(t, j, d)
    {
      if j == k {
        assert PairOk(s, k, d);
        FinishKeepsPair(s, k, done, d);
      } else {
        FinishNoClaim(s, k, done, j, d);
      }
    }
    InvFromFrames(s, t, k);
  }

  lemma QueueDoesNotMatter(s: State, t: State)
    requires Inv(s) && t.live == s.live && t.cached == s.cached && t.passes == s.passes && t.sources == s.sources
    ensures Inv(t)
  {
    var k: Key :| true;
    assert KeyOk(s, k);
    KeyFrame(s, t, k);
    InvFromFrames(s, t, k);
  }

  lemma StepKeepsInv(s: State, e: Event)
    requires Inv(s) && Enabled(s, e) && IsNew(s, e)
    ensures Inv(Step(s, e))
  {
    match e
    case Publish(source, o) => PublishKeepsInv(s, source, o);
    case Create(c) => CreateKeepsInv(s, c);
    case Edit(k, spec) => EditKeepsInv(s, k, spec);
    case Observe(k) => ObserveKeepsInv(s, k);
    case Start(k, since, at) => StartKeepsInv(s, k, since, at);
    case Gate(k, broken) => GateKeepsInv(s, k, broken);
    case Finish(k, done) => FinishKeepsInv(s, k, done);
    case Announce(_) => QueueDoesNotMatter(s, Step(s, e));
    case Requeue(_) => QueueDoesNotMatter(s, Step(s, e));
  }

  // ---------------------------------------------------------------- over whole runs

  /** Components nobody has reconciled yet; sources may have any history. */
  ghost predicate Initial(s: State) {
    && HistoriesOk(s) && WellKeyed(s.live) && s.passes == map[]
    && (forall k | k in s.live :: IsFresh(s.live[k].status))
    && (forall k | k in s.cached :: k in s.live && s.cached[k] == s.live[k])
  }

  lemma InitialInv(s: State)
    requires Initial(s)
    ensures Inv(s)
  {
    forall k
      ensures KeyOk(s, k)
    {
      if k in s.live { NoVersionNowhere(HistOf(s, k)); }
    }
    forall k, d
      ensures PairOk(s, k, d)
    {
      if k in s.live { NoVersionNowhere(HistOf(s, k)); }
    }
  }

  /** No source of the run ever goes back to a version it has offered before. */
  ghost predicate AllNew(s: State, run: seq<Event>)
    requires ValidRun(s, run)
    decreases |run|
  {
    run == [] || (IsNew(s, run[0]) && AllNew(Step(s, run[0]), run[1..]))
  }

  lemma {:induction false} RunKeepsInv(s: State, run: seq<Event>)
    requires Inv(s) && ValidRun(s, run) && AllNew(s, run)
    ensures Inv(After(s, run))
    decreases |run|
  {
    if run != [] {
      StepKeepsInv(s, run[0]);
      RunKeepsInv(Step(s, run[0]), run[1..]);
    }
  }

  ghost predicate TrackedPath(cs: Components, w: seq<Key>) {
    |w| > 0 && w[0] in cs && forall i | 0 <= i < |w| - 1 :: Tracked(cs, w[i], w[i + 1])
  }

  lemma {:induction false} OrderAlongPath(s: State, w: seq<Key>)
    requires Inv(s) && TrackedPath(s.live, w)
    ensures w[|w| - 1] in s.live && s.live[w[|w| - 1]].Source() == s.live[w[0]].Source()
    ensures Pos(HistOf(s, w[0]), s.live[w[0]].status.applied) <= Pos(HistOf(s, w[0]), s.live[w[|w| - 1]].status.applied)
    decreases |w|
  {
    if |w| > 1 {
      assert Tracked(s.live, w[0], w[1]) && PairOk(s, w[0], w[1]);
      forall i | 0 <= i < |w[1..]| - 1
        ensures Tracked(s.live, w[1..][i], w[1..][i + 1])
      {
        assert Tracked(s.live, w[i + 1], w[i + 2]);
      }
      OrderAlongPath(s, w[1..]);
    }
  }

  /**
   In every reachable state, along every path of same-source dependencies, the version applied
   at the start of the path is no newer than the one applied at its end.
   */
  lemma VersionOrder(s: State, run: seq<Event>, w: seq<Key>)
    requires Initial(s) && ValidRun(s, run) && AllNew(s, run) && TrackedPath(After(s, run).live, w)
    ensures var t, z := After(s, run), w[|w| - 1];
      && z in t.live
      && Pos(HistOf(t, w[0]), t.live[w[0]].status.applied) <= Pos(HistOf(t, w[0]), t.live[z].status.applied)
  {
    InitialInv(s);
    RunKeepsInv(s, run);
    OrderAlongPath(After(s, run), w);
  }
}
