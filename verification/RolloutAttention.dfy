/**
 When no source update is lost: versions that are never offered twice, caches that have caught
 up, and sources that do not change. With them the progress of rollouts holds without looking at
 single steps, for sticky components too.
 */
module RolloutAttention {
  import opened Options
  import opened Api
  import opened ComponentIndex
  import opened Graphs
  import opened Rollout
  import opened RolloutWakeups
  import Order = RolloutOrder

  // ---------------------------------------------------------------- one announcement

  /** The handler reads the cached status: letting a component sleep is right exactly if that status is up to date. */
  lemma SkippingLosesExactly(s: State, source: SourceRef, k: Key)
    requires Sound(s, k) && Enabled(s, Announce(source)) && Skipped(s, source, k)
    ensures Attentive(s, Announce(source), k) <==> s.cached[k].status.attempted == VersionAt(s, k)
  {
    assert k in Users(s.cached, source);
  }

  /**
   Versions that are never offered twice need no such look: a component the handler lets sleep
   has the current version although the handler saw an old copy of it.
   */
  lemma SleeperIsCurrent(s: State, source: SourceRef, k: Key)
    requires Order.KeyOk(s, k) && Order.HistoriesOk(s) && Enabled(s, Announce(source))
    ensures Attentive(s, Announce(source), k)
  {
    if Skipped(s, source, k) {
      var h := Hist(s, source);
      assert k in Users(s.cached, source);
      assert s.cached[k].status.attempted == OfferedVersion(h[|h| - 1]);
      Order.CurrentIsLast(h);
      assert Pos(h, VersionAt(s, k)) == |h| - 1;
    }
  }

  // ---------------------------------------------------------------- new versions

  /** No pass of `k` starts pinned to an old version while no event of its source is to come. */
  ghost predicate NeverStale(s: State, run: seq<Event>, k: Key)
    requires ValidRun(s, run)
    decreases |run|
  {
    run == [] || ((run[0].Start? ==> Attentive(s, run[0], k)) && NeverStale(Step(s, run[0]), run[1..], k))
  }

  lemma {:induction false} NewVersionsAreNoticed(s: State, run: seq<Event>, k: Key)
    requires Order.Inv(s) && ValidRun(s, run) && Order.AllNew(s, run) && NeverStale(s, run, k)
    ensures AttentiveRun(s, run, k)
    decreases |run|
  {
    if run != [] {
      if run[0].Announce? {
        assert Order.KeyOk(s, k);
        SleeperIsCurrent(s, run[0].source, k);
      }
      Order.StepKeepsInv(s, run[0]);
      NewVersionsAreNoticed(Step(s, run[0]), run[1..], k);
    }
  }

  lemma UntriedIsInitial(s: State)
    requires Untried(s) && Order.HistoriesOk(s)
    ensures Order.Inv(s)
  {
    Order.InitialInv(s);
  }

  /** A component that is not sticky is never pinned. */
  lemma {:induction false} UnstickyIsNeverStale(s: State, run: seq<Event>, k: Key)
    requires ValidRun(s, run) && (k in s.live ==> !s.live[k].spec.sticky)
    requires forall i | 0 <= i < |run| && run[i].Create? && run[i].component.Key() == k :: !run[i].component.spec.sticky
    ensures NeverStale(s, run, k)
    decreases |run|
  {
    if run != [] {
      var t := Step(s, run[0]);
      assert k in t.live ==> !t.live[k].spec.sticky;
      forall i | 0 <= i < |run[1..]| && run[1..][i].Create? && run[1..][i].component.Key() == k
        ensures !run[1..][i].component.spec.sticky
      {
        assert run[i + 1].Create?;
      }
      UnstickyIsNeverStale(t, run[1..], k);
    }
  }

  // ---------------------------------------------------------------- fixed sources

  /** Outside the queue the component has the current version, events or not. */
  ghost predicate UpToDateNow(s: State, k: Key) {
    k in s.cached && k in s.live && k !in s.queue ==> AtCurrent(Hist(s, s.live[k].Source()), VersionAt(s, k))
  }

  /** What a sticky component may be pinned to is current. */
  ghost predicate PinCurrent(s: State, k: Key) {
    k in s.live && s.live[k].spec.sticky ==>
      var h := Hist(s, s.live[k].Source());
      && (s.live[k].status.sourceRef.Some? ==> AtCurrent(h, Recorded(s.live[k].status)))
      && (k in s.passes ==> AtCurrent(h, Recorded(s.passes[k].work.status)))
  }

  lemma FixedSourceStart(s: State, k: Key, since: Option<int>, at: int)
    requires Sound(s, k) && PinCurrent(s, k) && Enabled(s, Start(k, since, at))
    ensures var t := Step(s, Start(k, since, at));
      UpToDateNow(t, k) && PinCurrent(t, k) && Attentive(s, Start(k, since, at), k)
  {
  }

  /** A step that is no change of a source loses no update. */
  lemma FixedSourceStep(s: State, e: Event, k: Key)
    requires Sound(s, k) && UpToDateNow(s, k) && PinCurrent(s, k) && Enabled(s, e) && !e.Publish?
    ensures Attentive(s, e, k) && UpToDateNow(Step(s, e), k) && PinCurrent(Step(s, e), k)
  {
    match e
    case Start(j, since, at) => if j == k { FixedSourceStart(s, k, since, at); }
    case _ =>
  }

  lemma {:induction false} FixedSourcesLoseNothing(s: State, run: seq<Event>, k: Key)
    requires Inv(s) && UpToDateNow(s, k) && PinCurrent(s, k)
    requires ValidRun(s, run) && forall i | 0 <= i < |run| :: !run[i].Publish?
    ensures AttentiveRun(s, run, k) && UpToDateNow(After(s, run), k)
    decreases |run|
  {
    if run != [] {
      assert Awake(s, k) && !run[0].Publish?;
      FixedSourceStep(s, run[0], k);
      StepKeepsInv(s, run[0]);
      FixedSourcesLoseNothing(Step(s, run[0]), run[1..], k);
    }
  }

  lemma UntriedIsUpToDate(s: State)
    requires Untried(s)
    ensures Restarted(s) && forall k :: UpToDateNow(s, k) && PinCurrent(s, k)
  {
  }
}
