/**
 What being ready means: whatever sources offer and whoever is sticky, a ready component has
 applied a version its source has offered, and all its dependencies exist.
 */
module RolloutReadiness {
  import opened Options
  import opened Api
  import opened Hooks
  import opened Graphs
  import opened Rollout
  import W = RolloutWakeups

  ghost function HistOf(s: State, k: Key): History
    requires k in s.live
  {
    Hist(s, s.live[k].Source())
  }

  /** Every version a status mentions is none or one the source has offered. */
  ghost predicate StatusKnown(h: History, st: Status) {
    Known(h, st.applied) && Known(h, st.attempted) && (st.sourceRef.Some? ==> Known(h, Recorded(st)))
  }

  ghost predicate Genuine(s: State, k: Key) {
    k in s.live ==>
      && StatusKnown(HistOf(s, k), s.live[k].status)
      && (s.live[k].status.ready ==> s.live[k].status.applied == s.live[k].status.attempted != NO_VERSION)
      && (k in s.passes ==> PassGenuine(HistOf(s, k), s.live[k], s.passes[k]))
  }

  ghost predicate PassGenuine(h: History, c: Component, p: Pass) {
    && StatusKnown(h, p.work.status) && p.work.status.sourceRef.Some? && Recorded(p.work.status) != NO_VERSION
    && p.work.status.applied == c.status.applied
    && (p.phase.Gated? ==> p.work.status.attempted == Recorded(p.work.status))
  }

  /** Recorded versions are none of the empty ones. */
  ghost predicate RecordedFilled(s: State, k: Key) {
    k in s.live && s.live[k].status.sourceRef.Some? ==> Recorded(s.live[k].status) != NO_VERSION
  }

  /** What has been applied, or is allowed to be, has all its dependencies in the store. */
  ghost predicate Rooted(s: State, k: Key) {
    k in s.live && (s.live[k].status.applied != NO_VERSION || (k in s.passes && s.passes[k].phase.Gated?)) ==>
      s.live[k].DependencyKeys() <= s.live.Keys
  }

  ghost predicate KeyOk(s: State, k: Key) {
    Genuine(s, k) && RecordedFilled(s, k) && Rooted(s, k)
  }

  lemma StillKnown(s: State, e: Event, k: Key, v: Version)
    requires Enabled(s, e) && k in s.live && Known(HistOf(s, k), v)
    ensures k in Step(s, e).live && Known(HistOf(Step(s, e), k), v)
  {
    if e.Publish? && e.source == s.live[k].Source() {
      PosAppend(HistOf(s, k), e.offer, v);
    }
  }

  lemma StatusStillKnown(s: State, e: Event, k: Key, st: Status)
    requires Enabled(s, e) && k in s.live && StatusKnown(HistOf(s, k), st)
    ensures k in Step(s, e).live && StatusKnown(HistOf(Step(s, e), k), st)
  {
    StillKnown(s, e, k, st.applied);
    StillKnown(s, e, k, st.attempted);
    if st.sourceRef.Some? { StillKnown(s, e, k, Recorded(st)); }
  }

  lemma LastIsKnown(h: History)
    requires h != []
    ensures Known(h, OfferedVersion(h[|h| - 1]))
  {
  }

  lemma OpenGateIsRooted(s: State, c: Component)
    requires (forall k :: W.Sound(s, k)) && GateOpen(s.cached, c)
    ensures c.DependencyKeys() <= s.live.Keys
  {
    forall d | d in c.DependencyKeys()
      ensures d in s.live
    {
      var i :| 0 <= i < |c.spec.dependencies| && c.DependencyKey(c.spec.dependencies[i]) == d;
      assert Satisfied(s.cached, c, c.spec.dependencies[i]) && W.Sound(s, d);
    }
  }

  lemma StartKeeps(s: State, k: Key, since: Option<int>, at: int)
    requires W.Filled(s) && KeyOk(s, k) && Enabled(s, Start(k, since, at))
    ensures KeyOk(Step(s, Start(k, since, at)), k)
  {
    var h := HistOf(s, k);
    if h != [] { LastIsKnown(h); }
  }

  lemma GateKeeps(s: State, k: Key, broken: bool)
    requires W.Inv(s) && KeyOk(s, k) && Enabled(s, Gate(k, broken))
    ensures KeyOk(Step(s, Gate(k, broken)), k)
  {
    assert W.Awake(s, k);
    var p := GatePass(s.passes[k], s.cached, broken);
    if p.phase.Gated? {
      forall j ensures W.Sound(s, j) { assert W.Awake(s, j); }
      OpenGateIsRooted(s, p.work);
      assert p.work.DependencyKeys() == s.live[k].DependencyKeys();
    }
  }

  lemma FinishKeeps(s: State, k: Key, done: bool)
    requires KeyOk(s, k) && Enabled(s, Finish(k, done))
    ensures KeyOk(Step(s, Finish(k, done)), k)
  {
  }

  /** Steps about other components and sources. */
  lemma OtherKeeps(s: State, e: Event, k: Key)
    requires KeyOk(s, k) && W.Sound(s, k) && Enabled(s, e)
    requires (e.Start? || e.Gate? || e.Finish?) ==> e.key != k
    ensures KeyOk(Step(s, e), k)
  {
    if k in s.live {
      StatusStillKnown(s, e, k, s.live[k].status);
      if k in s.passes { StatusStillKnown(s, e, k, s.passes[k].work.status); }
    }
  }

  lemma StepKeeps(s: State, e: Event, k: Key)
    requires W.Inv(s) && KeyOk(s, k) && Enabled(s, e)
    ensures KeyOk(Step(s, e), k)
  {
    if e.Start? && e.key == k {
      StartKeeps(s, k, e.since, e.at);
    } else if e.Gate? && e.key == k {
      GateKeeps(s, k, e.broken);
    } else if e.Finish? && e.key == k {
      FinishKeeps(s, k, e.done);
    } else {
      assert W.Awake(s, k);
      OtherKeeps(s, e, k);
    }
  }

  lemma {:induction false} RunKeeps(s: State, run: seq<Event>, k: Key)
    requires W.Inv(s) && KeyOk(s, k) && ValidRun(s, run)
    ensures KeyOk(After(s, run), k)
    decreases |run|
  {
    if run != [] {
      W.StepKeepsInv(s, run[0]);
      StepKeeps(s, run[0], k);
      RunKeeps(Step(s, run[0]), run[1..], k);
    }
  }

  /** From components nobody has reconciled, in every reachable state. */
  lemma ReadyMeansApplied(s: State, run: seq<Event>, k: Key)
    requires W.Untried(s) && ValidRun(s, run)
    requires k in After(s, run).live && After(s, run).live[k].IsReady()
    ensures var t := After(s, run); var c := t.live[k];
      && c.status.applied == c.status.attempted
      && (exists i :: 0 <= i < |HistOf(t, k)| && OfferedVersion(HistOf(t, k)[i]) == c.status.applied)
      && c.DependencyKeys() <= t.live.Keys
  {
    W.UntriedIsRestarted(s);
    W.RestartedInv(s);
    RunKeeps(s, run, k);
    var t := After(s, run);
    var p := Pos(HistOf(t, k), t.live[k].status.applied);
    assert OfferedVersion(HistOf(t, k)[p]) == t.live[k].status.applied;
  }

  // ---------------------------------------------------------------- pins

  /**
   What a ready status of the current generation has attempted, and what a pass may apply, is what
   the spec asks for. A pass may work on an older spec, of an older generation then.
   */
  ghost predicate PinsOk(s: State, k: Key) {
    k in s.live ==>
      var c := s.live[k];
      && (c.status.ready ==>
            && c.status.observedGeneration <= c.generation
            && (c.status.observedGeneration == c.generation ==> MatchesPins(c.spec, c.status.attempted)))
      && (k in s.passes ==>
            var p := s.passes[k];
            && p.work.generation <= c.generation && (p.work.generation == c.generation ==> p.work.spec == c.spec)
            && (!p.phase.Rejected? ==> MatchesPins(p.work.spec, Recorded(p.work.status)))
            && (p.phase.Gated? ==> p.work.status.attempted == Recorded(p.work.status)))
  }

  lemma StepKeepsPins(s: State, e: Event, k: Key)
    requires PinsOk(s, k) && Enabled(s, e) && W.Sound(s, k)
    ensures PinsOk(Step(s, e), k)
  {
  }

  lemma {:induction false} RunKeepsPins(s: State, run: seq<Event>, k: Key)
    requires W.Inv(s) && PinsOk(s, k) && ValidRun(s, run)
    ensures PinsOk(After(s, run), k)
    decreases |run|
  {
    if run != [] {
      W.StepKeepsInv(s, run[0]);
      assert W.Awake(s, k);
      StepKeepsPins(s, run[0], k);
      RunKeepsPins(Step(s, run[0]), run[1..], k);
    }
  }

  /**
   However specs are edited while passes are under way, in every reachable state a component that
   is ready, in its present generation, is at a version its present pins ask for.
   */
  lemma ReadyMeansPinned(s: State, run: seq<Event>, k: Key)
    requires W.Untried(s) && ValidRun(s, run) && k in After(s, run).live
    requires var c := After(s, run).live[k]; c.status.ready && c.status.observedGeneration == c.generation
    ensures var c := After(s, run).live[k];
      && c.spec.digest in {"", c.status.applied.digest} && c.spec.revision in {"", c.status.applied.revision}
  {
    W.UntriedIsRestarted(s);
    W.RestartedInv(s);
    RunKeepsPins(s, run, k);
    ReadyMeansApplied(s, run, k);
  }

  // ---------------------------------------------------------------- one pass, whatever happens meanwhile

  /** Once the gate has been read, a pass and the status it is going to replace stay until it finishes. */
  lemma {:induction false} PassWaits(s: State, run: seq<Event>, k: Key)
    requires k in s.live && k in s.passes && !s.passes[k].phase.Loaded?
    requires ValidRun(s, run) && forall e | e in run :: e.Finish? ==> e.key != k
    ensures var t := After(s, run);
      k in t.live && k in t.passes && t.passes[k] == s.passes[k] && t.live[k].status == s.live[k].status
    decreases |run|
  {
    if run != [] {
      assert run[0] in run;
      assert forall e | e in run[1..] :: e in run;
      PassWaits(Step(s, run[0]), run[1..], k);
    }
  }

  /**
   Whatever happens between the reading of the gate and the end of the pass: the component becomes
   ready exactly if all went well and the cache showed every dependency ready and, behind the same
   reference, at the loaded version. Then it has applied what it had loaded; otherwise it stays at
   what it had applied, and is queued again if the gate could not be read.
   */
  lemma GateDecides(s: State, k: Key, broken: bool, run: seq<Event>, done: bool)
    requires KeyOk(s, k) && k in s.live && Enabled(s, Gate(k, broken))
    requires ValidRun(Step(s, Gate(k, broken)), run) && forall e | e in run :: e.Finish? ==> e.key != k
    ensures Enabled(After(Step(s, Gate(k, broken)), run), Finish(k, done))
    ensures var t := Step(After(Step(s, Gate(k, broken)), run), Finish(k, done));
      var loaded := Recorded(s.passes[k].work.status);
      && (t.live[k].status.ready <==> done && !broken && forall d | d in s.passes[k].work.DependencyKeys() ::
            && d in s.cached
            && s.cached[d].status.ready && s.cached[d].status.observedGeneration == s.cached[d].generation
            && (s.cached[d].spec.sourceRef == s.passes[k].work.spec.sourceRef ==>
                  && s.cached[d].status.attempted == loaded && loaded.digest != "" && loaded.revision != ""))
      && t.live[k].status.applied == (if t.live[k].status.ready then loaded else s.live[k].status.applied)
      && (broken ==> k in t.queue)
  {
    var g := Step(s, Gate(k, broken));
    GateOpenExactly(s.cached, WithAttempted(s.passes[k].work, Recorded(s.passes[k].work.status)));
    PassWaits(g, run, k);
  }
}
