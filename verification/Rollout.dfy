/**
 Rolling out new source versions over interdependent components: passes of the component
 reconciler (hooks in the order wired at internal/controllers/component/reconciler.go lines
 79-87), event handlers and sources, as a transition system. Passes are not atomic, several run
 at once, the informer cache lags behind the store, and source events arrive late and merged.
 */
module Rollout {
  import opened Options
  import opened Names
  import opened Api
  import opened SourceLoading
  import opened Hooks
  import opened Handlers
  import opened Graphs

  type History = seq<SourceStatus>

  /** Loaded: before the gate. Rejected: to be retried. Gated: allowed to apply. Refused: held back by a dependency. */
  datatype Phase = Loaded | Rejected | Gated | Refused

  /** A pass works on its own copy of the component. */
  datatype Pass = Pass(work: Component, phase: Phase)

  /**
   `live` is the API server, `cached` the informer cache, `sources` everything a source has
   offered so far, `pending` the sources with an undelivered event.
   */
  datatype State = State(
    live: Components,
    cached: Components,
    passes: map<Key, Pass>,
    queue: set<Key>,
    sources: map<SourceRef, History>,
    pending: set<SourceRef>)

  datatype Event =
    | Publish(source: SourceRef, offer: SourceStatus)         // the source changes
    | Announce(source: SourceRef)                             // its event is handled, or a poll
    | Create(component: Component)
    | Edit(key: Key, spec: Spec)                              // source, dependencies and stickiness stay
    | Observe(key: Key)                                       // the informer catches up with one component
    | Requeue(key: Key)                                       // any timer
    | Start(key: Key, since: Option<int>, at: int)            // Load and PostRead
    | Gate(key: Key, broken: bool)                            // PreReconcile; broken: a failing cache read
    | Finish(key: Key, done: bool)                            // status is written; done: everything applied and ready

  // ---------------------------------------------------------------- steps

  function Hist(s: State, source: SourceRef): History {
    if source in s.sources then s.sources[source] else []
  }

  function OfferedVersion(o: SourceStatus): Version { VersionOf(o.artifact) }

  /** The version in the recorded source reference. */
  function Recorded(st: Status): Version {
    if st.sourceRef.Some? then OfferedVersion(st.sourceRef.value) else NO_VERSION
  }

  predicate SameIdentity(a: Component, b: Component) {
    && a.namespace == b.namespace && a.name == b.name
    && a.spec.sourceRef == b.spec.sourceRef
    && a.spec.dependencies == b.spec.dependencies && a.spec.sticky == b.spec.sticky
  }

  function WithTimes(c: Component, since: Option<int>, at: int): Component {
    c.(status := c.status.(processingSince := since, lastObservedAt := at))
  }

  function CurrentOffer(h: History): Option<SourceStatus> {
    if h == [] then None else Some(h[|h| - 1])
  }

  ghost predicate Enabled(s: State, e: Event) {
    match e
    case Publish(source, o) => o.artifact.digest != "" && o.artifact.revision != ""
    case Announce(source) => Hist(s, source) != []
    case Create(c) => IsObjectName(c.Key()) && c.Key() !in s.live && IsFresh(c.status)
    case Edit(k, spec) => k in s.live && SameIdentity(s.live[k], s.live[k].(spec := spec))
    case Observe(k) => k in s.live
    case Requeue(k) => k in s.cached
    case Start(k, since, at) =>
      && k in s.queue && k in s.cached && k in s.live && k !in s.passes
      && LoadStep(WithTimes(s.live[k], since, at), CurrentOffer(Hist(s, s.live[k].Source()))).1.Some?
    case Gate(k, _) => k in s.passes && s.passes[k].phase.Loaded?
    case Finish(k, _) => k in s.passes && !s.passes[k].phase.Loaded? && k in s.live
  }

  /** What the handler for `source` wakes; HTTP sources are polled. */
  ghost function Woken(s: State, source: SourceRef): set<Key>
    requires Hist(s, source) != []
  {
    var v := OfferedVersion(CurrentOffer(Hist(s, source)).value);
    if source.HttpRepository? then WokenByPoll(s.cached, source, v) else WokenBySource(s.cached, source, v)
  }

  function StartPass(c: Component, since: Option<int>, at: int, h: History): Pass {
    var work := LoadStep(WithTimes(c, since, at), CurrentOffer(h)).0;
    Pass(work, if MatchesPins(c.spec, Recorded(work.status)) then Loaded else Rejected)
  }

  ghost function GatePass(p: Pass, cached: Components, broken: bool): Pass {
    var work := WithAttempted(p.work, Recorded(p.work.status));
    Pass(work, if broken then Rejected else if GateOpen(cached, work) then Gated else Refused)
  }

  /** The status a pass leaves behind. */
  function FinalStatus(p: Pass, done: bool): Status {
    if p.phase.Gated? && done then
      WithApplied(p.work).status.(ready := true, observedGeneration := p.work.generation)
    else p.work.status.(ready := false, observedGeneration := p.work.generation)
  }

  ghost function Step(s: State, e: Event): State
    requires Enabled(s, e)
  {
    match e
    case Publish(source, o) =>
      s.(sources := s.sources[source := Hist(s, source) + [o]], pending := s.pending + {source})
    case Announce(source) => s.(queue := s.queue + Woken(s, source), pending := s.pending - {source})
    case Create(c) => s.(live := s.live[c.Key() := c])
    case Edit(k, spec) => s.(live := s.live[k := s.live[k].(spec := spec, generation := s.live[k].generation + 1)])
    case Observe(k) => // the first sight is a Create event, which wakes nobody else
      var cached := s.cached[k := s.live[k]];
      s.(cached := cached,
         queue := s.queue + (if k in s.cached then WokenByUpdate(cached, s.live[k]) else {})
           + (if k !in s.cached || s.cached[k].generation != s.live[k].generation then {k} else {}))
    case Requeue(k) => s.(queue := s.queue + {k})
    case Start(k, since, at) =>
      s.(queue := s.queue - {k}, passes := s.passes[k := StartPass(s.live[k], since, at, Hist(s, s.live[k].Source()))])
    case Gate(k, broken) => s.(passes := s.passes[k := GatePass(s.passes[k], s.cached, broken)])
    case Finish(k, done) =>
      var p := s.passes[k];
      s.(live := s.live[k := s.live[k].(status := FinalStatus(p, done))],
         passes := s.passes - {k},
         queue := s.queue + if p.phase.Rejected? || (p.phase.Gated? && !done) then {k} else {})
  }

  ghost predicate ValidRun(s: State, run: seq<Event>)
    decreases |run|
  {
    run == [] || (Enabled(s, run[0]) && ValidRun(Step(s, run[0]), run[1..]))
  }

  ghost function After(s: State, run: seq<Event>): State
    requires ValidRun(s, run)
    decreases |run|
  {
    if run == [] then s else After(Step(s, run[0]), run[1..])
  }

  lemma Prepend(s: State, e: Event, rest: seq<Event>)
    requires Enabled(s, e) && ValidRun(Step(s, e), rest)
    ensures ValidRun(s, [e] + rest) && After(s, [e] + rest) == After(Step(s, e), rest)
  {
    assert ([e] + rest)[1..] == rest;
  }

  lemma {:induction false} JoinRuns(s: State, run: seq<Event>, rest: seq<Event>)
    requires ValidRun(s, run) && ValidRun(After(s, run), rest)
    ensures ValidRun(s, run + rest) && After(s, run + rest) == After(After(s, run), rest)
    decreases |run|
  {
    if run == [] {
      assert run + rest == rest;
    } else {
      JoinRuns(Step(s, run[0]), run[1..], rest);
      Prepend(s, run[0], run[1..] + rest);
      assert run + rest == [run[0]] + (run[1..] + rest);
    }
  }

  // ---------------------------------------------------------------- positions in a history

  ghost predicate HistoryOk(h: History) {
    && (forall i | 0 <= i < |h| :: h[i].artifact.digest != "" && h[i].artifact.revision != "")
    && (forall i, j | 0 <= i < j < |h| :: OfferedVersion(h[i]) != OfferedVersion(h[j]))
  }

  /** Where a version stands in the history of its source; -1 when it does not occur. */
  ghost function Pos(h: History, v: Version): (p: int)
    ensures -1 <= p < |h|
    ensures p >= 0 ==> OfferedVersion(h[p]) == v
    ensures p == -1 ==> forall i | 0 <= i < |h| :: OfferedVersion(h[i]) != v
    decreases |h|
  {
    if h == [] then -1
    else if OfferedVersion(h[|h| - 1]) == v then |h| - 1
    else Pos(h[..|h| - 1], v)
  }

  lemma PosAppend(h: History, o: SourceStatus, v: Version)
    ensures Pos(h + [o], v) == if OfferedVersion(o) == v then |h| else Pos(h, v)
  {
    assert (h + [o])[..|h|] == h;
  }

  /** A version some status may mention: none, or one the source has offered. */
  ghost predicate Known(h: History, v: Version) {
    v == NO_VERSION || Pos(h, v) >= 0
  }

  /** Applied lags attempted lags recorded, and ready means that what was attempted is applied. */
  ghost predicate StatusOk(h: History, st: Status) {
    && Known(h, st.applied) && Known(h, st.attempted)
    && (st.sourceRef.Some? ==> Pos(h, Recorded(st)) >= 0)
    && Pos(h, st.applied) <= Pos(h, st.attempted) <= Pos(h, Recorded(st))
    && (st.ready ==> st.applied == st.attempted && st.attempted != NO_VERSION)
  }

  ghost predicate NotBehind(h: History, older: Status, newer: Status) {
    && Pos(h, older.applied) <= Pos(h, newer.applied)
    && Pos(h, older.attempted) <= Pos(h, newer.attempted)
    && Pos(h, Recorded(older)) <= Pos(h, Recorded(newer))
  }
}
