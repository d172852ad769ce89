/**
 Rollouts come to rest: between two changes from outside, any run of steps that succeed is
 finite on an acyclic graph, and until everything has come to rest there is such a step.
 */
module RolloutTermination {
  import opened Options
  import opened Api
  import opened ComponentIndex
  import opened Hooks
  import opened Handlers
  import opened Graphs
  import opened Rollout
  import W = RolloutWakeups
  import A = RolloutAttention
  import X = RolloutExactness

  // ---------------------------------------------------------------- sums

  ghost function Sum<T>(s: set<T>, f: T -> nat): nat {
    if s == {} then 0
    else
      var x :| x in s;
      f(x) + Sum(s - {x}, f)
  }

  lemma {:induction false} SumWithout<T>(s: set<T>, f: T -> nat, x: T)
    requires x in s
    ensures Sum(s, f) == f(x) + Sum(s - {x}, f)
    decreases |s|
  {
    var y :| y in s && Sum(s, f) == f(y) + Sum(s - {y}, f);
    if y != x {
      SumWithout(s - {y}, f, x);
      SumWithout(s - {x}, f, y);
      assert s - {x} - {y} == s - {y} - {x};
    }
  }

  lemma {:induction false} SumUnion<T>(a: set<T>, b: set<T>, f: T -> nat)
    ensures Sum(a + b, f) <= Sum(a, f) + Sum(b, f)
    decreases |b|
  {
    if x :| x in b {
      SumWithout(b, f, x);
      SumUnion(a, b - {x}, f);
      SumWithout(a + b, f, x);
      if x in a {
        assert a + (b - {x}) == a + b;
      } else {
        assert a + b - {x} == a + (b - {x});
      }
    } else {
      assert a + b == a;
    }
  }

  lemma SumSubset<T>(a: set<T>, b: set<T>, f: T -> nat)
    requires a <= b
    ensures Sum(a, f) <= Sum(b, f)
  {
    SumDisjoint(a, b - a, f);
    assert a + (b - a) == b;
  }

  lemma {:induction false} SumDisjoint<T>(a: set<T>, b: set<T>, f: T -> nat)
    requires a !! b
    ensures Sum(a + b, f) == Sum(a, f) + Sum(b, f)
    decreases |b|
  {
    if x :| x in b {
      SumWithout(b, f, x);
      SumDisjoint(a, b - {x}, f);
      SumWithout(a + b, f, x);
      assert a + b - {x} == a + (b - {x});
    } else {
      assert a + b == a;
    }
  }

  lemma {:induction false} SumSame<T>(s: set<T>, f: T -> nat, g: T -> nat)
    requires forall x | x in s :: f(x) == g(x)
    ensures Sum(s, f) == Sum(s, g)
    decreases |s|
  {
    if x :| x in s {
      SumWithout(s, f, x);
      SumWithout(s, g, x);
      SumSame(s - {x}, f, g);
    }
  }

  // ---------------------------------------------------------------- effort

  /**
   What a place in the queue costs at most (`wake`), what an observation of a component sets off
   (`spread`) and what an event of a source does (`news`).
   */
  datatype Prices = Prices(wake: Key -> nat, spread: Key -> nat, news: SourceRef -> nat)

  ghost predicate Cover(first: Components, p: Prices) {
    && (forall k :: Sum(Dependents(first, k), p.wake) <= p.spread(k))
    && (forall k | k in first :: p.wake(k) >= 4 + p.spread(k))
    && (forall source :: 1 + Sum(Users(first, source), p.wake) <= p.news(source))
  }

  ghost function PassCost(s: State, p: Prices, k: Key): nat {
    if k !in s.passes then 0
    else match s.passes[k].phase
      case Loaded => 3 + p.spread(k)
      case Gated => 2 + p.spread(k)
      case Refused => 2 + p.spread(k)
      case Rejected => 2 + p.spread(k) + p.wake(k)
  }

  ghost predicate Unseen(s: State, k: Key) {
    k in s.live && (k !in s.cached || s.cached[k] != s.live[k])
  }

  ghost predicate UnseenEdit(s: State, k: Key) {
    k in s.live && (k !in s.cached || s.cached[k].generation != s.live[k].generation)
  }

  ghost function SightCost(s: State, p: Prices, k: Key): nat {
    (if Unseen(s, k) then 1 + p.spread(k) else 0) + (if UnseenEdit(s, k) then p.wake(k) else 0)
  }

  ghost function PassEffort(s: State, p: Prices): nat { Sum(s.passes.Keys, k => PassCost(s, p, k)) }

  ghost function SightEffort(s: State, p: Prices): nat { Sum(s.live.Keys, k => SightCost(s, p, k)) }

  ghost function Effort(s: State, p: Prices): nat {
    Sum(s.queue, p.wake) + PassEffort(s, p) + SightEffort(s, p) + Sum(s.pending, p.news)
  }

  /** The same components with the same references and dependencies as in the beginning. */
  ghost predicate Same(first: Components, s: State) {
    && s.live.Keys == first.Keys
    && (forall k | k in first :: SameIdentity(first[k], s.live[k]))
    && (forall k | k in s.cached :: k in s.live && SameIdentity(s.cached[k], s.live[k]))
  }

  /** Steps that get something done; nothing changes from outside and nothing fails. */
  ghost predicate Effective(s: State, e: Event) {
    && Enabled(s, e)
    && match e
       case Announce(source) => source in s.pending
       case Observe(k) => Unseen(s, k)
       case Start(k, since, at) => StartPass(s.live[k], since, at, Hist(s, s.live[k].Source())).phase.Loaded?
       case Gate(_, broken) => !broken
       case Finish(k, done) => s.passes[k].phase.Gated? ==> done
       case _ => false
  }

  lemma PassesElsewhere(s: State, t: State, p: Prices, k: Key)
    requires forall j | j != k :: (j in t.passes <==> j in s.passes) && (j in s.passes ==> t.passes[j] == s.passes[j])
    ensures PassEffort(t, p) + PassCost(s, p, k) == PassEffort(s, p) + PassCost(t, p, k)
  {
    var f, g := (j: Key) => PassCost(s, p, j), (j: Key) => PassCost(t, p, j);
    if k in s.passes { SumWithout(s.passes.Keys, f, k); }
    if k in t.passes { SumWithout(t.passes.Keys, g, k); }
    var rest := s.passes.Keys - {k};
    assert t.passes.Keys - {k} == rest;
    assert k !in s.passes ==> s.passes.Keys == rest;
    assert k !in t.passes ==> t.passes.Keys == rest;
    SumSame(rest, f, g);
  }

  lemma SightsElsewhere(s: State, t: State, p: Prices, k: Key)
    requires k in s.live && t.live.Keys == s.live.Keys
    requires forall j | j in s.live && j != k :: SightCost(t, p, j) == SightCost(s, p, j)
    ensures SightEffort(t, p) + SightCost(s, p, k) == SightEffort(s, p) + SightCost(t, p, k)
  {
    var f, g := (j: Key) => SightCost(s, p, j), (j: Key) => SightCost(t, p, j);
    SumWithout(s.live.Keys, f, k);
    SumWithout(t.live.Keys, g, k);
    SumSame(s.live.Keys - {k}, f, g);
  }

  lemma PassesUntouched(s: State, t: State, p: Prices)
    requires t.passes == s.passes
    ensures PassEffort(t, p) == PassEffort(s, p)
  {
    SumSame(s.passes.Keys, k => PassCost(s, p, k), k => PassCost(t, p, k));
  }

  lemma SightsUntouched(s: State, t: State, p: Prices)
    requires t.live == s.live && t.cached == s.cached
    ensures SightEffort(t, p) == SightEffort(s, p)
  {
    SumSame(s.live.Keys, k => SightCost(s, p, k), k => SightCost(t, p, k));
  }

  lemma WokenUsers(first: Components, s: State, source: SourceRef)
    requires Same(first, s) && Hist(s, source) != []
    ensures Woken(s, source) <= Users(first, source)
  {
    forall k | k in s.cached
      ensures k in first && s.cached[k].Source() == first[k].Source()
    {
      assert SameIdentity(s.cached[k], s.live[k]) && SameIdentity(first[k], s.live[k]);
    }
  }

  lemma AnnounceSettles(first: Components, s: State, p: Prices, source: SourceRef)
    requires Same(first, s) && Cover(first, p) && Effective(s, Announce(source))
    ensures Effort(Step(s, Announce(source)), p) < Effort(s, p)
  {
    var t := Step(s, Announce(source));
    WokenUsers(first, s, source);
    SumSubset(Woken(s, source), Users(first, source), p.wake);
    SumUnion(s.queue, Woken(s, source), p.wake);
    SumWithout(s.pending, p.news, source);
    PassesUntouched(s, t, p);
    SightsUntouched(s, t, p);
  }

  lemma Singleton<T>(x: T, f: T -> nat)
    ensures Sum({x}, f) == f(x)
  {
    SumWithout({x}, f, x);
    assert {x} - {x} == {};
  }

  lemma WokenDependents(first: Components, s: State, k: Key)
    requires Same(first, s) && k in s.live && s.live[k].Key() == k
    ensures WokenByUpdate(s.cached[k := s.live[k]], s.live[k]) <= Dependents(first, k)
  {
  }

  /** An observation queues the dependents and, after an edit, the component itself. */
  lemma ObserveQueues(first: Components, s: State, p: Prices, k: Key)
    requires Same(first, s) && Cover(first, p) && Enabled(s, Observe(k)) && s.live[k].Key() == k
    ensures Sum(Step(s, Observe(k)).queue, p.wake) <=
      Sum(s.queue, p.wake) + p.spread(k) + if UnseenEdit(s, k) then p.wake(k) else 0
  {
    var woken: set<Key> := if k in s.cached then WokenByUpdate(s.cached[k := s.live[k]], s.live[k]) else {};
    var itself: set<Key> := if UnseenEdit(s, k) then {k} else {};
    WokenDependents(first, s, k);
    assert Step(s, Observe(k)).queue == s.queue + woken + itself;
    SumSubset(woken, Dependents(first, k), p.wake);
    SumUnion(s.queue, woken, p.wake);
    SumUnion(s.queue + woken, itself, p.wake);
    Singleton(k, p.wake);
  }

  lemma ObserveSettles(first: Components, s: State, p: Prices, k: Key)
    requires Same(first, s) && Cover(first, p) && Effective(s, Observe(k)) && s.live[k].Key() == k
    ensures Effort(Step(s, Observe(k)), p) < Effort(s, p)
  {
    var t := Step(s, Observe(k));
    ObserveQueues(first, s, p, k);
    ObserveSees(s, p, k);
    PassesUntouched(s, t, p);
  }

  lemma ObserveSees(s: State, p: Prices, k: Key)
    requires Effective(s, Observe(k))
    ensures SightEffort(s, p) ==
      SightEffort(Step(s, Observe(k)), p) + 1 + p.spread(k) + if UnseenEdit(s, k) then p.wake(k) else 0
  {
    SightsElsewhere(s, Step(s, Observe(k)), p, k);
  }

  lemma StartSettles(first: Components, s: State, p: Prices, k: Key, since: Option<int>, at: int)
    requires Same(first, s) && Cover(first, p) && Effective(s, Start(k, since, at))
    ensures Effort(Step(s, Start(k, since, at)), p) < Effort(s, p)
  {
    var t := Step(s, Start(k, since, at));
    SumWithout(s.queue, p.wake, k);
    PassesElsewhere(s, t, p, k);
    SightsUntouched(s, t, p);
  }

  lemma GateSettles(s: State, p: Prices, k: Key)
    requires Effective(s, Gate(k, false))
    ensures Effort(Step(s, Gate(k, false)), p) < Effort(s, p)
  {
    var t := Step(s, Gate(k, false));
    PassesElsewhere(s, t, p, k);
    SightsUntouched(s, t, p);
  }

  lemma FinishSettles(s: State, p: Prices, k: Key, done: bool)
    requires Effective(s, Finish(k, done))
    ensures Effort(Step(s, Finish(k, done)), p) < Effort(s, p)
  {
    var t := Step(s, Finish(k, done));
    PassesElsewhere(s, t, p, k);
    SightsElsewhere(s, t, p, k);
    if s.passes[k].phase.Rejected? {
      SumUnion(s.queue, {k}, p.wake);
      Singleton(k, p.wake);
    } else {
      assert t.queue == s.queue;
    }
  }

  lemma SameStep(first: Components, s: State, e: Event)
    requires Same(first, s) && Effective(s, e)
    requires W.Inv(Step(s, e))
    ensures Same(first, Step(s, e))
  {
    var t := Step(s, e);
    forall k | k in t.cached
      ensures k in t.live && SameIdentity(t.cached[k], t.live[k])
    {
      assert W.Awake(t, k);
    }
  }

  lemma EffortDecreases(first: Components, s: State, p: Prices, e: Event)
    requires W.Inv(s) && Same(first, s) && Cover(first, p) && Effective(s, e)
    ensures Effort(Step(s, e), p) < Effort(s, p)
  {
    match e
    case Announce(source) => AnnounceSettles(first, s, p, source);
    case Observe(k) => assert W.Awake(s, k); ObserveSettles(first, s, p, k);
    case Start(k, since, at) => StartSettles(first, s, p, k, since, at);
    case Gate(k, broken) => GateSettles(s, p, k);
    case Finish(k, done) => FinishSettles(s, p, k, done);
  }

  // ---------------------------------------------------------------- prices exist

  function Price(m: map<Key, nat>): Key -> nat {
    k => if k in m then m[k] else 0
  }

  /** Prices for some components, among them all dependents of those. */
  ghost predicate Priced(first: Components, m: map<Key, nat>) {
    && m.Keys <= first.Keys
    && forall k | k in m :: Dependents(first, k) <= m.Keys && m[k] >= 4 + Sum(Dependents(first, k), Price(m))
  }

  /** Without a cycle some component not priced yet has only dependents that are. */
  lemma NextToPrice(first: Components, m: map<Key, nat>) returns (k: Key)
    requires Priced(first, m) && m.Keys != first.Keys && Acyclic(GraphOf(first))
    ensures k in first && k !in m && Dependents(first, k) <= m.Keys
  {
    var g, rest := GraphOf(first), first.Keys - m.Keys;
    assert first.Keys == m.Keys + rest;
    if forall l {:trigger HasPredecessorIn(g, rest, l)} | l in rest :: HasPredecessorIn(g, rest, l) {
      var c := CycleFromPredecessors(g, rest);
      assert false;
    }
    k :| k in rest && !HasPredecessorIn(g, rest, k);
    forall d | d in Dependents(first, k)
      ensures d in m
    {
      assert Edge(g, d, k);
    }
  }

  lemma PriceOneMore(first: Components, m: map<Key, nat>) returns (n: map<Key, nat>)
    requires Priced(first, m) && m.Keys != first.Keys && Acyclic(GraphOf(first))
    ensures Priced(first, n) && m.Keys < n.Keys
  {
    var k := NextToPrice(first, m);
    n := m[k := 4 + Sum(Dependents(first, k), Price(m))];
    forall j | j in n
      ensures Dependents(first, j) <= n.Keys && n[j] >= 4 + Sum(Dependents(first, j), Price(n))
    {
      assert Dependents(first, j) <= m.Keys;
      SumSame(Dependents(first, j), Price(m), Price(n));
    }
  }

  lemma {:induction false} PriceAll(first: Components, m: map<Key, nat>) returns (n: map<Key, nat>)
    requires Priced(first, m) && Acyclic(GraphOf(first))
    ensures Priced(first, n) && n.Keys == first.Keys
    decreases first.Keys - m.Keys
  {
    n := m;
    if m.Keys != first.Keys {
      var next := PriceOneMore(first, m);
      assert first.Keys - next.Keys < first.Keys - m.Keys;
      n := PriceAll(first, next);
    }
  }

  lemma PricesExist(first: Components) returns (p: Prices)
    requires Acyclic(GraphOf(first))
    ensures Cover(first, p)
  {
    var m := PriceAll(first, map[]);
    var wake := Price(m);
    p := Prices(wake, k => Sum(Dependents(first, k), wake), source => 1 + Sum(Users(first, source), wake));
  }

  // ---------------------------------------------------------------- runs of effective steps

  ghost predicate AllEffective(s: State, run: seq<Event>)
    decreases |run|
  {
    run == [] || (Effective(s, run[0]) && AllEffective(Step(s, run[0]), run[1..]))
  }

  lemma {:induction false} EffortBoundsRun(first: Components, s: State, p: Prices, run: seq<Event>)
    requires W.Inv(s) && Same(first, s) && Cover(first, p) && AllEffective(s, run)
    ensures |run| <= Effort(s, p)
    decreases |run|
  {
    if run != [] {
      EffortDecreases(first, s, p, run[0]);
      W.StepKeepsInv(s, run[0]);
      SameStep(first, s, run[0]);
      EffortBoundsRun(first, Step(s, run[0]), p, run[1..]);
    }
  }

  lemma SameAtFirst(s: State)
    requires W.Inv(s)
    ensures Same(s.live, s)
  {
    forall k | k in s.cached
      ensures k in s.live && SameIdentity(s.cached[k], s.live[k])
    {
      assert W.Awake(s, k);
    }
  }

  /** On an acyclic graph the length of runs of effective steps is bounded: a rollout cannot go on for ever. */
  lemma RolloutTerminates(s: State) returns (bound: nat)
    requires W.Inv(s) && Acyclic(GraphOf(s.live))
    ensures forall run | AllEffective(s, run) :: |run| <= bound
  {
    var p := PricesExist(s.live);
    SameAtFirst(s);
    bound := Effort(s, p);
    forall run | AllEffective(s, run)
      ensures |run| <= bound
    {
      EffortBoundsRun(s.live, s, p, run);
    }
  }

  // ---------------------------------------------------------------- progress

  /**
   All sources have offered something that the components built from them accept, sticky ones are
   pinned to nothing older, and only known components are queued.
   */
  ghost predicate Servable(s: State) {
    && s.queue <= s.cached.Keys
    && (forall source | source in s.pending :: Hist(s, source) != [])
    && (forall k | k in s.live ::
          Hist(s, s.live[k].Source()) != [] && MatchesPins(s.live[k].spec, W.CurrentVersion(s, k)))
    && (forall k :: A.PinCurrent(s, k))
  }

  lemma QueuedStarts(s: State, k: Key)
    requires Servable(s) && k in s.queue && k !in s.passes && k in s.live
    ensures Effective(s, Start(k, None, 0))
  {
    assert A.PinCurrent(s, k);
  }

  /** Until a rollout has come to rest there is an effective step to take. */
  lemma NeverStuck(s: State) returns (e: Event)
    requires W.Inv(s) && Servable(s) && !W.Quiescent(s)
    ensures Effective(s, e)
  {
    if source :| source in s.pending {
      e := Announce(source);
    } else if k :| k in s.passes {
      assert W.Awake(s, k);
      e := if s.passes[k].phase.Loaded? then Gate(k, false) else Finish(k, true);
    } else if k :| k in s.queue {
      assert s.passes == map[];
      assert W.Awake(s, k);
      QueuedStarts(s, k);
      e := Start(k, None, 0);
    } else if k :| k in s.live && Unseen(s, k) {
      e := Observe(k);
    } else {
      assert s.pending == {} && s.queue == {};
      assert s.passes.Keys == {};
      CaughtUp(s);
      assert false;
    }
  }

  lemma CaughtUp(s: State)
    requires W.Inv(s) && forall k | k in s.live :: !Unseen(s, k)
    ensures s.cached == s.live
  {
    forall k | k in s.cached
      ensures k in s.live
    {
      assert W.Awake(s, k);
    }
    assert s.cached.Keys == s.live.Keys;
  }

  /** Effective steps change neither specs nor sources. */
  ghost predicate Steady(s: State, t: State) {
    && t.sources == s.sources && t.live.Keys == s.live.Keys
    && forall k | k in s.live :: t.live[k].namespace == s.live[k].namespace && t.live[k].spec == s.live[k].spec
  }

  lemma SteadyStep(s: State, e: Event)
    requires Effective(s, e)
    ensures Steady(s, Step(s, e))
  {
  }

  lemma QueueStep(s: State, e: Event)
    requires s.queue <= s.cached.Keys && Effective(s, e)
    requires e.Finish? ==> e.key in s.cached
    ensures Step(s, e).queue <= Step(s, e).cached.Keys
  {
  }

  lemma SteadyServable(s: State, t: State)
    requires Servable(s) && Steady(s, t) && t.queue <= t.cached.Keys && t.pending <= s.pending
    requires forall k :: A.PinCurrent(t, k)
    ensures Servable(t)
  {
    forall k | k in t.live
      ensures Hist(t, t.live[k].Source()) != [] && MatchesPins(t.live[k].spec, W.CurrentVersion(t, k))
    {
      assert k in s.live;
    }
  }

  /** Nobody waits for an event: queued or up to date. */
  ghost predicate AllUpToDate(s: State) {
    forall k :: A.UpToDateNow(s, k)
  }

  lemma StepStaysUpToDate(s: State, e: Event)
    requires W.Inv(s) && Servable(s) && AllUpToDate(s) && Effective(s, e)
    ensures AllUpToDate(Step(s, e)) && forall k :: A.PinCurrent(Step(s, e), k)
  {
    forall k
      ensures A.UpToDateNow(Step(s, e), k) && A.PinCurrent(Step(s, e), k)
    {
      assert W.Awake(s, k) && A.UpToDateNow(s, k) && A.PinCurrent(s, k);
      A.FixedSourceStep(s, e, k);
    }
  }

  lemma ServableStep(s: State, e: Event)
    requires W.Inv(s) && Servable(s) && AllUpToDate(s) && Effective(s, e)
    ensures W.Inv(Step(s, e)) && Servable(Step(s, e)) && AllUpToDate(Step(s, e)) && Steady(s, Step(s, e))
  {
    W.StepKeepsInv(s, e);
    SteadyStep(s, e);
    StepStaysUpToDate(s, e);
    if e.Finish? { assert W.Awake(s, e.key); }
    QueueStep(s, e);
    SteadyServable(s, Step(s, e));
  }

  /** What is known about the result of a run of effective steps. */
  lemma {:induction false} EffectiveRun(s: State, run: seq<Event>)
    requires W.Inv(s) && Servable(s) && AllUpToDate(s) && AllEffective(s, run)
    ensures ValidRun(s, run)
    ensures var t := After(s, run); W.Inv(t) && Servable(t) && AllUpToDate(t) && Steady(s, t)
    decreases |run|
  {
    if run != [] {
      ServableStep(s, run[0]);
      EffectiveRun(Step(s, run[0]), run[1..]);
    }
  }

  /** Whether a rollout can complete is not changed by effective steps. */
  lemma SteadyClaims(s: State, t: State)
    requires Steady(s, t)
    ensures X.CanComplete(t) <==> X.CanComplete(s)
  {
    forall k | k in s.live
      ensures t.live[k].DependencyKeys() == s.live[k].DependencyKeys()
      ensures W.CurrentVersion(t, k) == W.CurrentVersion(s, k)
    {
    }
    assert GraphOf(t.live) == GraphOf(s.live);
  }

  /** A rollout that can be served, in a state in which nobody waits for an event, such as a restart. */
  ghost predicate Serving(s: State) {
    W.Inv(s) && Servable(s) && AllUpToDate(s)
  }

  lemma RestartIsServing(s: State)
    requires W.Restarted(s) && Servable(s)
    ensures Serving(s)
  {
    W.RestartedInv(s);
  }

  ghost predicate Maximal(s: State, run: seq<Event>)
    requires ValidRun(s, run)
  {
    forall e :: !Effective(After(s, run), e)
  }

  /** A run of effective steps cannot be extended exactly if everything has come to rest. */
  lemma MaximalRunsRest(s: State, run: seq<Event>)
    requires Serving(s) && AllEffective(s, run)
    ensures ValidRun(s, run)
    ensures Maximal(s, run) <==> W.Quiescent(After(s, run))
  {
    EffectiveRun(s, run);
    var t := After(s, run);
    if !W.Quiescent(t) {
      var e := NeverStuck(t);
    }
  }

  lemma QuiescentIsAtRest(t: State)
    requires W.Inv(t) && AllUpToDate(t) && W.Quiescent(t)
    ensures W.AtRest(t)
  {
    forall k
      ensures W.Informed(t, k)
    {
      assert A.UpToDateNow(t, k);
    }
  }

  /**
   A rollout that can complete does: a run of effective steps that cannot be extended has every
   component ready at the current version of its source, whatever choices were made.
   */
  lemma MaximalRunsRollOut(s: State, run: seq<Event>)
    requires Serving(s) && X.CanComplete(s) && AllEffective(s, run)
    ensures ValidRun(s, run)
    ensures Maximal(s, run) ==> W.AllRolledOut(After(s, run))
  {
    MaximalRunsRest(s, run);
    EffectiveRun(s, run);
    if Maximal(s, run) {
      SteadyClaims(s, After(s, run));
      QuiescentIsAtRest(After(s, run));
      W.RestIsRolledOut(After(s, run));
    }
  }

  /** And there is such a run. */
  lemma RolloutCompletes(s: State) returns (run: seq<Event>)
    requires Serving(s) && X.CanComplete(s)
    ensures AllEffective(s, run) && ValidRun(s, run)
    ensures W.Quiescent(After(s, run)) && W.AllRolledOut(After(s, run))
  {
    var p := PricesExist(s.live);
    SameAtFirst(s);
    run := RunToRest(s.live, s, p);
    MaximalRunsRest(s, run);
    MaximalRunsRollOut(s, run);
  }

  lemma UntriedIsServing(s: State)
    requires W.Untried(s) && Servable(s)
    ensures Serving(s)
  {
    A.UntriedIsUpToDate(s);
    RestartIsServing(s);
  }

  lemma {:induction false} NoPublications(s: State, run: seq<Event>)
    requires AllEffective(s, run)
    ensures forall i | 0 <= i < |run| :: !run[i].Publish?
    decreases |run|
  {
    if run != [] {
      NoPublications(Step(s, run[0]), run[1..]);
      assert forall i | 0 < i < |run| :: run[i] == run[1..][i - 1];
    }
  }

  /**
   From components nobody has reconciled a run that cannot be extended is complete exactly if the
   rollout can complete.
   */
  lemma MaximalRunsExact(s: State, run: seq<Event>)
    requires W.Untried(s) && Servable(s) && AllEffective(s, run)
    ensures ValidRun(s, run)
    ensures Maximal(s, run) ==> (W.AllRolledOut(After(s, run)) <==> X.CanComplete(s))
  {
    UntriedIsServing(s);
    MaximalRunsRest(s, run);
    EffectiveRun(s, run);
    if Maximal(s, run) {
      NoPublications(s, run);
      X.RolloutExactForFixedSources(s, run);
      SteadyClaims(s, After(s, run));
    }
  }

  /** Some run of effective steps comes to rest. */
  lemma {:induction false} RunToRest(first: Components, s: State, p: Prices) returns (run: seq<Event>)
    requires Serving(s) && Same(first, s) && Cover(first, p)
    ensures AllEffective(s, run) && ValidRun(s, run) && W.Quiescent(After(s, run))
    decreases Effort(s, p)
  {
    if W.Quiescent(s) {
      run := [];
    } else {
      var e := NeverStuck(s);
      EffortDecreases(first, s, p, e);
      ServableStep(s, e);
      SameStep(first, s, e);
      var rest := RunToRest(first, Step(s, e), p);
      run := [e] + rest;
      assert run[1..] == rest;
    }
  }
}
