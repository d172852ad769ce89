/**
 The gate compares references before their namespaces are filled in
 (internal/controllers/component/hooks.go line 56, api/v1alpha1/types.go lines 232-239), so equal
 references of two namespaces are taken for the same source. A component whose dependency is built
 from another source behind an equal reference is held back for ever.
 */
module RolloutBlocked {
  import opened Options
  import opened Names
  import opened Api
  import opened Graphs
  import opened Rollout
  import opened RolloutTermination
  import W = RolloutWakeups

  /**
   If only the offers behind equal references differ, every run of steps that succeed ends, and at
   rest some component has not been rolled out.
   */
  lemma DifferentOffersBlock(s: State) returns (run: seq<Event>)
    requires W.Untried(s) && Servable(s) && Acyclic(GraphOf(s.live)) && !W.SameOffers(s)
    ensures AllEffective(s, run) && ValidRun(s, run) && W.Quiescent(After(s, run))
    ensures forall other | AllEffective(s, other) ::
      ValidRun(s, other) && (Maximal(s, other) ==> !W.AllRolledOut(After(s, other)))
  {
    UntriedIsServing(s);
    var p := PricesExist(s.live);
    SameAtFirst(s);
    run := RunToRest(s.live, s, p);
    forall other | AllEffective(s, other)
      ensures ValidRun(s, other) && (Maximal(s, other) ==> !W.AllRolledOut(After(s, other)))
    {
      MaximalRunsExact(s, other);
    }
  }

  function NewComponent(k: Key, source: SourceRef, dependencies: seq<Key>): Component {
    Component(k.ns, k.name, 1, false, Spec(source, "", "", false, None, None, dependencies),
      Status(0, false, None, NO_VERSION, NO_VERSION, None, 0))
  }

  /** A component and a dependency in another namespace, with the same reference to a source of their own namespace. */
  function TwoNamespaces(k: Key, d: Key, r: SourceRef, mine: SourceStatus, theirs: SourceStatus): State {
    var cs := map[k := NewComponent(k, r, [d]), d := NewComponent(d, r, [])];
    State(cs, cs, map[], {k, d}, map[r.Resolve(k.ns) := [mine], r.Resolve(d.ns) := [theirs]], {})
  }

  /**
   That is enough for different offers: the dependency exists, nothing is cyclic, sticky or pinned,
   and all sources are there.
   */
  lemma TwoNamespacesDiffer(k: Key, d: Key, r: SourceRef, mine: SourceStatus, theirs: SourceStatus)
    requires IsObjectName(k) && IsObjectName(d) && k.ns != d.ns && r.HasName() && r.ref.ns == ""
    requires mine.artifact.digest != "" && mine.artifact.revision != ""
    requires theirs.artifact.digest != "" && theirs.artifact.revision != ""
    requires OfferedVersion(mine) != OfferedVersion(theirs)
    ensures var s := TwoNamespaces(k, d, r, mine, theirs);
      && W.Untried(s) && Servable(s) && Acyclic(GraphOf(s.live)) && W.DependenciesExist(s.live) && !W.SameOffers(s)
      && s.live[d].spec.sourceRef == s.live[k].spec.sourceRef
  {
    var s := TwoNamespaces(k, d, r, mine, theirs);
    TwoNamespacesGraph(k, d, r, mine, theirs);
    TwoNamespacesServe(k, d, r, mine, theirs);
    assert GraphOf(s.live)[k] == s.live[k].DependencyKeys() == {d};
    assert GraphOf(s.live)[d] == s.live[d].DependencyKeys() == {};
  }

  lemma TwoNamespacesServe(k: Key, d: Key, r: SourceRef, mine: SourceStatus, theirs: SourceStatus)
    requires IsObjectName(k) && IsObjectName(d) && k.ns != d.ns && r.HasName() && r.ref.ns == ""
    requires mine.artifact.digest != "" && mine.artifact.revision != ""
    requires theirs.artifact.digest != "" && theirs.artifact.revision != ""
    ensures var s := TwoNamespaces(k, d, r, mine, theirs);
      && W.Untried(s) && Servable(s)
      && W.CurrentVersion(s, k) == OfferedVersion(mine) && W.CurrentVersion(s, d) == OfferedVersion(theirs)
  {
    var s := TwoNamespaces(k, d, r, mine, theirs);
    assert Hist(s, s.live[k].Source()) == [mine] && Hist(s, s.live[d].Source()) == [theirs];
  }

  lemma TwoNamespacesGraph(k: Key, d: Key, r: SourceRef, mine: SourceStatus, theirs: SourceStatus)
    requires IsObjectName(k) && IsObjectName(d) && k.ns != d.ns
    ensures var g := GraphOf(TwoNamespaces(k, d, r, mine, theirs).live); g == map[k := {d}, d := {}] && Acyclic(g)
  {
    var s := TwoNamespaces(k, d, r, mine, theirs);
    assert s.live[k].spec.dependencies[0] == d && s.live[k].DependencyKey(d) in s.live[k].DependencyKeys();
    assert s.live[k].DependencyKeys() == {d} && s.live[d].DependencyKeys() == {};
    var g := GraphOf(s.live);
    forall w
      ensures !IsCycle(g, w)
    {
      if IsCycle(g, w) {
        CycleEdges(g, w, 0);
        if |w| > 1 { CycleEdges(g, w, 1); }
      }
    }
  }
}
