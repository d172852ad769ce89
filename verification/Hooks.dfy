/**
 The hooks of the component reconciler (internal/controllers/component/hooks.go): source pins,
 the dependency gate, the applied fields and the deletion gate.
 */
module Hooks {
  import opened Options
  import opened Names
  import opened Api
  import opened ComponentIndex
  import opened SourceLoading

  datatype HookError =
    | DigestMismatch
    | RevisionMismatch
    | DependencyNotFound(dependency: NamespacedName)
    | DependencyNotSynced(dependency: NamespacedName)
    | DependencyNotReady(dependency: NamespacedName)
    | DeletionBlocked(dependent: NamespacedName, others: nat)

  /** RetryLater without seconds leaves the delay to the runtime; ClientError is any other failed call. */
  datatype HookResult = Passed | RetryLater(error: HookError, after: Option<int>) | ClientError

  // ---------------------------------------------------------------- pins

  predicate MatchesPins(spec: Spec, v: Version) {
    (spec.digest != "" ==> v.digest == spec.digest) && (spec.revision != "" ==> v.revision == spec.revision)
  }

  method PostRead(component: ComponentObject, source: SourceReference) returns (r: HookResult)
    requires !component.deleting ==> source.loaded
    ensures r.Passed? <==> component.deleting || MatchesPins(component.spec, VersionOf(source.artifact))
    ensures r.Passed? <==>
      component.deleting || (component.spec.digest in {"", source.artifact.digest} &&
                             component.spec.revision in {"", source.artifact.revision})
    ensures !r.Passed? ==>
      var error := if component.spec.digest in {"", source.artifact.digest} then RevisionMismatch else DigestMismatch;
      r == RetryLater(error, Some(10))
  {
    if component.deleting { return Passed; }
    if component.spec.digest != "" && source.artifact.digest != component.spec.digest {
      return RetryLater(DigestMismatch, Some(RETRY_SECONDS));
    }
    if component.spec.revision != "" && source.artifact.revision != component.spec.revision {
      return RetryLater(RevisionMismatch, Some(RETRY_SECONDS));
    }
    r := Passed;
  }

  // ---------------------------------------------------------------- dependency gate

  /** Dependency `d` has been attempted at version `v`. */
  predicate SyncedTo(d: Component, v: Version) {
    d.status.attempted.digest != "" && d.status.attempted.revision != "" && d.status.attempted == v
  }

  predicate Satisfied(cache: Components, c: Component, dependency: NamespacedName) {
    var k := c.DependencyKey(dependency);
    k in cache && cache[k].IsReady() &&
    (cache[k].spec.sourceRef == c.spec.sourceRef ==> SyncedTo(cache[k], c.status.attempted))
  }

  /** Every dependency is there, ready and, if it shares the source, at the same version. */
  ghost predicate GateOpen(cache: Components, c: Component) {
    forall i | 0 <= i < |c.spec.dependencies| :: Satisfied(cache, c, c.spec.dependencies[i])
  }

  /** The complaint about one dependency that cannot be used: sync is examined before readiness. */
  function Complaint(cache: Components, c: Component, dependency: NamespacedName): HookResult {
    var k := c.DependencyKey(dependency);
    if k !in cache then RetryLater(DependencyNotFound(dependency), None)
    else if cache[k].spec.sourceRef == c.spec.sourceRef && !SyncedTo(cache[k], c.status.attempted) then
      RetryLater(DependencyNotSynced(dependency), None)
    else RetryLater(DependencyNotReady(dependency), None)
  }

  function WithAttempted(c: Component, v: Version): Component {
    c.(status := c.status.(attempted := v))
  }

  function WithApplied(c: Component): Component {
    c.(status := c.status.(applied := c.status.attempted))
  }

  /** The complaint is true of the dependency it names; `c` has its attempted fields set. */
  ghost predicate Justified(cache: Components, c: Component, r: HookResult)
    requires r.RetryLater?
  {
    && r.after.None? && (r.error.DependencyNotFound? || r.error.DependencyNotSynced? || r.error.DependencyNotReady?)
    && r.error.dependency in c.spec.dependencies
    && var k, v := c.DependencyKey(r.error.dependency), c.status.attempted;
       if r.error.DependencyNotFound? then k !in cache
       else
         && k in cache
         && var behind := cache[k].spec.sourceRef == c.spec.sourceRef &&
              (cache[k].status.attempted != v || v.digest == "" || v.revision == "");
            if r.error.DependencyNotSynced? then behind
            else !behind && !(cache[k].status.ready && cache[k].status.observedGeneration == cache[k].generation)
  }

  /** The gate in terms of specs and statuses. */
  lemma GateOpenExactly(cache: Components, c: Component)
    ensures GateOpen(cache, c) <==> forall k | k in c.DependencyKeys() ::
      && k in cache
      && cache[k].status.ready && cache[k].status.observedGeneration == cache[k].generation
      && (cache[k].spec.sourceRef == c.spec.sourceRef ==>
            && cache[k].status.attempted == c.status.attempted
            && c.status.attempted.digest != "" && c.status.attempted.revision != "")
  {
    forall i | 0 <= i < |c.spec.dependencies|
      ensures c.DependencyKey(c.spec.dependencies[i]) in c.DependencyKeys()
    {
    }
  }

  /** `broken` holds the keys whose cache read fails otherwise than with "not found". */
  method PreReconcile(component: ComponentObject, source: SourceReference, cache: Components,
                      broken: set<NamespacedName>)
    returns (r: HookResult)
    requires source.loaded
    modifies component`status
    ensures component.Value() == WithAttempted(old(component.Value()), VersionOf(source.artifact))
    ensures r.Passed? <==> component.Value().DependencyKeys() !! broken && GateOpen(cache, component.Value())
    ensures !r.Passed? ==> exists i ::
      && 0 <= i < |component.spec.dependencies|
      && (forall j | 0 <= j < i :: component.Value().DependencyKey(component.spec.dependencies[j]) !in broken &&
                                  Satisfied(cache, component.Value(), component.spec.dependencies[j]))
      && var d := component.spec.dependencies[i];
         if component.Value().DependencyKey(d) in broken then r == ClientError
         else !Satisfied(cache, component.Value(), d) && r == Complaint(cache, component.Value(), d)
    ensures component.status.attempted == Version(source.artifact.digest, source.artifact.revision)
    // spelled out: every dependency is there and ready, and at exactly the loaded version if its reference is the same
    ensures r.Passed? <==> forall k | k in component.Value().DependencyKeys() ::
      && k !in broken && k in cache
      && cache[k].status.ready && cache[k].status.observedGeneration == cache[k].generation
      && (cache[k].spec.sourceRef == component.spec.sourceRef ==>
            && cache[k].status.attempted == Version(source.artifact.digest, source.artifact.revision)
            && source.artifact.digest != "" && source.artifact.revision != "")
    ensures r.RetryLater? ==> Justified(cache, component.Value(), r)
  {
    component.status := component.status.(attempted := Version(source.artifact.digest, source.artifact.revision));
    ghost var me := component.Value();
    GateOpenExactly(cache, me);
    var dependencies := component.spec.dependencies;
    for i := 0 to |dependencies|
      invariant component.Value() == me && component.spec.dependencies == dependencies
      invariant forall j | 0 <= j < i ::
        me.DependencyKey(dependencies[j]) !in broken && Satisfied(cache, me, dependencies[j])
    {
      var k := dependencies[i].WithDefaultNamespace(component.namespace);
      assert me.DependencyKey(dependencies[i]) == k && k in me.DependencyKeys();
      if k in broken { return ClientError; }
      if k !in cache { return RetryLater(DependencyNotFound(dependencies[i]), None); }
      var c := cache[k];
      EqualReferencesSameSource(c.spec.sourceRef, component.spec.sourceRef, "default", "default");
      if c.spec.sourceRef.Equals(component.spec.sourceRef) &&
         (c.status.attempted.digest == "" || c.status.attempted.digest != component.status.attempted.digest ||
          c.status.attempted.revision == "" || c.status.attempted.revision != component.status.attempted.revision)
      {
        return RetryLater(DependencyNotSynced(dependencies[i]), None);
      }
      if !c.IsReady() { return RetryLater(DependencyNotReady(dependencies[i]), None); }
    }
    r := Passed;
  }

  method PostReconcile(component: ComponentObject)
    modifies component`status
    ensures component.Value() == WithApplied(old(component.Value()))
  {
    component.status := component.status.(applied := component.status.attempted);
  }

  // ---------------------------------------------------------------- deletion gate

  /** `items` lists, in some order and without repetition, the cached components with these keys. */
  ghost predicate Enumerates(items: seq<Component>, cache: Components, keys: set<NamespacedName>) {
    && (forall i | 0 <= i < |items| ::
          items[i].Key() in keys && items[i].Key() in cache && cache[items[i].Key()] == items[i])
    && (forall i, j | 0 <= i < j < |items| :: items[i].Key() != items[j].Key())
    && (forall k | k in keys :: exists i :: 0 <= i < |items| && items[i].Key() == k)
  }

  datatype Listing = Listed(items: seq<Component>) | ListFailed

  lemma {:induction false} EnumerationSize(items: seq<Component>, cache: Components, keys: set<NamespacedName>)
    requires Enumerates(items, cache, keys)
    ensures |items| == |keys|
    decreases |items|
  {
    if items == [] {
      assert keys == {};
    } else {
      var init, k := items[..|items| - 1], items[|items| - 1].Key();
      forall l | l in keys - {k}
        ensures exists i :: 0 <= i < |init| && init[i].Key() == l
      {
        var i :| 0 <= i < |items| && items[i].Key() == l;
        assert init[i].Key() == l;
      }
      EnumerationSize(init, cache, keys - {k});
    }
  }

  /** `listing` is what the cache answers for the components matching this one as a dependency. */
  method PreDelete(component: ComponentObject, ghost cache: Components, listing: Listing) returns (r: HookResult)
    requires WellKeyed(cache) && IsObjectName(component.Value().Key())
    requires listing.Listed? ==>
      Enumerates(listing.items, cache, Matching(cache, Dependencies, component.Value().Key()))
    ensures r.ClientError? <==> listing.ListFailed?
    ensures r.Passed? <==> listing.Listed? && Dependents(cache, component.Value().Key()) == {}
    ensures r.RetryLater? ==> (
      && r.after.None? && r.error.DeletionBlocked?
      && r.error.dependent in Dependents(cache, component.Value().Key())
      && r.error.others + 1 == |Dependents(cache, component.Value().Key())|)
  {
    if listing.ListFailed? { return ClientError; }
    DependencyIndexIsScan(cache, component.Value().Key());
    EnumerationSize(listing.items, cache, Matching(cache, Dependencies, component.Value().Key()));
    if |listing.items| == 0 { return Passed; }
    r := RetryLater(DeletionBlocked(listing.items[0].Key(), |listing.items| - 1), None);
  }
}
