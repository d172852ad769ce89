/**
 Which components an event puts into the work queue (internal/controllers/component/handlers.go
 and the poller of internal/httprepository/checker.go).
 */
module Handlers {
  import opened Options
  import opened Names
  import opened Api
  import opened ComponentIndex
  import opened SourceLoading
  import opened Hooks
  import B = BlueprintStore

  /** The work queue holds each key at most once. */
  class WorkQueue {
    var items: set<NamespacedName>

    constructor ()
      ensures items == {}
    {
      items := {};
    }

    method Add(k: NamespacedName)
      modifies this
      ensures items == old(items) + {k}
    {
      items := items + {k};
    }
  }

  /** The event loop's view of one component event. */
  ghost function WokenByUpdate(cache: Components, updated: Component): set<NamespacedName> {
    if updated.IsReady() then Dependents(cache, updated.Key()) else {}
  }

  /** A component is up to date with `v` when it is ready and last attempted exactly `v`. */
  predicate UpToDate(c: Component, v: Version) {
    c.IsReady() && c.status.attempted == v
  }

  /** Ready at the current generation, having attempted just this. */
  ghost predicate IsAt(s: Status, generation: int, digest: string, revision: string) {
    s.ready && s.observedGeneration == generation && s.attempted == Version(digest, revision)
  }

  /** What an event about `source`, now at `v`, has to wake. */
  ghost function WokenBySource(cache: Components, source: SourceRef, v: Version): set<NamespacedName> {
    set k | k in Users(cache, source) && !UpToDate(cache[k], v)
  }

  /** What the poller wakes: it compares the attempted version only. */
  ghost function WokenByPoll(cache: Components, source: SourceRef, v: Version): set<NamespacedName> {
    set k | k in Users(cache, source) && cache[k].status.attempted != v
  }

  method ComponentUpdated(queue: WorkQueue, updated: Component, ghost cache: Components, listing: Listing)
    requires WellKeyed(cache) && IsObjectName(updated.Key())
    requires listing.Listed? ==> Enumerates(listing.items, cache, Matching(cache, Dependencies, updated.Key()))
    modifies queue
    ensures queue.items == old(queue.items) + if listing.Listed? then WokenByUpdate(cache, updated) else {}
    ensures listing.Listed? ==>
      var becameReady := updated.status.ready && updated.status.observedGeneration == updated.generation;
      queue.items == old(queue.items) + set k | k in cache && becameReady && updated.Key() in cache[k].DependencyKeys()
  {
    if !updated.IsReady() { return; }
    if listing.ListFailed? { return; }
    DependencyIndexIsScan(cache, updated.Key());
    for i := 0 to |listing.items|
      invariant queue.items == old(queue.items) + set j | 0 <= j < i :: listing.items[j].Key()
    {
      queue.Add(NamespacedName(listing.items[i].namespace, listing.items[i].name));
    }
  }

  method ComponentDeleted(queue: WorkQueue, deleted: Component)
    modifies queue
    ensures queue.items == old(queue.items) + deleted.DependencyKeys()
  {
    var dependencies := deleted.spec.dependencies;
    for i := 0 to |dependencies|
      invariant queue.items == old(queue.items) + set j | 0 <= j < i :: deleted.DependencyKey(dependencies[j])
    {
      queue.Add(NamespacedName(dependencies[i].WithDefaultNamespace(deleted.namespace).ns, dependencies[i].name));
    }
  }

  /** Queues the listed components that are not up to date with `v`. */
  method QueueOutdated(queue: WorkQueue, items: seq<Component>, v: Version)
    modifies queue
    ensures queue.items == old(queue.items) + set i | 0 <= i < |items| && !UpToDate(items[i], v) :: items[i].Key()
  {
    for i := 0 to |items|
      invariant queue.items == old(queue.items) + set j | 0 <= j < i && !UpToDate(items[j], v) :: items[j].Key()
    {
      var attempted := items[i].status.attempted;
      if items[i].IsReady() && attempted.digest == v.digest && attempted.revision == v.revision {
        continue;
      }
      queue.Add(NamespacedName(items[i].namespace, items[i].name));
    }
  }

  method BlueprintChanged(queue: WorkQueue, key: NamespacedName, blueprint: B.Blueprint, h: B.Hash,
                          ghost cache: Components, listing: Listing)
    requires WellKeyed(cache) && IsObjectName(key)
    requires listing.Listed? ==> Enumerates(listing.items, cache, Matching(cache, BlueprintUsers, key))
    modifies queue
    ensures queue.items == old(queue.items) +
      if listing.ListFailed? then {}
      else WokenBySource(cache, Blueprint(key), VersionOf(BlueprintArtifact(key, blueprint, h)))
    ensures listing.Listed? ==>
      queue.items == old(queue.items) + set k | k in cache && cache[k].Source() == Blueprint(key) &&
        !IsAt(cache[k].status, cache[k].generation, h(B.OfFiles(blueprint.files)), blueprint.Revision())
  {
    if listing.ListFailed? { return; }
    SourceIndexIsScan(cache, BlueprintKind, key);
    QueueOutdated(queue, listing.items, Version(blueprint.Digest(h), blueprint.Revision()));
  }

  /** The update carries a version worth acting on. */
  predicate Announces(source: FluxSource) {
    IsSourceReady(source.conditions, source.generation) && source.artifact.Some? &&
    source.artifact.value.digest != "" && source.artifact.value.revision != ""
  }

  /** Its first Ready condition is true and current, and its artifact has a digest and a revision. */
  ghost predicate Tells(source: FluxSource) {
    (exists i :: ReadyBy(source.conditions, source.generation, i)) &&
    source.artifact.Some? && "" !in {source.artifact.value.digest, source.artifact.value.revision}
  }

  method FluxSourceUpdated(queue: WorkQueue, kind: WatchedKind, key: NamespacedName, source: FluxSource,
                           ghost cache: Components, listing: Listing)
    requires WellKeyed(cache) && IsObjectName(key) && !kind.BlueprintKind?
    requires listing.Listed? ==> Enumerates(listing.items, cache, Matching(cache, kind.UserIndex(), key))
    modifies queue
    ensures queue.items == old(queue.items) +
      if listing.ListFailed? || !Announces(source) then {}
      else WokenBySource(cache, kind.SourceOf(key), VersionOf(source.artifact.value))
    ensures queue.items == old(queue.items) +
      if listing.Listed? && Tells(source) then
        set k | k in cache && cache[k].Source() == kind.SourceOf(key) &&
          !IsAt(cache[k].status, cache[k].generation, source.artifact.value.digest, source.artifact.value.revision)
      else {}
  {
    SourceReadyExactly(source.conditions, source.generation);
    if !IsSourceReady(source.conditions, source.generation) { return; }
    if source.artifact.None? { return; }
    var digest := source.artifact.value.digest;
    if digest == "" { return; }
    var revision := source.artifact.value.revision;
    if revision == "" { return; }
    if listing.ListFailed? { return; }
    SourceIndexIsScan(cache, kind, key);
    QueueOutdated(queue, listing.items, Version(digest, revision));
  }

  /** One round of the poller for the components built from one HTTP source; None is a failed request. */
  method HttpPolled(queue: WorkQueue, source: SourceRef, answer: Option<Artifact>,
                    ghost cache: Components, listing: Listing)
    requires source.HttpRepository?
    requires listing.Listed? ==> Enumerates(listing.items, cache, Users(cache, source))
    modifies queue
    ensures queue.items == old(queue.items) +
      if listing.Listed? && answer.Some? then WokenByPoll(cache, source, VersionOf(answer.value)) else {}
    ensures listing.Listed? && answer.Some? ==>
      queue.items == old(queue.items) + set k | k in cache && cache[k].Source() == source &&
        cache[k].status.attempted != Version(answer.value.digest, answer.value.revision)
  {
    if listing.ListFailed? || answer.None? { return; }
    var items, v := listing.items, VersionOf(answer.value);
    for i := 0 to |items|
      invariant queue.items == old(queue.items) + set j | 0 <= j < i && items[j].status.attempted != v :: items[j].Key()
    {
      if v.digest != items[i].status.attempted.digest || v.revision != items[i].status.attempted.revision {
        queue.Add(NamespacedName(items[i].namespace, items[i].name));
      }
    }
  }
}
