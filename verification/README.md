# Verified model of the component operator

The component operator rolls out *components*: each names a source of manifests (a blueprint in
the cluster, an HTTP repository or a flux source) and possibly other components it depends on.
This project models the operator's own decisions in Dafny and proves what they add up to over
whole runs. `dafny verify dfyconfig.toml` checks it.

## What is modelled

* **Rollout.** `Hooks` and `Handlers` are the reconcile hooks and the event handlers, as methods
  over the component object and the work queue. `Rollout` puts them together as a transition
  system with concurrent, non-atomic passes, a lagging informer cache, late and merged source
  events, edits, retries and failures. `RolloutOrder` proves that no component is ever ahead of a
  dependency with the same source. `RolloutWakeups` proves that no unblocking is lost, says exactly
  which steps lose a source update, and that cycles deadlock; `RolloutAttention` gives conditions
  under which no step does; `RolloutLosses` shows updates that are lost. `RolloutReadiness` says
  what being ready means, `RolloutExactness` when a rollout gets everywhere, `RolloutTermination`
  that rollouts on acyclic graphs end, `RolloutBlocked` shows one that gets stuck, and
  `RolloutOvertaking` where the version order ends.
* **Deletion.** `Drain`: the deletion gate and the Delete event, with passes that are not atomic.
* **Sources.** `SourceLoading`: `SourceReference.Load` for every kind of source, and the pin of
  sticky components over runs. `ComponentIndex` and `Names`: the index keys, version names and URLs.
* **Blueprint versions.** `BlueprintCollector`: a pass of the blueprint reconciler.
  `BlueprintRuns`: loads (in two halves), edits, foreign finalizers and collector passes as a
  transition system. `BlueprintSafety`: when passes are safe, when not, and what the finalizer
  guarantees. `Downloads`: from a URL back to files.
* **From end to end.** `EndToEnd`: runs of the cluster interleaved with lookups of generators.
* **Generators.** `Values`, `Documents`, `ValueMaps` and `Generator`: the in-place merge of value
  documents on a heap of Go maps, in every iteration order, against a pure merge and against the
  intended overlay. `Substitutions`: the variables. `GeneratorCache`: the table of generators.

## Assumptions

* A digest function is any function whose results are lower-case hex. It is not assumed to be
  injective (no function into fixed-length text is): results that need it say "unless two file
  sets share a digest", or ask that the key sets in question do not.
* The API server accepts only object names that are non-empty and free of slashes, as the label
  form of section 2.1 of RFC 1123 is. Nothing is assumed about the text of references in specs.
* What a source offers has a non-empty digest and a non-empty revision, as the loaders demand.
  A source may offer the same pair again, except in `RolloutOrder` and where a row below says "new
  versions": there every publication must be new to its source. A blueprint keeps to that as long
  as it is not deleted (`BlueprintRuns.LivingBlueprintGoesOn`), but not when it is deleted and
  created again (`BlueprintRuns.RecreatedBlueprintGoesBack`); a git branch or an image tag may be
  moved back.
* Exactly one source is given, as the schema rule at `api/v1alpha1/types.go` line 58 demands; the
  empty reference is modelled too, with the error the loader answers.
* component-operator-runtime is not part of this model. Of it is assumed: the hooks run in the
  order load, PostRead, PreReconcile, apply, PostReconcile (`internal/controllers/component/reconciler.go`
  lines 79-87); a component becomes ready only in a pass that got through PostReconcile, and any
  other pass makes it unready; a failed pass is queued again, but a pass refused by the gate need
  not be (so no result relies on a retry).
* In the rollout model a pass works on the component as the API server stores it when the pass
  starts, and an edit of a component keeps its source reference, its dependencies and its
  stickiness. The first assumes that the runtime, or the API server, rejects the status of a pass
  that has started from an outdated copy of its component.
  The handlers, the gates and the collector read the lagging cache. In `BlueprintRuns` loads read
  the cache as well, and edits may change anything.
* Times are integers in seconds. The clock and ProcessingSince come from outside.
* References are compared as they stand, before their namespaces are filled in
  (`api/v1alpha1/types.go` lines 232-239), while the documentation speaks of the same source. "The
  same reference" below means equal in this sense; `Api.EqualReferencesSameSource` says exactly when
  two references, equal or not, name the same source. The ordering result is about dependencies
  whose references are the same *and* resolve to the same source.
* ProcessingSince and LastObservedAt of a pass are arbitrary, except where a row says "sane clock":
  there processing starts no later than it is observed.
* A pass of the collector is one step. Its list calls may be answered from a stale cache, and any
  of its calls may fail.

## Where the code falls short

The model follows the code, and these are theorems about it:

* Equal references of two namespaces are taken for the same source. A component whose dependency
  is built from another source behind an equal reference is held back for ever, although nothing
  is cyclic, missing or failing (`RolloutBlocked.DifferentOffersBlock`,
  `RolloutBlocked.TwoNamespacesDiffer`). It does not happen to components whose dependencies with the same reference
  resolve to their own source (`RolloutWakeups.SameSourcesSameOffers`,
  `Api.EqualReferencesSameSource`).
* A component overtakes a dependency that is built from the same source through a reference spelled
  differently, with the namespace given in one place and left out in the other
  (`RolloutOvertaking.SpellingLetsOvertake`); it can do so exactly if the references differ
  (`RolloutOvertaking.OvertakesExactly`).
* `deepMerge` stores a typed nil map where a later document puts a scalar over a map
  (`internal/generator/util.go` line 23). The result is the intended one exactly when no document
  puts a scalar over an earlier document's map (`Documents.ValuesExact`); a panic happens exactly
  when a third document puts a non-empty map there again (`Documents.PanicExact`).
* The race admitted at `internal/controllers/blueprint/reconciler.go` line 81 loses versions
  (`BlueprintSafety.StaleCacheLosesVersion`); `BlueprintSafety.PassSafeExactly` and
  `BlueprintSafety.CalmPassesAreSafe` say when it does not.
* Editing the source reference of a sticky component while it is processing lets the collector
  delete the version the component is pinned to (`BlueprintSafety.EditedStickyLosesVersion`); when
  exactly the URL survives is said by `BlueprintSafety.UrlSurvivesExactly`.
* A load that applies a version already being deleted does not revive it: it vanishes when its last
  finalizer is released (`BlueprintSafety.DyingVersionVanishesExactly`).
* A source that goes back to an earlier version can be missed until a timer queues the component,
  because the handlers look at a cached status (`RolloutLosses.GoingBackIsMissed`); when exactly is
  said by `RolloutWakeups.UpdateLostExactly` and `RolloutAttention.SkippingLosesExactly`.
* A sticky component can miss a source update until a timer queues it
  (`RolloutLosses.StickyMissesExactly`).
* A load of a blueprint that does not carry the finalizer, and only such a load, can leave its
  version behind when the blueprint is deleted (`BlueprintSafety.LoadLeavesBehindExactly`).
* A component moved from an HTTP or flux source to a blueprint can be listed as a user of a version
  it does not use (`ComponentIndex.MovedComponentIsListed`, `ComponentIndex.VersionIndexIsScan`).
* Files "a" and "/a" of a blueprint end up at the same place, in the order of a Go map
  (`Downloads.OrderIrrelevantExactly`).
* Two requests whose paths and providers read the same when joined by a line break share an entry;
  a lookup can then answer the generator of the other one (`GeneratorCache.IdExact`,
  `GeneratorCache.FirstBuilderDecides`).

## Model

| member | source | states |
|---|---|---|
| RolloutOrder.VersionOrder | internal/controllers/component/hooks.go:42-73 | with new versions, in every reachable state, along every path of dependencies whose source references are the same, HTTP references included, and resolve to the same source, the version applied at the start is no newer in the source's history than the one applied at the end |
| RolloutOrder.StepKeepsInv | internal/controllers/component/hooks.go:42-73 | every step (new version, event, edit, observation, load, gate, finish) keeps: applied is no newer than attempted, attempted no newer than recorded, ready means applied equals attempted, a pass past the gate is covered by what its dependencies have applied |
| RolloutOrder.RunKeepsInv | internal/controllers/component/hooks.go:42-73 | the same for runs of any length |
| RolloutOrder.OrderAlongPath | internal/controllers/component/hooks.go:56-58 | the order of single dependencies carries over to paths |
| RolloutOrder.FinalStatusAdvances | internal/controllers/component/hooks.go:67-73 | no pass moves a component back in its source's history; applied changes only by a pass that was let through and finished, and then to what it had loaded |
| RolloutOvertaking.OvertakesExactly | internal/controllers/component/hooks.go:56-58 | a queued component whose only dependency is ready at a version that is not the latest of their common source can get ahead of it in some run iff their references differ |
| RolloutOvertaking.SpellingLetsOvertake | api/v1alpha1/types.go:232-239 | a run without failures from components nobody has reconciled, in which a component gets ahead of its dependency because only one of them gives the namespace of their blueprint |
| RolloutReadiness.ReadyMeansApplied | internal/controllers/component/hooks.go:67-73 | in every state reachable from components nobody has reconciled, whatever sources offer and whoever is sticky, a ready component has applied what it attempted, a version its source really offered, and all its dependencies exist |
| RolloutReadiness.ReadyMeansPinned | internal/controllers/component/hooks.go:27-40 | in every reachable state, however specs are edited while passes are under way, a component that is ready in its present generation is at a version its present digest and revision pins ask for |
| RolloutReadiness.GateDecides | internal/controllers/component/hooks.go:42-73 | whatever happens between the reading of the gate and the end of the pass, a component becomes ready iff everything could be read and applied and the cache showed every dependency ready and, behind the same reference, at the loaded version; then it has applied what it had loaded, otherwise what it had applied stays, and it is queued again if the gate could not be read |
| RolloutWakeups.RolloutConverges | internal/controllers/component/handlers.go:43-62 | whatever the interleaving, without any retry, with sticky components and sources that go back: at rest, if no step has lost an update, no dependency is missing and dependencies with the same reference are offered the same version, every component of an acyclic graph is ready at the latest version of its source |
| RolloutWakeups.SameSourcesSameOffers | api/v1alpha1/types.go:232-239 | the last condition holds if every dependency with the same reference resolves to the same source, which can be read off the specs |
| RolloutExactness.RolloutExact | internal/controllers/component/hooks.go:48-62 | from components nobody has reconciled, with others created on the way: a rollout at rest that has lost no update is complete iff the graph has no cycle, no dependency is missing and dependencies with the same reference are offered the same version |
| RolloutExactness.StepAgrees | internal/controllers/component/hooks.go:56-58 | every step keeps: outside the queue a component that is ready, or allowed to become so, agrees with every dependency of the same reference the cache shows ready |
| RolloutExactness.CycleIsUnready | internal/controllers/component/hooks.go:48-62 | a cycle that exists in the end has an unready member, whenever its members were created |
| RolloutWakeups.NoUpdateLost | internal/controllers/component/handlers.go:106-121 | at rest a component for which no step has lost an update is at its source's latest version, ready or not, whatever happened to other components |
| RolloutWakeups.UpdateLostExactly | internal/controllers/component/handlers.go:106-173 | a step makes a component fall behind unnoticed iff it is an event whose handler lets the component sleep at another version, or a pass that starts pinned to another version with no event to come |
| RolloutWakeups.StepAwake | internal/controllers/component/handlers.go:39-62 | every step keeps, for every component outside the queue: it is ready, in work, or the gate would refuse it even now; first sight of a component wakes nobody, as in the source |
| RolloutAttention.SkippingLosesExactly | internal/controllers/component/handlers.go:112-120 | a handler that lets a component sleep loses the update iff the cached status is not what the component is at |
| RolloutAttention.SleeperIsCurrent | internal/controllers/component/handlers.go:112-120 | with new versions it never does, although the handler may look at an old copy |
| RolloutAttention.NewVersionsAreNoticed | internal/controllers/component/handlers.go:106-173 | so with new versions a run loses no update of a component that is not pinned to an old version |
| RolloutAttention.UnstickyIsNeverStale | api/v1alpha1/types.go:91-94 | a component that is not sticky is never pinned, in any run |
| RolloutExactness.RolloutExactForNewVersions | internal/controllers/component/hooks.go:48-62 | the same condition is exact for runs with new versions in which no pass starts pinned to an old one |
| RolloutAttention.FixedSourcesLoseNothing | api/v1alpha1/types.go:91-94 | runs without source changes lose no update, also of sticky components, if what those are pinned to is current |
| RolloutExactness.RolloutExactForFixedSources | internal/controllers/component/hooks.go:48-62 | and for runs without source changes, sticky or not, whatever the sources have offered before |
| RolloutWakeups.RestingComponentWaits | internal/controllers/component/hooks.go:48-62 | what holds back a component at rest is a dependency that is missing, not ready or, behind the same reference, offered another version |
| RolloutWakeups.CycleDeadlock | internal/controllers/component/hooks.go:48-62 | in no run does a member of an unfinished dependency cycle pass the gate or change what it has applied |
| RolloutTermination.RolloutTerminates | internal/controllers/component/handlers.go:43-173 | without changes from outside and failures, the length of all runs of an acyclic rollout is bounded by a number known beforehand |
| RolloutTermination.EffortDecreases | internal/controllers/component/handlers.go:43-173 | each such step lowers the remaining effort, counting every wake-up it may cause further down the graph |
| RolloutTermination.NeverStuck | internal/controllers/component/handlers.go:43-173 | until a rollout is at rest some such step is possible, if sources offer what their components accept and sticky ones are pinned to nothing older |
| RolloutTermination.MaximalRunsRest | internal/controllers/component/handlers.go:43-173 | a run of such steps cannot be extended iff everything has come to rest |
| RolloutTermination.MaximalRunsExact | internal/controllers/component/hooks.go:42-73 | from components nobody has reconciled, such a run ends with all components ready at the current versions iff the graph has no cycle, no dependency is missing and dependencies with the same reference are offered the same version |
| RolloutTermination.MaximalRunsRollOut | internal/controllers/component/hooks.go:42-73 | under that condition it does so from every state in which nobody waits for an event, such as a restart |
| RolloutTermination.RolloutCompletes | internal/controllers/component/hooks.go:42-73 | and there is such a run |
| RolloutBlocked.DifferentOffersBlock | internal/controllers/component/hooks.go:56-58 | if the offers behind equal references differ, an acyclic rollout comes to rest, and every run of successful steps that cannot be extended leaves some component behind |
| RolloutBlocked.TwoNamespacesDiffer | api/v1alpha1/types.go:232-239 | a component and a dependency in another namespace with the same namespace-less reference are such an input, for every kind of named source |
| RolloutLosses.StickyMissesExactly | api/v1alpha1/types.go:91-94 | on a sane clock, a component nobody has reconciled, without dependencies and pins, can miss an update with a new version iff it is sticky and its timeout is positive |
| RolloutLosses.StickyRun | api/v1alpha1/types.go:432-446 | the run in which it does, for any such component and timeout |
| RolloutLosses.GoingBackIsMissed | internal/controllers/component/handlers.go:161-167 | for every component without dependencies and pins, when its source goes to another version and back there is a run without failures that comes to rest with the component ready at the other version |
| Hooks.PostRead | internal/controllers/component/hooks.go:27-40 | passes iff the component is being deleted or the digest and the revision its spec asks for, if any, are those loaded; otherwise retry in ten seconds with the right complaint |
| Hooks.PreReconcile | internal/controllers/component/hooks.go:42-65 | records the loaded pair as attempted; passes iff every dependency can be read, is ready in its present generation and, if its source reference is the same, has attempted exactly the loaded pair; otherwise the answer is about the first dependency that fails, and true of it |
| Hooks.PreDelete | internal/controllers/component/hooks.go:75-89 | passes iff no cached component depends on this one; otherwise names one dependent and counts the others |
| Handlers.ComponentUpdated | internal/controllers/component/handlers.go:43-62 | queues exactly the components depending on a component that has become ready |
| Handlers.ComponentDeleted | internal/controllers/component/handlers.go:64-72 | queues exactly the dependencies |
| Handlers.BlueprintChanged | internal/controllers/component/handlers.go:106-121 | queues exactly the users of the blueprint that are not ready at its digest and revision |
| Handlers.FluxSourceUpdated | internal/controllers/component/handlers.go:139-173 | the same for a flux source that announces a digest and a revision; otherwise nothing |
| Handlers.HttpPolled | internal/httprepository/checker.go:51-68 | queues exactly the users of the HTTP source that have not attempted its version |
| Api.EqualReferencesSameSource | api/v1alpha1/types.go:232-239 | Equals holds of exactly the same references, HTTP references included; two references of components in two namespaces resolve to the same source iff they are the same and do not rely on different namespaces, or differ only in that one relies on the namespace the other gives |
| Drain.DrainExact | internal/controllers/component/handlers.go:64-72 | whatever the order of events and without a retry: a deletion at rest has removed every component iff the dependency graph has no cycle |
| Drain.StepKeepsInv | internal/controllers/component/hooks.go:75-89 | every step keeps: a remaining component that is neither queued nor in a pass that may still go on is held back by a dependent the cache still shows |
| Drain.CycleStays | internal/controllers/component/hooks.go:75-89 | no member of a cycle is ever removed |
| Drain.DrainTerminates | internal/controllers/component/handlers.go:64-72 | runs of effective steps are no longer than the initial effort |
| Drain.NeverStuck | internal/controllers/component/handlers.go:64-72 | until the deletion is at rest an effective step is possible |
| Drain.DrainCompletes | internal/controllers/component/hooks.go:75-89 | from every reachable state the deletion can be brought to rest |
| SourceLoading.SourceReference.Load | api/v1alpha1/types.go:78-211 | deleting: nothing happens; sticky with a record and processing for less than the timeout, or else the requeue interval, or else 600 seconds: the recorded artifact is kept and nothing changes; otherwise artifact, digest and status are those of the offer and a blueprint's version holds its files, or a retry in ten seconds or an error, whichever is right |
| SourceLoading.PinThenFollow | api/v1alpha1/types.go:91-94 | over any run of loads on a non-decreasing clock a sticky processing component first returns the recorded artifact, exactly while the time since processing began is below the timeout (with none, the requeue interval; with neither, 600 seconds), and then follows its source for good |
| SourceLoading.UnpinnedFollows | api/v1alpha1/types.go:95-208 | other components follow their source at every load |
| SourceLoading.OfferExact | api/v1alpha1/types.go:98-192 | what can be loaded, what is worth waiting for and what fails for good, for every kind of source, and what is offered |
| SourceLoading.InputsExact | api/v1alpha1/types.go:135-195 | two offers of a source have the same digest input iff url, digest and revision agree and, for flux sources, uid, generation and annotations |
| SourceLoading.SourceReadyExactly | internal/object/object.go:18-29 | a flux source is ready iff its first Ready condition is true and was observed at its present generation |
| ComponentIndex.DependencyIndexIsScan | internal/cache/component/cache.go:161-166 | listing by a dependency equals scanning all components for it, whatever text references contain |
| ComponentIndex.SourceIndexIsScan | internal/cache/component/cache.go:168-220 | the same for blueprints and the four flux kinds |
| ComponentIndex.VersionIndexIsScan | internal/cache/component/cache.go:176-188 | listing by a blueprint version finds the components that use it and the strays, components of a blueprint with a shorter name whose recorded digest ends in the digest in question; it equals the scan iff there are none |
| ComponentIndex.MovedComponentIsListed | internal/cache/component/cache.go:176-188 | every component moved from an HTTP source to a blueprint, whose recorded digest ends that way, is listed for a version it does not use |
| Names.KeyIdentifiesObject | api/v1alpha1/types.go:316-332 | a printed reference equals the key of an object iff it resolves to that object |
| Names.VersionNameInjective | api/v1alpha1/types.go:118 | version names determine blueprint and digest although names may contain "--" |
| ComponentIndex.VersionNamesEqual | internal/cache/component/cache.go:184-187 | a version name with any digest equals one with a hex digest iff the parts are equal or one continues the other |
| Names.UrlRoundTrip | internal/generator/factory.go:153-157 | the URL pattern accepts exactly the URLs Load prints and recovers namespace, name and digest |
| BlueprintStore.RevisionsDistinct | api/v1alpha1/types.go:469-471 | revisions are as distinct as generations |
| BlueprintRuns.LivingBlueprintGoesOn | api/v1alpha1/types.go:465-471 | over any run in which a blueprint is never gone it offers another version than before iff it has been written |
| BlueprintRuns.RecreatedBlueprintGoesBack | api/v1alpha1/types.go:465-471 | a blueprint that is deleted and created again offers its first version again |
| BlueprintCollector.Reconciler.Reconcile | internal/controllers/blueprint/reconciler.go:50-112 | store and outcome of a pass are those of the pass specification, for every combination of failing calls; in particular a living blueprint carries the finalizer afterwards, unless reading or updating it fails, and is otherwise unchanged, and a deleted one never gains it; the outcome does not depend on the order in which the versions are listed |
| BlueprintCollector.PassGuards | internal/controllers/blueprint/reconciler.go:59-106 | what a pass does to blueprints, whatever call fails: the finalizer is added to a living one and removed from a deleted one only by a pass that finishes; nothing else changes |
| BlueprintCollector.PassOutcome | internal/controllers/blueprint/reconciler.go:51-111 | when a pass fails, asks to be repeated after one, ten or 600 seconds, or finishes, in terms of the blueprint and the set of its versions |
| BlueprintCollector.Reconciler.DeleteUnused | internal/controllers/blueprint/reconciler.go:74-91 | the loop deletes exactly the unused versions before the first version it stops at, and counts them |
| BlueprintCollector.Reconciler.HasUsers | internal/controllers/blueprint/reconciler.go:76-80 | a listing limited to one item tells whether the cache knows a user |
| BlueprintCollector.PassDeletes | internal/controllers/blueprint/reconciler.go:74-95 | whatever fails, only unused versions of the blueprint that were not yet being deleted are deleted; the one-second requeue comes exactly after deletions |
| BlueprintCollector.UsedVersionsStay | internal/controllers/blueprint/reconciler.go:80-90 | whatever fails, versions in use and versions of other blueprints stay as they are |
| BlueprintCollector.ErrorFreePassExact | internal/controllers/blueprint/reconciler.go:74-95 | without failing calls a pass fails iff an unused version still awaits deletion; otherwise it leaves exactly the used versions and those held by finalizers, marked |
| BlueprintCollector.RepeatedPassesProgress | internal/controllers/blueprint/reconciler.go:93-95 | every pass that asks for the one-second requeue strictly lowers the number of versions not being deleted, no pass raises it |
| BlueprintCollector.FinalizerGuardsVersions | internal/controllers/blueprint/reconciler.go:97-106 | a pass gives up a finalizer only for a deleted blueprint without versions |
| BlueprintCollector.TwoPassesRelease | internal/controllers/blueprint/reconciler.go:93-106 | a deleted blueprint without users loses its finalizer within two passes, and leaves the store iff nobody else holds it |
| BlueprintRuns.PatchThenPersistIsLoad | api/v1alpha1/types.go:101-135 | undisturbed, the two halves of a load are the load of the source reference |
| BlueprintRuns.RunKeepsAddressed | api/v1alpha1/types.go:110-130 | in every reachable state every version holds the files its name is the digest of |
| BlueprintRuns.DownloadsAreObserved | api/v1alpha1/types.go:101-135 | the URL of a load leads to the files the load observed, at once and in every later state in which it leads anywhere, however the blueprint is edited, unless two file sets share a digest |
| BlueprintRuns.UrlsAreStable | internal/generator/factory.go:158-162 | a blueprint URL leads to the same files in any two such states, with the same exception |
| BlueprintRuns.StepKeepsInv | internal/controllers/blueprint/reconciler.go:74-91 | every step keeps all versions that statuses and running loads refer to, provided a pass finds them in use in its cache and a load does not meet its version on the way out |
| BlueprintRuns.RecordedUrlsLead | internal/generator/factory.go:153-162 | in every run of such steps the URL a component has recorded leads to files with the recorded digest, as long as its source reference has not been edited since |
| BlueprintRuns.RecordedWasLoaded | api/v1alpha1/types.go:204-207 | what such a component has recorded was printed by one of its own loads, from the blueprint as it was then |
| BlueprintSafety.CalmPassesAreSafe | internal/controllers/blueprint/reconciler.go:74-91 | if passes run only when no load is half done and the cache shows all recorded artifacts, and nobody holds versions back, no run deletes a recorded version, and recorded URLs lead to the recorded digests |
| BlueprintSafety.PassSafeExactly | internal/controllers/blueprint/reconciler.go:76-85 | an error-free pass keeps all needed versions iff its cache lists a component for each of them |
| BlueprintSafety.StaleCacheLosesVersion | internal/controllers/blueprint/reconciler.go:81 | for every blueprint and component there is a run in which a pass on a stale cache deletes the version just recorded |
| BlueprintSafety.EditedStickyLosesVersion | internal/cache/component/cache.go:176-188 | after an edit of its source reference to any other source, another blueprint included, a processing sticky component keeps its artifact while a pass on an up-to-date cache deletes the version it leads to |
| BlueprintSafety.UrlSurvivesExactly | internal/cache/component/cache.go:176-188 | an error-free pass keeps the URL of a version alive iff some cached component uses the version or strays into it, whatever components referred to before |
| BlueprintSafety.DyingVersionVanishesExactly | api/v1alpha1/types.go:128-130 | what a load has just applied vanishes by mere releases of finalizers iff it was being deleted and held before |
| BlueprintSafety.GuardLostOnlyEmpty | internal/controllers/blueprint/reconciler.go:97-106 | in every run a guarded blueprint loses its finalizer or leaves the store only by a pass that finds it deleted and without versions |
| BlueprintSafety.VersionsKeepBlueprints | internal/controllers/blueprint/reconciler.go:59-65 | if loads meet guarded blueprints only, no version ever outlives its blueprint |
| BlueprintSafety.GuardedSinceFirstPass | internal/controllers/blueprint/reconciler.go:59-65 | a blueprint that is not deleted is guarded from the first pass on that can read and update it, in every run |
| BlueprintSafety.AttendedLoadsAreGuarded | internal/controllers/blueprint/reconciler.go:59-65 | loads meet guarded blueprints if each reads a blueprint that such a pass has attended since its creation and that is not deleted |
| BlueprintSafety.AttendedKeepBlueprints | internal/controllers/blueprint/reconciler.go:59-65 | so in such runs from an empty cluster no version ever outlives its blueprint |
| BlueprintSafety.LoadLeavesBehindExactly | internal/controllers/blueprint/reconciler.go:59-65 | in any state, a load can leave its version behind while all later loads meet guarded blueprints iff the blueprint it reads does not carry the finalizer |
| Downloads.DownloadBlueprint | internal/generator/factory.go:153-184 | the download succeeds iff the URL parses, the version exists, every path consists of ordinary names joined by single slashes and no file is to be written below another; then the tree holds just the files at their places, and no place has an empty, "." or ".." segment; a path is refused as invalid only if it is not of that form |
| Downloads.AllowedExactly | internal/generator/factory.go:165-167 | besides "." and "/" the check lets through exactly the paths of non-empty names other than "." that contain no "..", joined by single slashes, perhaps with a slash in front |
| Downloads.OrdinaryStaysBelow | internal/generator/factory.go:165-173 | nothing between two slashes of such a path leads anywhere but down |
| Downloads.WritableExactly | internal/generator/factory.go:164-174 | the files can be written iff all paths are of that form and no file is to be below another |
| Downloads.TreeExactly | internal/generator/factory.go:164-174 | the tree holds exactly the places of the files, each with the content of a path that leads there |
| Downloads.WriteAllExact | internal/generator/factory.go:164-174 | whether writing succeeds does not depend on the order of the map: all paths allowed, none the directory itself, no file a directory as well |
| Downloads.OrderIrrelevantExactly | internal/generator/factory.go:164-174 | the order shows in the result iff two paths lead to the same place with different contents |
| Downloads.LastWriteStays | internal/generator/factory.go:171-173 | of several paths to one place the last one written decides |
| Values.MergeIsOverlayExactly | internal/generator/util.go:16-32 | one merge into nil-free maps gives the intended overlay, and leaves no typed nil map, iff no map is overlaid by something else |
| Values.NilFreeNeverPanics | internal/generator/util.go:16-32 | without typed nil maps no merge panics |
| Values.OverlayUnits | internal/generator/util.go:16-32 | the empty map is a two-sided identity and merging a document with itself changes nothing |
| Values.OverlayAssociativeExactly | internal/generator/util.go:16-32 | grouping does not matter iff no path has a scalar in the second map between two maps of which the first has something the third does not define |
| Values.OverlayAssociative | internal/generator/util.go:16-32 | in particular if no map of the first meets a scalar of the second |
| Values.CompatibleWithOverlay | internal/generator/util.go:16-32 | compatibility with a merged document is compatibility with both parts |
| Documents.ValuesExact | internal/generator/generator.go:60-74 | merging all documents gives the intended values iff no document puts a scalar over an earlier document's map |
| Documents.EffectiveValue | internal/generator/generator.go:60-74 | then a path is present iff some document defines it, and a scalar there is the one of the last document that defines the path |
| Documents.GroupingIsIrrelevant | internal/generator/generator.go:60-74 | then it does not matter how the documents are grouped |
| Documents.PanicExact | internal/generator/util.go:20-24 | the merge of all documents panics iff some path is a map in one document, a scalar in a later one and a non-empty map in one later still |
| Documents.FoldShape | internal/generator/util.go:20-24 | which paths of the running result are maps, and which are cut off by a typed nil map, in terms of the documents alone |
| ValueMaps.DeepMerge | internal/generator/util.go:16-32 | on separate heaps of Go maps, in every iteration order: panics iff the pure merge does, otherwise the target's content is the pure merge of the contents, adopting nested maps of the source, and nothing outside the target is touched |
| ValueMaps.MergeShapeContent | internal/generator/util.go:16-32 | the heap shape after a merge has the content of the pure merge |
| ValueMaps.MergeShapeLinear | internal/generator/util.go:16-32 | the maps of the result are in separate places again, so that the next document can be merged |
| Generator.BuildValues | internal/generator/generator.go:60-74 | the loop over the documents yields the fold of their contents, stops at the first malformed one and panics where the fold does |
| Substitutions.ShallowMerge | internal/generator/util.go:34-38 | in any key order the source's variables are laid over the target's |
| Substitutions.BuildSubstitutions | internal/generator/generator.go:78-83 | all secrets in order, then the inline variables; nothing is substituted iff there are neither |
| Substitutions.LastSourceWins | api/v1alpha1/types.go:288-291 | a variable has the value of the last source that defines it, so inline values win |
| GeneratorCache.CacheRefinesRebuilding | internal/generator/factory.go:74-151 | for requests with single-line urls and digests, if what a url yields at a digest does not change: after all runs of lookups and sweeps a lookup answers what a fresh build would iff no other request with its identifier leads to another generator |
| GeneratorCache.AnswerIsBuild | internal/generator/factory.go:81-83 | then, if nothing can be fetched right now, it answers that or nothing |
| GeneratorCache.NoTwinsNoHarm | internal/generator/factory.go:78-79 | and there is no such request if no other path can be read off the joined path and provider and no two key sets in use share a digest |
| GeneratorCache.IdExact | internal/generator/factory.go:78-79 | for single-line urls and digests, identifiers are equal iff url, digest and key digest are, and path and provider joined by a line break |
| GeneratorCache.PathIsClear | internal/generator/factory.go:79 | path and provider can be told apart if providers are single lines or the paths are equal |
| GeneratorCache.FirstBuilderDecides | internal/generator/factory.go:81-83 | of two requests that share an identifier the first one built decides the answer to both |
| GeneratorCache.SweepExact | internal/generator/factory.go:56-69 | after a sweep exactly the entries used within the last hour are there |
| GeneratorCache.RecentlyUsedIsPresent | internal/generator/factory.go:81-83 | an entry used within the last hour is there at any time |
| GeneratorCache.EntryLifetime | internal/generator/factory.go:81-83 | every entry is valid for an hour after its last use |
| GeneratorCache.Factory.GetGenerator | internal/generator/factory.go:74-151 | a known identifier is answered from the table and lives for another hour; any other is answered by building from what the url leads to: a chart from the fetched files, decrypted iff there are keys, exactly if the chart file is there, otherwise a kustomization from the untouched files with the keys, or nothing if the keys, the path, the directory, decryption or the loader refuse; only what was built is stored |
| GeneratorCache.BuildExact | internal/generator/factory.go:84-146 | the same of every build |
| GeneratorCache.FetchExact | internal/generator/factory.go:102-110 | an archive url leads to the archive, a blueprint url to the files of the version at their places if they can be written |
| EndToEnd.AnswersAreBuilt | internal/generator/factory.go:74-184 | however the cluster changes and whatever is looked up in between, a lookup of a blueprint URL answers the generator built from the files the URL was printed for, or nothing if the version is gone; for files no other written file set shares the digest of and whose paths to one place agree |
| EndToEnd.RecordedAnswersAreObserved | internal/generator/generator.go:43-58 | in runs of careful cluster steps, a lookup of the URL a component has recorded answers exactly the generator built from the files one of its loads observed |
| GeneratorCache.Factory.Sweep | internal/generator/factory.go:56-69 | in any order of the entries, removes exactly the expired ones |

## Left out

- RolloutWakeups.NoUpdateLost: claims nothing after a step that lost an update of the component, because such steps exist (see RolloutLosses); timers, which would repair it, are not among its hypotheses.
- RolloutLosses.StickyMissesExactly: considers one component without dependencies and pins, whose spec is not edited on the way.
- RolloutTermination.RolloutTerminates: timers, failing steps and changes from outside are not among the steps it bounds, because the operator repeats those for ever.
- GeneratorCache.CacheRefinesRebuilding: that what a url yields at a digest does not change is a hypothesis about archives; for blueprint URLs EndToEnd.AnswersAreBuilt does without it.
- BlueprintCollector.Reconciler.Reconcile: a pass is one step; versions written by a load between its list call and its last update are not considered.
- BlueprintSafety.CalmPassesAreSafe: says nothing about components whose source reference was edited after their status was recorded, because the version index goes by the edited reference (see BlueprintSafety.EditedStickyLosesVersion).
- Drain.DrainExact: deletion is considered with all components marked at once and their dependencies unedited, not interleaved with a rollout.
- Downloading archives, redirects and tar files: what a URL yields is a parameter.
- Decryption with sops, the helm and kustomize generators, substitution and patching of manifests: functions given as parameters.
- The reconciler of component-operator-runtime: see the assumptions; applying and deleting managed resources are steps that may or may not finish.
- Update conflicts of the API server: a status that the server would reject is written anyway, and the results hold nevertheless.
- The handler that queues a blueprint when one of its versions changes, and the index by source type: they add no decision beyond those modelled.
- Generated clients, the scheme, flags, charts, event recording, logging and error texts.
