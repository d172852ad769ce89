/**
 Loading a source reference (api/v1alpha1/types.go lines 78-229): pin the recorded artifact
 while a sticky component is processing, otherwise read the source and record what it offers.
 */
module SourceLoading {
  import opened Options
  import opened Names
  import opened Api
  import B = BlueprintStore

  const RETRY_SECONDS := 10

  datatype Condition = Condition(kind: string, observedGeneration: int, isTrue: bool)

  datatype FluxSource = FluxSource(uid: string, generation: int, annotations: map<string, string>,
                                   conditions: seq<Condition>, artifact: Option<Artifact>)

  /** Readiness of a flux source: its first Ready condition decides. */
  function IsSourceReady(conditions: seq<Condition>, generation: int): bool {
    if conditions == [] then false
    else if conditions[0].kind != "Ready" then IsSourceReady(conditions[1..], generation)
    else conditions[0].observedGeneration == generation && conditions[0].isTrue
  }

  /** The first Ready condition is number `i`; it is true and was observed at this generation. */
  ghost predicate ReadyBy(conditions: seq<Condition>, generation: int, i: int) {
    && 0 <= i < |conditions| && conditions[i] == Condition("Ready", generation, true)
    && forall j | 0 <= j < i :: conditions[j].kind != "Ready"
  }

  lemma {:induction false} SourceReadyExactly(conditions: seq<Condition>, generation: int)
    ensures IsSourceReady(conditions, generation) <==> exists i :: ReadyBy(conditions, generation, i)
    decreases |conditions|
  {
    if conditions != [] && conditions[0].kind != "Ready" {
      var rest := conditions[1..];
      SourceReadyExactly(rest, generation);
      if i :| ReadyBy(rest, generation, i) { assert ReadyBy(conditions, generation, i + 1); }
      if i :| ReadyBy(conditions, generation, i) { assert ReadyBy(rest, generation, i - 1); }
    } else if IsSourceReady(conditions, generation) {
      assert ReadyBy(conditions, generation, 0);
    }
  }

  /**
   Everything outside the component that a load reads; `broken` lists the reads that fail otherwise
   than with "not found".
   */
  datatype World = World(
    store: B.Store,
    flux: map<SourceRef, FluxSource>,
    http: map<SourceRef, Artifact>,
    broken: set<SourceRef>,
    patchFails: bool)

  datatype Fetch = Fetched(artifact: Artifact, input: B.DigestInput) | Retry(seconds: int) | Failure

  /** What a source offers right now. */
  function Offer(w: World, source: SourceRef, h: B.Hash): Fetch {
    if source in w.broken then Failure
    else match source
      case NoSource => Failure
      case HttpRepository(_, _, _) =>
        if source !in w.http then Failure
        else
          var a := w.http[source];
          Fetched(a, B.OfArtifact(a.url, a.digest, a.revision))
      case Blueprint(n) =>
        if n !in w.store.blueprints then Retry(RETRY_SECONDS)
        else if w.patchFails then Failure
        else
          var a := BlueprintArtifact(n, w.store.blueprints[n], h);
          Fetched(a, B.OfArtifact(a.url, a.digest, a.revision))
      case _ =>
        if source !in w.flux then Retry(RETRY_SECONDS) else FluxOffer(w.flux[source])
  }

  function BlueprintArtifact(n: NamespacedName, b: B.Blueprint, h: B.Hash): Artifact {
    Artifact(BlueprintUrl(n.ns, n.name, b.Digest(h)), b.Digest(h), b.Revision())
  }

  function FluxOffer(f: FluxSource): Fetch {
    if !IsSourceReady(f.conditions, f.generation) || f.artifact.None? then Retry(RETRY_SECONDS)
    else
      var a := f.artifact.value;
      if a.url == "" || a.digest == "" || a.revision == "" then Retry(RETRY_SECONDS)
      else Fetched(a, B.OfFluxArtifact(f.uid, f.generation, f.annotations, a.url, a.digest, a.revision))
  }

  /** The pin: a sticky component keeps its recorded artifact while it is processing. */
  predicate IsPinned(c: Component) {
    c.spec.sticky && IsProcessing(c) && c.status.sourceRef.Some?
  }

  /** The time since processing began is below the timeout, the requeue interval or ten minutes: the first one given. */
  ghost predicate Within(spec: Spec, elapsed: int) {
    && (spec.timeout.Some? ==> elapsed < spec.timeout.value)
    && (spec.timeout.None? && spec.requeueInterval.Some? ==> elapsed < spec.requeueInterval.value)
    && (spec.timeout.None? && spec.requeueInterval.None? ==> elapsed < 600)
  }

  /** What the pin depends on. */
  ghost predicate MustKeep(spec: Spec, status: Status) {
    && spec.sticky && status.sourceRef.Some? && status.processingSince.Some?
    && Within(spec, status.lastObservedAt - status.processingSince.value)
  }

  /** What the digest of a loaded reference says: nothing is lost of what the source has offered. */
  lemma InputsExact(w: World, w': World, source: SourceRef, h: B.Hash)
    requires Offer(w, source, h).Fetched? && Offer(w', source, h).Fetched?
    ensures Offer(w, source, h).input == Offer(w', source, h).input <==>
      && Offer(w, source, h).artifact == Offer(w', source, h).artifact
      && (source in w.flux && source in w'.flux && !source.HttpRepository? && !source.Blueprint? ==>
            && w.flux[source].uid == w'.flux[source].uid && w.flux[source].generation == w'.flux[source].generation
            && w.flux[source].annotations == w'.flux[source].annotations)
  {
  }

  /** The source can be loaded right now. */
  ghost predicate Serves(w: World, source: SourceRef) {
    source !in w.broken &&
    match source
    case NoSource => false
    case HttpRepository(_, _, _) => source in w.http
    case Blueprint(n) => n in w.store.blueprints && !w.patchFails
    case _ =>
      && source in w.flux && (exists i :: ReadyBy(w.flux[source].conditions, w.flux[source].generation, i))
      && w.flux[source].artifact.Some?
      && var a := w.flux[source].artifact.value; "" !in {a.url, a.digest, a.revision}
  }

  /** A source that cannot be loaded but may become loadable without anybody's help. */
  ghost predicate IsWorthWaiting(w: World, source: SourceRef) {
    && source !in w.broken && !source.NoSource? && !source.HttpRepository?
    && (source.Blueprint? ==> source.ref !in w.store.blueprints)
  }

  /** What a source offers: the answer of the repository or flux source, or a content-addressed blueprint URL. */
  lemma OfferExact(w: World, source: SourceRef, h: B.Hash)
    ensures var o := Offer(w, source, h);
      if !Serves(w, source) then o == if IsWorthWaiting(w, source) then Retry(10) else Failure
      else
        && o.Fetched?
        && (source.HttpRepository? ==> o.artifact == w.http[source])
        && (source.Blueprint? ==>
              var n, b := source.ref, w.store.blueprints[source.ref];
              && o.artifact.digest == h(B.OfFiles(b.files)) && o.artifact.revision == b.Revision()
              && o.artifact.url == "blueprint://" + n.ns + "/" + n.name + "/" + h(B.OfFiles(b.files)))
        && (!source.HttpRepository? && !source.Blueprint? ==> w.flux[source].artifact == Some(o.artifact))
  {
    if source in w.flux { SourceReadyExactly(w.flux[source].conditions, w.flux[source].generation); }
    if source.Blueprint? && source.ref in w.store.blueprints {
      UrlRoundTrip("", UrlParts(source.ref.ns, source.ref.name, w.store.blueprints[source.ref].Digest(h)));
    }
  }

  /** Effect of a load on the component, given what the source offers; also the loaded reference. */
  function LoadStep(c: Component, offer: Option<SourceStatus>): (r: (Component, Option<SourceStatus>)) {
    if IsPinned(c) then (c, c.status.sourceRef)
    else if offer.None? then (c, None)
    else (c.(status := c.status.(sourceRef := offer)), offer)
  }

  function OfferedStatus(f: Fetch, h: B.Hash): Option<SourceStatus> {
    if f.Fetched? then Some(SourceStatus(f.artifact, h(f.input))) else None
  }

  /** The component as an object whose status a reconcile pass updates. */
  class ComponentObject {
    const namespace: string
    const name: string
    var generation: int
    var deleting: bool
    var spec: Spec
    var status: Status

    constructor (c: Component)
      ensures Value() == c
    {
      namespace, name := c.namespace, c.name;
      generation, deleting, spec, status := c.generation, c.deleting, c.spec, c.status;
    }

    function Value(): Component
      reads this
    {
      Component(namespace, name, generation, deleting, spec, status)
    }
  }

  /** The store behind the client. */
  class Server {
    var store: B.Store

    constructor (s: B.Store)
      ensures store == s
    {
      store := s;
    }
  }

  /** The store `t` is `s` with the version of a blueprint that `a` leads to, as the blueprint is now. */
  ghost predicate HoldsJust(s: B.Store, t: B.Store, n: NamespacedName, a: Artifact)
    requires n in s.blueprints
  {
    var v := NamespacedName(n.ns, n.name + "--" + a.digest);
    && t.blueprints == s.blueprints && t.versions.Keys == s.versions.Keys + {v}
    && (forall k | k in s.versions && k != v :: t.versions[k] == s.versions[k])
    && t.versions[v].blueprint == n.name && t.versions[v].files == s.blueprints[n].files
    && t.versions[v].digest == a.digest && t.versions[v].revision == a.revision
    && t.versions[v].deleting == (v in s.versions && s.versions[v].deleting)
    && t.versions[v].finalizers == if v in s.versions then s.versions[v].finalizers else {}
  }

  datatype LoadResult = LoadOk | LoadRetry(seconds: int) | LoadFailed

  function ResultOf(c: Component, offer: Fetch): LoadResult {
    if IsPinned(c) || offer.Fetched? then LoadOk
    else if offer.Retry? then LoadRetry(offer.seconds) else LoadFailed
  }

  function StoreAfter(c: Component, w: World, offer: Fetch, h: B.Hash): B.Store
    requires offer == Offer(w, c.Source(), h)
  {
    if !IsPinned(c) && offer.Fetched? && c.Source().Blueprint? then B.ApplyVersion(w.store, c.Source().ref, h)
    else w.store
  }

  /**
   What a load should do to a component: nothing but hand out the record while the pin holds, and
   otherwise record what can be loaded, writing the version of a blueprint.
   */
  ghost predicate LoadsRight(c: Component, w: World, h: B.Hash, r: LoadResult,
                             after: Component, loaded: Option<SourceStatus>, store: B.Store) {
    var source := c.Source();
    if MustKeep(c.spec, c.status) then
      r == LoadOk && loaded == c.status.sourceRef && after == c && store == w.store
    else if !Serves(w, source) then
      r == (if IsWorthWaiting(w, source) then LoadRetry(10) else LoadFailed) &&
      loaded == None && after == c && store == w.store
    else
      var offer := Offer(w, source, h);
      && r == LoadOk && loaded.Some? && after == c.(status := c.status.(sourceRef := loaded))
      && offer.Fetched? && loaded.value == SourceStatus(offer.artifact, h(offer.input))
      && (source.Blueprint? ==> HoldsJust(w.store, store, source.ref, loaded.value.artifact))
      && (!source.Blueprint? ==> store == w.store)
  }

  lemma LoadStepsRight(c: Component, w: World, h: B.Hash)
    ensures var offer := Offer(w, c.Source(), h);
      var (after, loaded) := LoadStep(c, OfferedStatus(offer, h));
      LoadsRight(c, w, h, ResultOf(c, offer), after, loaded, StoreAfter(c, w, offer, h))
  {
    OfferExact(w, c.Source(), h);
  }

  class SourceReference {
    var artifact: Artifact
    var digest: string
    var loaded: bool

    constructor ()
      ensures !loaded
    {
      artifact, digest, loaded := Artifact("", "", ""), "", false;
    }

    /** The loaded reference, if any. */
    function Loaded(): Option<SourceStatus>
      reads this
    {
      if loaded then Some(SourceStatus(artifact, digest)) else None
    }

    /** Loading twice is a programming error of the caller. */
    method Load(server: Server, w: World, component: ComponentObject, h: B.Hash) returns (r: LoadResult)
      requires !loaded && w.store == server.store
      modifies this, server, component`status
      ensures old(component.deleting) ==>
        r == LoadOk && unchanged(this) && unchanged(server) && unchanged(component)
      ensures !old(component.deleting) ==>
        var before := old(component.Value());
        var offer := Offer(w, before.Source(), h);
        && (component.Value(), Loaded()) == LoadStep(before, OfferedStatus(offer, h))
        && r == ResultOf(before, offer) && server.store == StoreAfter(before, w, offer, h)
      ensures !old(component.deleting) ==>
        LoadsRight(old(component.Value()), w, h, r, component.Value(), Loaded(), server.store)
    {
      LoadStepsRight(component.Value(), w, h);
      if component.deleting { return LoadOk; }
      if component.spec.sticky && IsProcessing(component.Value()) && component.status.sourceRef.Some? {
        artifact := component.status.sourceRef.value.artifact;
        digest := component.status.sourceRef.value.digest;
        loaded := true;
        return LoadOk;
      }
      var found: Artifact;
      var input: B.DigestInput;
      var source := component.spec.sourceRef.Resolve(component.namespace);
      if source in w.broken { return LoadFailed; }
      match source {
        case NoSource => { return LoadFailed; }
        case Blueprint(n) => {
          if n !in server.store.blueprints { return LoadRetry(RETRY_SECONDS); }
          var blueprint := server.store.blueprints[n];
          if w.patchFails { return LoadFailed; }
          server.store := B.ApplyVersion(server.store, n, h);
          found := Artifact(BlueprintUrl(n.ns, n.name, blueprint.Digest(h)), blueprint.Digest(h), blueprint.Revision());
          input := B.OfArtifact(found.url, found.digest, found.revision);
        }
        case HttpRepository(_, _, _) => {
          if source !in w.http { return LoadFailed; }
          found := w.http[source];
          input := B.OfArtifact(found.url, found.digest, found.revision);
        }
        case _ => {
          if source !in w.flux { return LoadRetry(RETRY_SECONDS); }
          var f := w.flux[source];
          if !IsSourceReady(f.conditions, f.generation) { return LoadRetry(RETRY_SECONDS); }
          if f.artifact.None? { return LoadRetry(RETRY_SECONDS); }
          found := f.artifact.value;
          if found.url == "" { return LoadRetry(RETRY_SECONDS); }
          if found.digest == "" { return LoadRetry(RETRY_SECONDS); }
          if found.revision == "" { return LoadRetry(RETRY_SECONDS); }
          input := B.OfFluxArtifact(f.uid, f.generation, f.annotations, found.url, found.digest, found.revision);
        }
      }
      artifact := found;
      digest := h(input);
      loaded := true;
      component.status := component.status.(sourceRef := Some(SourceStatus(artifact, digest)));
      r := LoadOk;
    }
  }

  // ---------------------------------------------------------------- pinning over runs

  /** One reconcile pass as seen by the pin: the clock the runtime recorded and what the source offered. */
  datatype Observation = Observation(at: int, offer: Option<SourceStatus>)

  function ObserveAndLoad(c: Component, o: Observation): (Component, Option<SourceStatus>) {
    LoadStep(c.(status := c.status.(lastObservedAt := o.at)), o.offer)
  }

  /** What the successive loads of a run return. */
  function LoadsOf(c: Component, run: seq<Observation>): (r: seq<Option<SourceStatus>>)
    ensures |r| == |run|
    decreases |run|
  {
    if run == [] then []
    else
      var (next, result) := ObserveAndLoad(c, run[0]);
      [result] + LoadsOf(next, run[1..])
  }

  /**
   While processing goes on the pin holds whatever the source does; once the window has passed
   on a non-decreasing clock it never comes back: the run splits into a pinned and a following part.
   */
  lemma {:induction false} PinThenFollow(c: Component, run: seq<Observation>) returns (n: nat)
    requires c.spec.sticky && c.status.sourceRef.Some? && c.status.processingSince.Some?
    requires forall i, j | 0 <= i < j < |run| :: run[i].at <= run[j].at
    ensures n <= |run|
    ensures forall i | 0 <= i < n ::
      Within(c.spec, run[i].at - c.status.processingSince.value) && LoadsOf(c, run)[i] == c.status.sourceRef
    ensures forall i | n <= i < |run| ::
      !Within(c.spec, run[i].at - c.status.processingSince.value) && LoadsOf(c, run)[i] == run[i].offer
    decreases |run|
  {
    if run == [] {
      n := 0;
    } else {
      var (next, result) := ObserveAndLoad(c, run[0]);
      if Within(c.spec, run[0].at - c.status.processingSince.value) {
        n := PinThenFollow(next, run[1..]);
        n := n + 1;
      } else {
        n := 0;
        FollowsSource(next, run[1..]);
      }
    }
  }

  lemma {:induction false} FollowsSource(c: Component, run: seq<Observation>)
    requires c.status.processingSince.Some?
    requires forall i | 0 <= i < |run| :: !Within(c.spec, run[i].at - c.status.processingSince.value)
    ensures forall i | 0 <= i < |run| :: LoadsOf(c, run)[i] == run[i].offer
    decreases |run|
  {
    if run != [] {
      var (next, result) := ObserveAndLoad(c, run[0]);
      FollowsSource(next, run[1..]);
    }
  }

  /** A component that is not sticky follows its source at once. */
  lemma {:induction false} UnpinnedFollows(c: Component, run: seq<Observation>)
    requires !c.spec.sticky
    ensures forall i | 0 <= i < |run| :: LoadsOf(c, run)[i] == run[i].offer
    decreases |run|
  {
    if run != [] {
      var (next, result) := ObserveAndLoad(c, run[0]);
      UnpinnedFollows(next, run[1..]);
    }
  }
}
