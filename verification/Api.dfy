/**
 The Component resource and the decisions of api/v1alpha1/types.go that only compute a value.
 Times and durations are integers (seconds).
 */
module Api {
  import opened Options
  import opened Names

  /**
   Where the manifests come from. The schema rule at api/v1alpha1/types.go line 58 admits exactly
   one of the six optional fields; NoSource is the empty reference the loader answers with an error.
   */
  datatype SourceRef =
    | NoSource
    | Blueprint(ref: NamespacedName)
    | HttpRepository(url: string, digestHeader: string, revisionHeader: string)
    | FluxGitRepository(ref: NamespacedName)
    | FluxOciRepository(ref: NamespacedName)
    | FluxBucket(ref: NamespacedName)
    | FluxHelmChart(ref: NamespacedName)
  {
    /** Both name the same kind of source with the same fields, before any namespace is filled in. */
    predicate Equals(other: SourceRef) {
      match this
      case NoSource => other.NoSource?
      case Blueprint(n) => other.Blueprint? && other.ref == n
      case HttpRepository(url, digestHeader, revisionHeader) =>
        && other.HttpRepository? && other.url == url
        && other.digestHeader == digestHeader && other.revisionHeader == revisionHeader
      case FluxGitRepository(n) => other.FluxGitRepository? && other.ref == n
      case FluxOciRepository(n) => other.FluxOciRepository? && other.ref == n
      case FluxBucket(n) => other.FluxBucket? && other.ref == n
      case FluxHelmChart(n) => other.FluxHelmChart? && other.ref == n
    }

    /** The reference with its namespace filled in: what the loader reads. */
    function Resolve(namespace: string): SourceRef {
      match this
      case NoSource => NoSource
      case HttpRepository(_, _, _) => this
      case Blueprint(n) => Blueprint(n.WithDefaultNamespace(namespace))
      case FluxGitRepository(n) => FluxGitRepository(n.WithDefaultNamespace(namespace))
      case FluxOciRepository(n) => FluxOciRepository(n.WithDefaultNamespace(namespace))
      case FluxBucket(n) => FluxBucket(n.WithDefaultNamespace(namespace))
      case FluxHelmChart(n) => FluxHelmChart(n.WithDefaultNamespace(namespace))
    }

    predicate HasName() { !NoSource? && !HttpRepository? }
  }

  predicate SameKind(r: SourceRef, s: SourceRef) {
    && r.Blueprint? == s.Blueprint? && r.FluxGitRepository? == s.FluxGitRepository?
    && r.FluxOciRepository? == s.FluxOciRepository? && r.FluxBucket? == s.FluxBucket?
    && r.FluxHelmChart? == s.FluxHelmChart?
  }

  /**
   Equals holds of the same references, HTTP repositories included. They name the same source
   unless they rely on the namespaces of two components; others do only if one of them relies on the
   namespace the other gives.
   */
  lemma EqualReferencesSameSource(r: SourceRef, s: SourceRef, nsR: string, nsS: string)
    requires nsR != "" && nsS != ""
    ensures r.Equals(s) <==> r == s
    ensures r == s ==> (r.Resolve(nsR) == s.Resolve(nsS) <==> nsR == nsS || !r.HasName() || r.ref.ns != "")
    ensures r != s ==> (r.Resolve(nsR) == s.Resolve(nsS) <==>
      && r.HasName() && s.HasName() && SameKind(r, s) && r.ref.name == s.ref.name
      && ((r.ref.ns == "" && s.ref.ns == nsR) || (s.ref.ns == "" && r.ref.ns == nsS)))
  {
    if r.HasName() && s.HasName() {
      assert r.Resolve(nsR).ref == r.ref.WithDefaultNamespace(nsR);
      assert s.Resolve(nsS).ref == s.ref.WithDefaultNamespace(nsS);
    }
  }

  datatype Artifact = Artifact(url: string, digest: string, revision: string)

  /** What a source offered at some point: the pair the dependency gate compares. */
  datatype Version = Version(digest: string, revision: string)

  const NO_VERSION := Version("", "")

  function VersionOf(a: Artifact): Version { Version(a.digest, a.revision) }

  datatype SourceStatus = SourceStatus(artifact: Artifact, digest: string)

  datatype Spec = Spec(
    sourceRef: SourceRef,
    digest: string,
    revision: string,
    sticky: bool,
    requeueInterval: Option<int>,
    timeout: Option<int>,
    dependencies: seq<NamespacedName>)

  /** `ready` is the runtime's own ready state, before the generation is compared. */
  datatype Status = Status(
    observedGeneration: int,
    ready: bool,
    sourceRef: Option<SourceStatus>,
    attempted: Version,
    applied: Version,
    processingSince: Option<int>,
    lastObservedAt: int)

  datatype Component = Component(
    namespace: string,
    name: string,
    generation: int,
    deleting: bool,
    spec: Spec,
    status: Status)
  {
    function Key(): NamespacedName { NamespacedName(namespace, name) }

    predicate IsReady() { status.observedGeneration == generation && status.ready }

    /** The dependency as a key of the store. */
    function DependencyKey(dependency: NamespacedName): NamespacedName {
      dependency.WithDefaultNamespace(namespace)
    }

    /** All dependencies as keys of the store. */
    function DependencyKeys(): set<NamespacedName> {
      set i | 0 <= i < |spec.dependencies| :: DependencyKey(spec.dependencies[i])
    }

    /** The source the component is built from. */
    function Source(): SourceRef { spec.sourceRef.Resolve(namespace) }
  }

  type Components = map<NamespacedName, Component>

  const DEFAULT_TIMEOUT := 600

  /** The timeout; the explicit one wins over the requeue interval, which wins over ten minutes. */
  function EffectiveTimeout(spec: Spec): int {
    if spec.timeout.Some? then spec.timeout.value
    else if spec.requeueInterval.Some? then spec.requeueInterval.value
    else DEFAULT_TIMEOUT
  }

  predicate IsProcessing(c: Component) {
    && c.status.processingSince.Some?
    && c.status.lastObservedAt - c.status.processingSince.value < EffectiveTimeout(c.spec)
  }

  /** The status of a component nobody has reconciled yet. */
  predicate IsFresh(s: Status) {
    !s.ready && s.sourceRef.None? && s.attempted == NO_VERSION && s.applied == NO_VERSION
  }
}
