/**
 Field indexes over the cached components and the keys used to query them
 (internal/cache/component/cache.go).
 */
module ComponentIndex {
  import opened Options
  import opened Names
  import opened Api

  datatype Index =
    | Dependencies
    | BlueprintUsers
    | BlueprintVersionUsers
    | GitRepositoryUsers
    | OciRepositoryUsers
    | BucketUsers
    | HelmChartUsers

  function NameEntry(n: NamespacedName, c: Component): seq<string> {
    [n.WithDefaultNamespace(c.namespace).String()]
  }

  /** The entries an index holds for a component. */
  function Entries(index: Index, c: Component): seq<string> {
    var r := c.spec.sourceRef;
    match index
    case Dependencies =>
      seq(|c.spec.dependencies|, i requires 0 <= i < |c.spec.dependencies| =>
        c.spec.dependencies[i].WithDefaultNamespace(c.namespace).String())
    case BlueprintUsers => if r.Blueprint? then NameEntry(r.ref, c) else []
    case BlueprintVersionUsers =>
      if !r.Blueprint? || c.status.sourceRef.None? || c.status.sourceRef.value.artifact.digest == "" then []
      else NameEntry(NamespacedName(r.ref.ns, VersionName(r.ref.name, c.status.sourceRef.value.artifact.digest)), c)
    case GitRepositoryUsers => if r.FluxGitRepository? then NameEntry(r.ref, c) else []
    case OciRepositoryUsers => if r.FluxOciRepository? then NameEntry(r.ref, c) else []
    case BucketUsers => if r.FluxBucket? then NameEntry(r.ref, c) else []
    case HelmChartUsers => if r.FluxHelmChart? then NameEntry(r.ref, c) else []
  }

  /** The components an index lists for an object of the store. */
  ghost function Matching(cache: Components, index: Index, target: NamespacedName): set<NamespacedName> {
    set k | k in cache && ObjectKey(target) in Entries(index, cache[k])
  }

  /** Components are filed under their own key. */
  ghost predicate WellKeyed(cs: Components) {
    forall k | k in cs :: IsObjectName(k) && cs[k].Key() == k
  }

  // ---------------------------------------------------------------- index agrees with scan

  /** The components that depend on `target`. */
  ghost function Dependents(cs: Components, target: NamespacedName): set<NamespacedName> {
    set k | k in cs && target in cs[k].DependencyKeys()
  }

  lemma DependencyIndexIsScan(cache: Components, target: NamespacedName)
    requires WellKeyed(cache) && IsObjectName(target)
    ensures Matching(cache, Dependencies, target) == Dependents(cache, target)
  {
    forall k | k in cache
      ensures ObjectKey(target) in Entries(Dependencies, cache[k]) <==> target in cache[k].DependencyKeys()
    {
      var c := cache[k];
      assert c.namespace != "";
      forall i | 0 <= i < |c.spec.dependencies|
        ensures Entries(Dependencies, c)[i] == ObjectKey(target) <==> c.DependencyKey(c.spec.dependencies[i]) == target
      {
        KeyIdentifiesObject(c.spec.dependencies[i], c.namespace, target);
      }
      if target in c.DependencyKeys() {
        var i :| 0 <= i < |c.spec.dependencies| && c.DependencyKey(c.spec.dependencies[i]) == target;
        assert Entries(Dependencies, c)[i] == ObjectKey(target);
      }
    }
  }

  /** The index for a kind of source that is watched, and the source an object of that kind is. */
  datatype WatchedKind = BlueprintKind | GitRepositoryKind | OciRepositoryKind | BucketKind | HelmChartKind {
    function UserIndex(): Index {
      match this
      case BlueprintKind => BlueprintUsers
      case GitRepositoryKind => GitRepositoryUsers
      case OciRepositoryKind => OciRepositoryUsers
      case BucketKind => BucketUsers
      case HelmChartKind => HelmChartUsers
    }

    function SourceOf(n: NamespacedName): SourceRef {
      match this
      case BlueprintKind => Blueprint(n)
      case GitRepositoryKind => FluxGitRepository(n)
      case OciRepositoryKind => FluxOciRepository(n)
      case BucketKind => FluxBucket(n)
      case HelmChartKind => FluxHelmChart(n)
    }
  }

  /** The components built from a source. */
  ghost function Users(cs: Components, source: SourceRef): set<NamespacedName> {
    set k | k in cs && cs[k].Source() == source
  }

  lemma SourceIndexIsScan(cache: Components, kind: WatchedKind, target: NamespacedName)
    requires WellKeyed(cache) && IsObjectName(target)
    ensures Matching(cache, kind.UserIndex(), target) == Users(cache, kind.SourceOf(target))
  {
    forall k | k in cache
      ensures ObjectKey(target) in Entries(kind.UserIndex(), cache[k]) <==> cache[k].Source() == kind.SourceOf(target)
    {
      var c := cache[k];
      if c.spec.sourceRef.HasName() {
        KeyIdentifiesObject(c.spec.sourceRef.ref, c.namespace, target);
      }
    }
  }

  /** The version a component has recorded, by the name of its blueprint and the recorded digest. */
  ghost predicate UsesVersion(c: Component, blueprint: NamespacedName, digest: string) {
    && c.Source() == Blueprint(blueprint)
    && c.status.sourceRef.Some? && c.status.sourceRef.value.artifact.digest == digest
  }

  /** The key the version of a blueprint is stored under. */
  function VersionTarget(blueprint: NamespacedName, digest: string): NamespacedName {
    NamespacedName(blueprint.ns, VersionName(blueprint.name, digest))
  }

  ghost function VersionUsers(cs: Components, blueprint: NamespacedName, digest: string): set<NamespacedName> {
    set k | k in cs && UsesVersion(cs[k], blueprint, digest)
  }

  /** Both texts continue a shorter blueprint name and a shorter digest alike. */
  predicate Continues(name: string, recorded: string, longer: string, digest: string) {
    || (name + "--" <= longer && recorded == longer[|name| + 2..] + "--" + digest)
    || (longer == name + "-" && recorded == "-" + digest)
  }

  /** A component of another blueprint whose recorded digest ends in the digest in question. */
  ghost predicate Stray(c: Component, blueprint: NamespacedName, digest: string) {
    && c.Source().Blueprint? && c.Source().ref.ns == blueprint.ns && c.status.sourceRef.Some?
    && Continues(c.Source().ref.name, c.status.sourceRef.value.artifact.digest, blueprint.name, digest)
  }

  ghost function Strays(cs: Components, blueprint: NamespacedName, digest: string): set<NamespacedName> {
    set k | k in cs && Stray(cs[k], blueprint, digest)
  }

  /** Two version names are equal exactly if their parts are or one continues the other. */
  lemma VersionNamesEqual(name: string, recorded: string, longer: string, digest: string)
    requires IsHex(digest)
    ensures VersionName(name, recorded) == VersionName(longer, digest) <==>
      (name == longer && recorded == digest) || Continues(name, recorded, longer, digest)
    ensures !(name == longer && recorded == digest) || !Continues(name, recorded, longer, digest)
  {
    var s, t := VersionName(name, recorded), VersionName(longer, digest);
    assert s[..|name|] == name && s[|name| + 2..] == recorded && t[..|longer|] == longer && t[|longer| + 2..] == digest;
    assert s[|name|] == '-' && s[|name| + 1] == '-';
    assert '-' !in digest;
    assert forall i | |longer| + 2 <= i < |t| :: t[i] == digest[i - |longer| - 2];
    assert forall j | 0 <= j < |digest| :: digest[j] in digest;
    assert s == t ==> |name| + 1 < |longer| + 2;
    if s == t {
      if |longer| == |name| + 1 {
        assert longer == s[..|name| + 1] == name + "-";
        assert recorded == t[|name| + 2..] == "-" + digest;
      } else if |longer| > |name| + 1 {
        assert longer[..|name| + 2] == s[..|name| + 2] == name + "--";
        assert recorded == t[|name| + 2..] == longer[|name| + 2..] + "--" + digest;
      }
    }
    if name + "--" <= longer && recorded == longer[|name| + 2..] + "--" + digest {
      assert longer == name + "--" + longer[|name| + 2..];
    }
  }

  lemma VersionEntry(c: Component, blueprint: NamespacedName, digest: string)
    requires c.namespace != "" && IsObjectName(blueprint) && IsHex(digest)
    ensures ObjectKey(VersionTarget(blueprint, digest)) in Entries(BlueprintVersionUsers, c) <==>
      UsesVersion(c, blueprint, digest) || Stray(c, blueprint, digest)
    ensures !UsesVersion(c, blueprint, digest) || !Stray(c, blueprint, digest)
  {
    if c.spec.sourceRef.Blueprint? && c.status.sourceRef.Some? {
      var r, d := c.spec.sourceRef.ref, c.status.sourceRef.value.artifact.digest;
      var n := r.WithDefaultNamespace(c.namespace);
      var target := NamespacedName(blueprint.ns, VersionName(blueprint.name, digest));
      assert IsObjectName(target);
      VersionNamesEqual(n.name, d, blueprint.name, digest);
      KeyIdentifiesObject(NamespacedName(r.ns, VersionName(r.name, d)), c.namespace, target);
    }
  }

  /**
   Listing by a version finds the components that use it, and the strays: components whose
   digest was recorded for some other kind of source and that have been moved to a blueprint since.
   */
  lemma VersionIndexIsScan(cache: Components, blueprint: NamespacedName, digest: string)
    requires WellKeyed(cache) && IsObjectName(blueprint) && IsHex(digest)
    ensures var listed := Matching(cache, BlueprintVersionUsers, VersionTarget(blueprint, digest));
      && listed == VersionUsers(cache, blueprint, digest) + Strays(cache, blueprint, digest)
      && (listed == VersionUsers(cache, blueprint, digest) <==>
          forall k | k in cache :: !Stray(cache[k], blueprint, digest))
  {
    forall k | k in cache
      ensures ObjectKey(VersionTarget(blueprint, digest)) in Entries(BlueprintVersionUsers, cache[k]) <==>
        UsesVersion(cache[k], blueprint, digest) || Stray(cache[k], blueprint, digest)
      ensures !UsesVersion(cache[k], blueprint, digest) || !Stray(cache[k], blueprint, digest)
    {
      VersionEntry(cache[k], blueprint, digest);
    }
    var listed := Matching(cache, BlueprintVersionUsers, VersionTarget(blueprint, digest));
    if k :| k in cache && Stray(cache[k], blueprint, digest) {
      assert k in listed && k !in VersionUsers(cache, blueprint, digest);
    }
  }

  /** The component after a load from an HTTP source and an edit that moves it to a blueprint. */
  function Moved(c: Component, offer: SourceStatus, n: NamespacedName): Component {
    c.(status := c.status.(sourceRef := Some(offer)), spec := c.spec.(sourceRef := Blueprint(n)))
  }

  /**
   Any component moved from a source whose digest happened to end that way is listed for a version
   it does not use.
   */
  lemma MovedComponentIsListed(c: Component, offer: SourceStatus, n: NamespacedName, x: string, digest: string)
    requires IsObjectName(c.Key()) && IsObjectName(n) && '/' !in x && IsHex(digest)
    requires c.spec.sourceRef.HttpRepository? && offer.artifact.digest == x + "--" + digest
    ensures var cache := map[c.Key() := Moved(c, offer, n)];
      var other := NamespacedName(n.ns, n.name + "--" + x);
      && Matching(cache, BlueprintVersionUsers, NamespacedName(other.ns, VersionName(other.name, digest))) == {c.Key()}
      && VersionUsers(cache, other, digest) == {}
  {
    var cache := map[c.Key() := Moved(c, offer, n)];
    var other := NamespacedName(n.ns, n.name + "--" + x);
    assert other.name[|n.name| + 2..] == x && n.name + "--" <= other.name;
    assert Moved(c, offer, n).Source() == Blueprint(n);
    assert Stray(cache[c.Key()], other, digest);
    VersionEntry(cache[c.Key()], other, digest);
    assert c.Key() in Matching(cache, BlueprintVersionUsers, NamespacedName(other.ns, VersionName(other.name, digest)));
  }
}
