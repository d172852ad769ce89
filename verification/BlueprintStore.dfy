/**
 Blueprints and their content-addressed versions as the API server stores them
 (api/v1alpha1/types.go lines 448-501).
 */
module BlueprintStore {
  import opened Options
  import opened Names

  type Files = map<string, string>

  /** What a digest is computed from: api/v1alpha1/types.go lines 135, 145, 195 and 466. */
  datatype DigestInput =
    | OfFiles(files: Files)
    | OfArtifact(url: string, digest: string, revision: string)
    | OfFluxArtifact(uid: string, generation: int, annotations: map<string, string>,
                     url: string, digest: string, revision: string)

  /** The digest function; nothing is assumed of it but the form of its results. */
  type Hash = DigestInput -> string

  ghost predicate IsDigestFunction(h: Hash) {
    forall x :: IsHex(h(x))
  }

  datatype Blueprint = Blueprint(files: Files, generation: int, deleting: bool, finalizers: set<string>) {
    function Digest(h: Hash): string { h(OfFiles(files)) }
    function Revision(): string { "generation:" + Decimal(generation) }
  }

  datatype Version = Version(
    blueprint: string,
    digest: string,
    revision: string,
    files: Files,
    deleting: bool,
    finalizers: set<string>)

  datatype Store = Store(blueprints: map<NamespacedName, Blueprint>, versions: map<NamespacedName, Version>)

  function Digit(n: nat): char
    requires n < 10
  {
    "0123456789"[n]
  }

  function Decimal(n: int): string
    decreases if n < 0 then 1 - n else n
  {
    if n < 0 then "-" + Decimal(-n)
    else if n < 10 then [Digit(n)]
    else Decimal(n / 10) + [Digit(n % 10)]
  }

  function VersionKey(blueprint: NamespacedName, digest: string): NamespacedName {
    NamespacedName(blueprint.ns, VersionName(blueprint.name, digest))
  }

  /**
   Applying the version of a blueprint: the desired fields are forced, metadata the store
   manages (deletion mark, finalizers) is kept.
   */
  function ApplyVersion(s: Store, key: NamespacedName, h: Hash): Store
    requires key in s.blueprints
  {
    var b := s.blueprints[key];
    var vk := VersionKey(key, b.Digest(h));
    var stored := if vk in s.versions then s.versions[vk] else Version("", "", "", map[], false, {});
    s.(versions := s.versions[vk :=
      stored.(blueprint := key.name, digest := b.Digest(h), revision := b.Revision(), files := b.files)])
  }

  /** Deleting an object that holds finalizers only marks it. */
  function DeleteVersion(s: Store, key: NamespacedName): Store
    requires key in s.versions
  {
    if s.versions[key].finalizers == {} then s.(versions := s.versions - {key})
    else s.(versions := s.versions[key := s.versions[key].(deleting := true)])
  }

  /** An update leaves a blueprint in the store unless it is deleted and holds no finalizer. */
  function UpdateBlueprint(s: Store, key: NamespacedName, b: Blueprint): Store
  {
    if b.deleting && b.finalizers == {} then s.(blueprints := s.blueprints - {key})
    else s.(blueprints := s.blueprints[key := b])
  }

  /** The files a blueprint URL leads to (internal/generator/factory.go lines 153-162). */
  function FilesAt(s: Store, url: string): Option<Files> {
    match ParseBlueprintUrl(url)
    case None => None
    case Some(p) =>
      var key := NamespacedName(p.ns, VersionName(p.name, p.digest));
      if key in s.versions then Some(s.versions[key].files) else None
  }

  /** The revisions of a blueprint are as distinct as its generations. */
  lemma RevisionsDistinct(b: Blueprint, c: Blueprint)
    requires b.generation >= 0 && c.generation >= 0
    ensures b.Revision() == c.Revision() <==> b.generation == c.generation
  {
    assert b.Revision()[|"generation:"|..] == Decimal(b.generation);
    assert c.Revision()[|"generation:"|..] == Decimal(c.generation);
    if b.Revision() == c.Revision() {
      DecimalInjective(b.generation, c.generation);
    }
  }

  lemma {:induction false} DecimalInjective(m: int, n: int)
    requires m >= 0 && n >= 0 && Decimal(m) == Decimal(n)
    ensures m == n
    decreases m
  {
    if m >= 10 && n >= 10 {
      assert Decimal(m)[..|Decimal(m)| - 1] == Decimal(m / 10);
      assert Decimal(n)[..|Decimal(n)| - 1] == Decimal(n / 10);
      DecimalInjective(m / 10, n / 10);
      assert Digit(m % 10) == Digit(n % 10);
    } else {
      DecimalLength(m);
      DecimalLength(n);
    }
  }

  lemma {:induction false} DecimalLength(n: int)
    requires n >= 0
    ensures |Decimal(n)| == 1 <==> n < 10
    ensures |Decimal(n)| >= 1
  {
    if n >= 10 { DecimalLength(n / 10); }
  }
}
