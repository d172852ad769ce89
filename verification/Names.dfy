/**
 Names, index keys, version names and blueprint URLs (api/v1alpha1/types.go lines 117-135 and
 311-334, internal/generator/factory.go lines 153-160).
 */
module Names {
  import opened Options

  datatype NamespacedName = NamespacedName(ns: string, name: string) {
    /** The name, in namespace `namespace` unless it has one of its own. */
    function WithDefaultNamespace(namespace: string): NamespacedName {
      if ns == "" then NamespacedName(namespace, name) else this
    }

    /** Printed form; also the form of index keys. */
    function String(): string {
      if ns == "" then name else ns + "/" + name
    }
  }

  /** The key of an object in the store, as client.ObjectKeyFromObject(..).String() prints it. */
  function ObjectKey(n: NamespacedName): string {
    n.ns + "/" + n.name
  }

  /** Names the API server accepts: non-empty and free of slashes. */
  predicate IsObjectName(n: NamespacedName) {
    n.ns != "" && n.name != "" && '/' !in n.ns && '/' !in n.name
  }

  /** Lower-case hex, as produced by the digest functions. */
  predicate IsHex(s: string) {
    s != "" && forall c | c in s :: '0' <= c <= '9' || 'a' <= c <= 'f'
  }

  // ---------------------------------------------------------------- separators

  /** Text up to the first occurrence of a separator is unique. */
  lemma FirstSplit(a: string, b: string, c: string, d: string, sep: char)
    requires a + [sep] + b == c + [sep] + d && sep !in a && sep !in c
    ensures a == c && b == d
  {
    var s := a + [sep] + b;
    assert s[|a|] == sep && s[|c|] == sep;
    assert forall i | 0 <= i < |a| :: s[i] == a[i] && s[i] != sep;
    assert forall i | 0 <= i < |c| :: s[i] == c[i] && s[i] != sep;
    assert |a| == |c|;
    assert a == s[..|a|] && c == s[..|c|];
    assert b == s[|a| + 1..] && d == s[|c| + 1..];
  }

  /** So is text after the last occurrence. */
  lemma LastSplit(a: string, b: string, c: string, d: string, sep: char)
    requires a + [sep] + b == c + [sep] + d && sep !in b && sep !in d
    ensures a == c && b == d
  {
    var s, t := a + [sep] + b, c + [sep] + d;
    assert s[|a|] == sep && t[|c|] == sep;
    assert forall i | |a| < i < |s| :: s[i] == b[i - |a| - 1] && s[i] != sep;
    assert forall i | |c| < i < |t| :: t[i] == d[i - |c| - 1] && t[i] != sep;
    assert |a| == |c|;
    assert a == s[..|a|] && c == t[..|c|];
    assert b == s[|a| + 1..] && d == t[|c| + 1..];
  }

  // ---------------------------------------------------------------- keys

  /**
   An index entry equals an object's key exactly when the reference resolves to that object;
   no assumption is made about the text users put into references.
   */
  lemma KeyIdentifiesObject(reference: NamespacedName, namespace: string, target: NamespacedName)
    requires namespace != "" && IsObjectName(target)
    ensures reference.WithDefaultNamespace(namespace).String() == ObjectKey(target) <==>
      reference.WithDefaultNamespace(namespace) == target
    ensures reference.WithDefaultNamespace(namespace) == target <==>
      reference.name == target.name && target.ns == (if reference.ns == "" then namespace else reference.ns)
    ensures ObjectKey(target) == target.ns + "/" + target.name
  {
    var r := reference.WithDefaultNamespace(namespace);
    if r.String() == ObjectKey(target) {
      var s := ObjectKey(target);
      var at := |target.ns|;
      assert forall i | 0 <= i < at :: s[i] == target.ns[i];
      assert s[at] == '/' && forall i | at < i < |s| :: s[i] == target.name[i - at - 1];
      assert forall i | 0 <= i < |s| && s[i] == '/' :: i == at;
      assert s[|r.ns|] == '/' && forall i | 0 <= i < |r.ns| :: s[i] == r.ns[i];
      FirstSplit(r.ns, r.name, target.ns, target.name, '/');
    }
  }

  // ---------------------------------------------------------------- versions

  /** Name of the version of a blueprint with a given digest. */
  function VersionName(blueprint: string, digest: string): string {
    blueprint + "--" + digest
  }

  /** Hex digests make version names unambiguous although blueprint names may contain "--". */
  lemma VersionNameInjective(b: string, d: string, b': string, d': string)
    requires VersionName(b, d) == VersionName(b', d') && '-' !in d && '-' !in d'
    ensures b == b' && d == d'
  {
    assert VersionName(b, d) == (b + "-") + ['-'] + d;
    assert VersionName(b', d') == (b' + "-") + ['-'] + d';
    LastSplit(b + "-", d, b' + "-", d', '-');
    assert (b + "-")[..|b|] == b && (b' + "-")[..|b'|] == b';
  }

  // ---------------------------------------------------------------- blueprint URLs

  const SCHEME := "blueprint://"

  function BlueprintUrl(ns: string, name: string, digest: string): string {
    SCHEME + (ns + "/" + (name + "/" + digest))
  }

  datatype UrlParts = UrlParts(ns: string, name: string, digest: string)

  /** Position of the first slash, or the length. */
  function FirstSlash(s: string): (n: nat)
    ensures n <= |s| && '/' !in s[..n] && (n < |s| ==> s[n] == '/')
  {
    if s == "" || s[0] == '/' then 0
    else
      var n := 1 + FirstSlash(s[1..]);
      assert s[..n] == [s[0]] + s[1..][..n - 1];
      n
  }

  /** The submatches of ^blueprint://([^/]+)/([^/]+)/([^/]+)$. */
  function ParseBlueprintUrl(url: string): (r: Option<UrlParts>)
  {
    if SCHEME <= url then ParsePath(url[|SCHEME|..]) else None
  }

  function ParsePath(s: string): (r: Option<UrlParts>)
  {
    var i := FirstSlash(s);
    if i == 0 || i == |s| then None
    else
      var t := s[i + 1..];
      var j := FirstSlash(t);
      if j == 0 || j == |t| then None
      else
        var d := t[j + 1..];
        if d == "" || '/' in d then None else Some(UrlParts(s[..i], t[..j], d))
  }

  ghost predicate IsSegment(s: string) {
    s != "" && '/' !in s
  }

  lemma SlashAt(a: string, b: string)
    requires '/' !in a
    ensures FirstSlash(a + "/" + b) == |a| && (a + "/" + b)[..|a|] == a && (a + "/" + b)[|a| + 1..] == b
  {
    var s := a + "/" + b;
    var n := FirstSlash(s);
    assert s[|a|] == '/';
    assert forall i | 0 <= i < |a| :: s[i] == a[i] && s[i] != '/';
    assert forall i | 0 <= i < n :: s[..n][i] == s[i] && s[i] != '/';
    assert n == |a|;
  }

  lemma PrintedUrlsParse(p: UrlParts)
    requires IsSegment(p.ns) && IsSegment(p.name) && IsSegment(p.digest)
    ensures ParseBlueprintUrl(BlueprintUrl(p.ns, p.name, p.digest)) == Some(p)
  {
    var t := p.name + "/" + p.digest;
    var s := p.ns + "/" + t;
    assert BlueprintUrl(p.ns, p.name, p.digest)[|SCHEME|..] == s;
    SlashAt(p.ns, t);
    SlashAt(p.name, p.digest);
  }

  lemma ParsedUrlsPrint(url: string)
    ensures var r := ParseBlueprintUrl(url);
      r.Some? ==> && url == BlueprintUrl(r.value.ns, r.value.name, r.value.digest)
                  && IsSegment(r.value.ns) && IsSegment(r.value.name) && IsSegment(r.value.digest)
  {
    if ParseBlueprintUrl(url).Some? {
      var s := url[|SCHEME|..];
      var i := FirstSlash(s);
      var t := s[i + 1..];
      var j := FirstSlash(t);
      assert url == SCHEME + s;
      assert s == s[..i] + "/" + t;
      assert t == t[..j] + "/" + t[j + 1..];
    }
  }

  /** Parsing and printing are inverse: the parser accepts exactly the printed URLs. */
  lemma UrlRoundTrip(url: string, p: UrlParts)
    ensures ParseBlueprintUrl(url) == Some(p) <==>
      url == BlueprintUrl(p.ns, p.name, p.digest) && IsSegment(p.ns) && IsSegment(p.name) && IsSegment(p.digest)
    ensures BlueprintUrl(p.ns, p.name, p.digest) == "blueprint://" + p.ns + "/" + p.name + "/" + p.digest
  {
    assert p.ns + "/" + p.name + "/" + p.digest == p.ns + "/" + (p.name + "/" + p.digest);
    assert "blueprint://" + p.ns + "/" + p.name + "/" + p.digest == SCHEME + (p.ns + "/" + p.name + "/" + p.digest);
    ParsedUrlsPrint(url);
    if IsSegment(p.ns) && IsSegment(p.name) && IsSegment(p.digest) {
      PrintedUrlsParse(p);
    }
  }
}
