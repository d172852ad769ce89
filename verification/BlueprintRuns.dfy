/**
 Blueprints, their versions and the components built from them over whole runs: loads write
 versions and later the status that refers to them, users edit blueprints and components, the
 informer cache lags, and collector passes delete versions in between.
 */
module BlueprintRuns {
  import opened Options
  import opened Names
  import opened Api
  import opened SourceLoading
  import B = BlueprintStore
  import C = BlueprintCollector

  type Key = NamespacedName

  /** A load that has written its version but not yet its status. */
  datatype Load = Load(blueprint: Key, status: SourceStatus)

  /**
   `live` is the API server, `cached` the informer cache. `settled` holds the components whose
   source reference is still the one their recorded source status was loaded from.
   */
  datatype State = State(
    store: B.Store,
    live: Components,
    cached: Components,
    loads: map<Key, Load>,
    settled: set<Key>)

  datatype Event =
    | WriteBlueprint(key: Key, files: B.Files)                     // created or edited by a user
    | DeleteBlueprint(key: Key)
    | HoldVersion(key: Key, finalizer: string)                     // somebody else's finalizers
    | ReleaseVersion(key: Key, finalizer: string)
    | HoldBlueprint(key: Key, finalizer: string)
    | ReleaseBlueprint(key: Key, finalizer: string)
    | CreateComponent(component: Component)
    | EditComponent(key: Key, spec: Spec)
    | UpdateStatus(key: Key, status: Status)                       // anything but the recorded source
    | RemoveComponent(key: Key)
    | Observe(key: Key)                                            // the informer catches up with one component
    | Patch(key: Key)                                              // first half of Load
    | Persist(key: Key)                                            // the status of that load is written
    | Abort(key: Key)                                              // or never is
    | LoadOther(key: Key, source: SourceStatus)                    // a load from another kind of source
    | Collect(key: Key, listing: seq<Key>, fails: set<C.Call>)     // a pass of the blueprint reconciler

  ghost predicate Enabled(s: State, e: Event) {
    match e
    case WriteBlueprint(k, _) => IsObjectName(k)
    case DeleteBlueprint(k) => k in s.store.blueprints
    case HoldVersion(v, f) => v in s.store.versions && !s.store.versions[v].deleting
    case ReleaseVersion(v, f) => v in s.store.versions && f in s.store.versions[v].finalizers
    case HoldBlueprint(k, f) => k in s.store.blueprints && !s.store.blueprints[k].deleting && f != C.FINALIZER
    case ReleaseBlueprint(k, f) => k in s.store.blueprints && f != C.FINALIZER
    case CreateComponent(c) => IsObjectName(c.Key()) && c.Key() !in s.live && IsFresh(c.status)
    case EditComponent(k, _) => k in s.live
    case UpdateStatus(k, st) => k in s.live && st.sourceRef == s.live[k].status.sourceRef
    case RemoveComponent(k) => k in s.live
    case Observe(k) => true
    case Patch(k) =>
      && k in s.cached && k !in s.loads && !s.cached[k].deleting && !IsPinned(s.cached[k])
      && s.cached[k].Source().Blueprint? && s.cached[k].Source().ref in s.store.blueprints
    case Persist(k) => k in s.loads
    case Abort(k) => k in s.loads
    case LoadOther(k, _) => k in s.live && !s.live[k].Source().Blueprint?
    case Collect(k, listing, _) => C.ListsVersions(listing, s.store, k)
  }

  function Written(s: B.Store, key: Key, files: B.Files): B.Store {
    var b := if key in s.blueprints
      then s.blueprints[key].(files := files, generation := s.blueprints[key].generation + 1)
      else B.Blueprint(files, 1, false, {});
    s.(blueprints := s.blueprints[key := b])
  }

  function Released(s: B.Store, version: Key, finalizer: string): B.Store
    requires version in s.versions
  {
    var v := s.versions[version].(finalizers := s.versions[version].finalizers - {finalizer});
    if v.deleting && v.finalizers == {} then s.(versions := s.versions - {version})
    else s.(versions := s.versions[version := v])
  }

  /** What a load from the blueprint is going to record. */
  function LoadFrom(s: B.Store, blueprint: Key, h: B.Hash): Load
    requires blueprint in s.blueprints
  {
    var a := BlueprintArtifact(blueprint, s.blueprints[blueprint], h);
    Load(blueprint, SourceStatus(a, h(B.OfArtifact(a.url, a.digest, a.revision))))
  }

  function WithSource(c: Component, st: SourceStatus): Component {
    c.(status := c.status.(sourceRef := Some(st)))
  }

  ghost function Step(s: State, e: Event, h: B.Hash): State
    requires Enabled(s, e)
  {
    match e
    case WriteBlueprint(k, files) => s.(store := Written(s.store, k, files))
    case DeleteBlueprint(k) => s.(store := B.UpdateBlueprint(s.store, k, s.store.blueprints[k].(deleting := true)))
    case HoldVersion(v, f) =>
      var held := s.store.versions[v].(finalizers := s.store.versions[v].finalizers + {f});
      s.(store := s.store.(versions := s.store.versions[v := held]))
    case ReleaseVersion(v, f) => s.(store := Released(s.store, v, f))
    case HoldBlueprint(k, f) =>
      var b := s.store.blueprints[k];
      s.(store := B.UpdateBlueprint(s.store, k, b.(finalizers := b.finalizers + {f})))
    case ReleaseBlueprint(k, f) =>
      var b := s.store.blueprints[k];
      s.(store := B.UpdateBlueprint(s.store, k, b.(finalizers := b.finalizers - {f})))
    case CreateComponent(c) => s.(live := s.live[c.Key() := c])
    case EditComponent(k, spec) =>
      s.(live := s.live[k := s.live[k].(spec := spec, generation := s.live[k].generation + 1)],
         settled := if spec.sourceRef == s.live[k].spec.sourceRef then s.settled else s.settled - {k})
    case UpdateStatus(k, st) => s.(live := s.live[k := s.live[k].(status := st)])
    case RemoveComponent(k) => s.(live := s.live - {k}, settled := s.settled - {k})
    case Observe(k) => s.(cached := if k in s.live then s.cached[k := s.live[k]] else s.cached - {k})
    case Patch(k) =>
      var n := s.cached[k].Source().ref;
      s.(store := B.ApplyVersion(s.store, n, h), loads := s.loads[k := LoadFrom(s.store, n, h)])
    case Persist(k) =>
      var t := s.(loads := s.loads - {k});
      if k !in s.live then t
      else t.(live := s.live[k := WithSource(s.live[k], s.loads[k].status)],
              settled := if s.live[k].Source() == Blueprint(s.loads[k].blueprint)
                then s.settled + {k} else s.settled - {k})
    case Abort(k) => s.(loads := s.loads - {k})
    case LoadOther(k, st) => s.(live := s.live[k := WithSource(s.live[k], st)], settled := s.settled + {k})
    case Collect(k, listing, fails) => s.(store := C.CollectorPass(s.store, s.cached, k, listing, fails).0)
  }

  /** Undisturbed, the two halves of a load are the load of the source reference. */
  lemma PatchThenPersistIsLoad(s: State, k: Key, w: World, h: B.Hash)
    requires Enabled(s, Patch(k)) && k in s.live && s.cached[k] == s.live[k]
    requires w.store == s.store && !w.patchFails && s.live[k].Source() !in w.broken
    ensures var t := Step(s, Patch(k), h);
      && Enabled(t, Persist(k))
      && var u := Step(t, Persist(k), h);
         && u.live[k] == LoadStep(s.live[k], OfferedStatus(Offer(w, s.live[k].Source(), h), h)).0
         && u.store == B.ApplyVersion(s.store, s.live[k].Source().ref, h)
         && k in u.settled
  {
  }

  ghost predicate ValidRun(s: State, run: seq<Event>, h: B.Hash)
    decreases |run|
  {
    run == [] || (Enabled(s, run[0]) && ValidRun(Step(s, run[0], h), run[1..], h))
  }

  ghost function After(s: State, run: seq<Event>, h: B.Hash): State
    requires ValidRun(s, run, h)
    decreases |run|
  {
    if run == [] then s else After(Step(s, run[0], h), run[1..], h)
  }

  lemma Prepend(s: State, e: Event, rest: seq<Event>, h: B.Hash)
    requires Enabled(s, e) && ValidRun(Step(s, e, h), rest, h)
    ensures ValidRun(s, [e] + rest, h) && After(s, [e] + rest, h) == After(Step(s, e, h), rest, h)
  {
    assert ([e] + rest)[1..] == rest;
  }

  lemma {:induction false} JoinRuns(s: State, run: seq<Event>, rest: seq<Event>, h: B.Hash)
    requires ValidRun(s, run, h) && ValidRun(After(s, run, h), rest, h)
    ensures ValidRun(s, run + rest, h) && After(s, run + rest, h) == After(After(s, run, h), rest, h)
    decreases |run|
  {
    if run == [] {
      assert run + rest == rest;
    } else {
      JoinRuns(Step(s, run[0], h), run[1..], rest, h);
      Prepend(s, run[0], run[1..] + rest, h);
      assert run + rest == [run[0]] + (run[1..] + rest);
    }
  }

  ghost predicate Initial(s: State) {
    s == State(B.Store(map[], map[]), map[], map[], map[], {})
  }

  // ---------------------------------------------------------------- what a blueprint offers

  /** The blueprint is there all the time. */
  ghost predicate Lives(s: State, run: seq<Event>, h: B.Hash, n: Key)
    requires ValidRun(s, run, h)
    decreases |run|
  {
    n in s.store.blueprints && (run == [] || Lives(Step(s, run[0], h), run[1..], h, n))
  }

  predicate Writes(run: seq<Event>, n: Key) {
    exists i :: 0 <= i < |run| && run[i].WriteBlueprint? && run[i].key == n
  }

  lemma GenerationStep(s: State, e: Event, h: B.Hash, n: Key)
    requires Enabled(s, e) && n in s.store.blueprints && n in Step(s, e, h).store.blueprints
    ensures var b, c := s.store.blueprints[n], Step(s, e, h).store.blueprints[n];
      if e.WriteBlueprint? && e.key == n then c.generation == b.generation + 1
      else c.generation == b.generation && c.files == b.files
  {
  }

  lemma {:induction false} GenerationGrows(s: State, run: seq<Event>, h: B.Hash, n: Key)
    requires ValidRun(s, run, h) && Lives(s, run, h, n)
    ensures n in s.store.blueprints && n in After(s, run, h).store.blueprints
    ensures var b, c := s.store.blueprints[n], After(s, run, h).store.blueprints[n];
      if Writes(run, n) then c.generation > b.generation else c.generation == b.generation && c.files == b.files
    decreases |run|
  {
    if run != [] {
      GenerationStep(s, run[0], h, n);
      GenerationGrows(Step(s, run[0], h), run[1..], h, n);
      if i :| 0 <= i < |run[1..]| && run[1..][i].WriteBlueprint? && run[1..][i].key == n {
        assert run[i + 1].WriteBlueprint? && run[i + 1].key == n;
      }
      if i :| 0 < i < |run| && run[i].WriteBlueprint? && run[i].key == n {
        assert run[1..][i - 1].WriteBlueprint? && run[1..][i - 1].key == n;
      }
    }
  }

  /** While a blueprint is not deleted every write makes it offer a version it has not offered before. */
  lemma LivingBlueprintGoesOn(s: State, run: seq<Event>, h: B.Hash, n: Key)
    requires ValidRun(s, run, h) && Lives(s, run, h, n) && s.store.blueprints[n].generation >= 0
    ensures n in After(s, run, h).store.blueprints
    ensures var offered := VersionOf(BlueprintArtifact(n, s.store.blueprints[n], h));
      VersionOf(BlueprintArtifact(n, After(s, run, h).store.blueprints[n], h)) != offered <==> Writes(run, n)
  {
    GenerationGrows(s, run, h, n);
    B.RevisionsDistinct(s.store.blueprints[n], After(s, run, h).store.blueprints[n]);
  }

  /** A blueprint that is deleted and created again goes back to what it offered first. */
  lemma RecreatedBlueprintGoesBack(s: State, n: Key, files: B.Files, others: B.Files, h: B.Hash)
    requires IsObjectName(n) && n !in s.store.blueprints
    ensures var first := Step(s, WriteBlueprint(n, files), h);
      var second := Step(first, WriteBlueprint(n, others), h);
      var gone := Step(second, DeleteBlueprint(n), h);
      && n !in gone.store.blueprints
      && BlueprintArtifact(n, Step(gone, WriteBlueprint(n, files), h).store.blueprints[n], h) ==
         BlueprintArtifact(n, first.store.blueprints[n], h)
      && VersionOf(BlueprintArtifact(n, second.store.blueprints[n], h)) !=
         VersionOf(BlueprintArtifact(n, first.store.blueprints[n], h))
  {
    var first := Step(s, WriteBlueprint(n, files), h);
    var second := Step(first, WriteBlueprint(n, others), h);
    B.RevisionsDistinct(first.store.blueprints[n], second.store.blueprints[n]);
  }

  // ---------------------------------------------------------------- content addressing

  /** A version holds the files its name is the digest of. */
  ghost predicate VersionOk(s: B.Store, v: Key, h: B.Hash) {
    v in s.versions ==>
      && s.versions[v].digest == h(B.OfFiles(s.versions[v].files))
      && v == B.VersionKey(NamespacedName(v.ns, s.versions[v].blueprint), s.versions[v].digest)
  }

  ghost predicate Addressed(s: State, h: B.Hash) {
    && (forall v {:trigger VersionOk(s.store, v, h)} :: VersionOk(s.store, v, h))
    && (forall k | k in s.store.blueprints :: IsObjectName(k))
  }

  lemma VersionOkStep(s: State, e: Event, h: B.Hash, v: Key)
    requires Enabled(s, e) && VersionOk(s.store, v, h)
    requires forall k | k in s.store.blueprints :: IsObjectName(k)
    ensures VersionOk(Step(s, e, h).store, v, h)
  {
    match e
    case Collect(k, listing, fails) =>
      var dead := C.PassDeletes(s.store, s.cached, k, listing, fails);
    case _ =>
  }

  lemma StepKeepsAddressed(s: State, e: Event, h: B.Hash)
    requires Enabled(s, e) && Addressed(s, h)
    ensures Addressed(Step(s, e, h), h)
  {
    forall v {:trigger VersionOk(Step(s, e, h).store, v, h)}
      ensures VersionOk(Step(s, e, h).store, v, h)
    {
      assert VersionOk(s.store, v, h);
      VersionOkStep(s, e, h, v);
    }
  }

  lemma {:induction false} RunKeepsAddressed(s: State, run: seq<Event>, h: B.Hash)
    requires Addressed(s, h) && ValidRun(s, run, h)
    ensures Addressed(After(s, run, h), h)
    decreases |run|
  {
    if run != [] {
      StepKeepsAddressed(s, run[0], h);
      RunKeepsAddressed(Step(s, run[0], h), run[1..], h);
    }
  }

  lemma {:induction false} SplitRun(s: State, run: seq<Event>, h: B.Hash, i: nat)
    requires ValidRun(s, run, h) && i <= |run|
    ensures ValidRun(s, run[..i], h)
    ensures ValidRun(After(s, run[..i], h), run[i..], h)
    ensures After(s, run, h) == After(After(s, run[..i], h), run[i..], h)
    decreases |run|
  {
    if i == 0 {
      assert run[i..] == run;
    } else {
      SplitRun(Step(s, run[0], h), run[1..], h, i - 1);
      assert run[..i][1..] == run[1..][..i - 1];
      assert run[i..] == run[1..][i - 1..];
    }
  }

  /** The files at the URL of a blueprint's current version. */
  lemma UrlOfVersion(s: B.Store, n: Key, digest: string)
    requires IsObjectName(n) && IsHex(digest)
    ensures B.FilesAt(s, BlueprintUrl(n.ns, n.name, digest)) ==
      if B.VersionKey(n, digest) in s.versions then Some(s.versions[B.VersionKey(n, digest)].files) else None
  {
    PrintedUrlsParse(UrlParts(n.ns, n.name, digest));
  }

  ghost predicate Collision(h: B.Hash, f: B.Files, g: B.Files) {
    f != g && h(B.OfFiles(f)) == h(B.OfFiles(g))
  }

  /**
   What a load has observed is what its URL leads to: at once, and however the blueprint is
   edited, collected or loaded again afterwards, unless two file sets share a digest.
   */
  lemma DownloadsAreObserved(s: State, run: seq<Event>, h: B.Hash, i: nat, k: Key)
    requires Initial(s) && ValidRun(s, run, h) && B.IsDigestFunction(h)
    requires i < |run| && run[i] == Patch(k)
    ensures ValidRun(s, run[..i], h)
    ensures var observed := After(s, run[..i], h);
      && Enabled(observed, Patch(k))
      && var n := observed.cached[k].Source().ref;
         var files, url := observed.store.blueprints[n].files, LoadFrom(observed.store, n, h).status.artifact.url;
         && B.FilesAt(Step(observed, Patch(k), h).store, url) == Some(files)
         && (forall f :: B.FilesAt(After(s, run, h).store, url) == Some(f) ==> f == files || Collision(h, f, files))
  {
    SplitRun(s, run, h, i);
    var observed := After(s, run[..i], h);
    assert run[i..][0] == Patch(k);
    RunKeepsAddressed(s, run[..i], h);
    RunKeepsAddressed(s, run, h);
    var n := observed.cached[k].Source().ref;
    var digest := observed.store.blueprints[n].Digest(h);
    UrlOfVersion(Step(observed, Patch(k), h).store, n, digest);
    UrlOfVersion(After(s, run, h).store, n, digest);
    var v := B.VersionKey(n, digest);
    assert VersionOk(After(s, run, h).store, v, h);
    if v in After(s, run, h).store.versions {
      VersionDigest(After(s, run, h).store, n, digest, h);
    }
  }

  /** A blueprint URL leads to the same files whenever it leads anywhere, unless two file sets share a digest. */
  lemma UrlsAreStable(s: State, t: State, url: string, h: B.Hash)
    requires Addressed(s, h) && Addressed(t, h) && B.IsDigestFunction(h)
    requires B.FilesAt(s.store, url).Some? && B.FilesAt(t.store, url).Some?
    ensures var f, g := B.FilesAt(s.store, url).value, B.FilesAt(t.store, url).value;
      f == g || Collision(h, f, g)
  {
    var p := ParseBlueprintUrl(url).value;
    var v := NamespacedName(p.ns, VersionName(p.name, p.digest));
    assert VersionOk(s.store, v, h) && VersionOk(t.store, v, h);
    var a, b := s.store.versions[v], t.store.versions[v];
    assert IsHex(h(B.OfFiles(a.files))) && IsHex(h(B.OfFiles(b.files)));
    VersionNameInjective(a.blueprint, a.digest, b.blueprint, b.digest);
  }

  /** The name of a version determines its digest. */
  lemma VersionDigest(s: B.Store, n: Key, digest: string, h: B.Hash)
    requires B.IsDigestFunction(h) && IsHex(digest)
    requires VersionOk(s, B.VersionKey(n, digest), h) && B.VersionKey(n, digest) in s.versions
    ensures h(B.OfFiles(s.versions[B.VersionKey(n, digest)].files)) == digest
    ensures s.versions[B.VersionKey(n, digest)].blueprint == n.name
  {
    var version := s.versions[B.VersionKey(n, digest)];
    assert IsHex(h(B.OfFiles(version.files)));
    VersionNameInjective(n.name, digest, version.blueprint, version.digest);
  }

  /** Nothing is stored but what users have written. */
  ghost predicate FilesFrom(s: B.Store, written: set<B.Files>) {
    && (forall k | k in s.blueprints :: s.blueprints[k].files in written)
    && (forall v | v in s.versions :: s.versions[v].files in written)
  }

  lemma BlueprintFilesStep(s: State, e: Event, h: B.Hash, written: set<B.Files>, k: Key)
    requires Enabled(s, e) && FilesFrom(s.store, written) && (e.WriteBlueprint? ==> e.files in written)
    requires k in Step(s, e, h).store.blueprints
    ensures Step(s, e, h).store.blueprints[k].files in written
  {
  }

  lemma VersionFilesStep(s: State, e: Event, h: B.Hash, written: set<B.Files>, v: Key)
    requires Enabled(s, e) && FilesFrom(s.store, written) && v in Step(s, e, h).store.versions
    ensures Step(s, e, h).store.versions[v].files in written
  {
    match e
    case Collect(k, listing, fails) =>
      var dead := C.PassDeletes(s.store, s.cached, k, listing, fails);
    case _ =>
  }

  lemma FilesFromStep(s: State, e: Event, h: B.Hash, written: set<B.Files>)
    requires Enabled(s, e) && FilesFrom(s.store, written) && (e.WriteBlueprint? ==> e.files in written)
    ensures FilesFrom(Step(s, e, h).store, written)
  {
    var t := Step(s, e, h).store;
    forall k | k in t.blueprints
      ensures t.blueprints[k].files in written
    {
      BlueprintFilesStep(s, e, h, written, k);
    }
    forall v | v in t.versions
      ensures t.versions[v].files in written
    {
      VersionFilesStep(s, e, h, written, v);
    }
  }

  // ---------------------------------------------------------------- garbage collection safety

  /** Version `v` is what the status of component `k`, or the status it is about to get, refers to. */
  ghost predicate Needs(s: State, k: Key, v: Key) {
    || (k in s.loads && v == B.VersionKey(s.loads[k].blueprint, s.loads[k].status.artifact.digest))
    || (k in s.live && k in s.settled && s.live[k].Source().Blueprint? && s.live[k].status.sourceRef.Some? &&
        v == B.VersionKey(s.live[k].Source().ref, s.live[k].status.sourceRef.value.artifact.digest))
  }

  ghost predicate Kept(s: B.Store, v: Key) {
    v in s.versions && !s.versions[v].deleting
  }

  /** The reference to a version as a load records it. */
  ghost predicate RefersTo(st: SourceStatus, n: Key) {
    && IsObjectName(n) && IsHex(st.artifact.digest)
    && st.artifact.url == BlueprintUrl(n.ns, n.name, st.artifact.digest)
  }

  ghost predicate LoadOk(s: State, k: Key) {
    k in s.loads ==>
      RefersTo(s.loads[k].status, s.loads[k].blueprint) &&
      Kept(s.store, B.VersionKey(s.loads[k].blueprint, s.loads[k].status.artifact.digest))
  }

  ghost predicate LiveOk(s: State, k: Key) {
    k in s.live ==>
      && IsObjectName(k) && s.live[k].Key() == k
      && (k in s.settled && s.live[k].Source().Blueprint? && s.live[k].status.sourceRef.Some? ==>
            var n, st := s.live[k].Source().ref, s.live[k].status.sourceRef.value;
            RefersTo(st, n) && Kept(s.store, B.VersionKey(n, st.artifact.digest)))
  }

  ghost predicate Inv(s: State, h: B.Hash) {
    && Addressed(s, h)
    && (forall k {:trigger LoadOk(s, k)} :: LoadOk(s, k))
    && (forall k {:trigger LiveOk(s, k)} :: LiveOk(s, k))
  }

  /**
   What safety needs of the moment of a step: a collector finds every needed version in use in
   its cache, and a load does not find its version on the way out.
   */
  ghost predicate Careful(s: State, e: Event, h: B.Hash)
    requires Enabled(s, e)
  {
    match e
    case Collect(_, _, _) => forall k, v | Needs(s, k, v) :: C.InUse(s.cached, v)
    case Patch(k) =>
      var n := s.cached[k].Source().ref;
      var v := B.VersionKey(n, s.store.blueprints[n].Digest(h));
      v in s.store.versions ==> !s.store.versions[v].deleting
    case _ => true
  }

  /** No step but a careless one touches a version that is kept and needed. */
  lemma KeptStep(s: State, e: Event, h: B.Hash, v: Key)
    requires Enabled(s, e) && Kept(s.store, v)
    requires e.Collect? ==> C.InUse(s.cached, v)
    ensures Kept(Step(s, e, h).store, v)
  {
    match e
    case Collect(k, listing, fails) => C.UsedVersionsStay(s.store, s.cached, k, listing, fails, v);
    case _ =>
  }

  lemma LoadOkStep(s: State, e: Event, h: B.Hash, k: Key)
    requires Enabled(s, e) && Careful(s, e, h) && Addressed(s, h) && B.IsDigestFunction(h)
    requires LoadOk(s, k)
    ensures LoadOk(Step(s, e, h), k)
  {
    var t := Step(s, e, h);
    if k in s.loads && k in t.loads {
      var v := B.VersionKey(s.loads[k].blueprint, s.loads[k].status.artifact.digest);
      assert Needs(s, k, v);
      KeptStep(s, e, h, v);
    }
  }

  lemma LiveOkStep(s: State, e: Event, h: B.Hash, k: Key)
    requires Enabled(s, e) && Careful(s, e, h)
    requires LoadOk(s, k) && LiveOk(s, k)
    ensures LiveOk(Step(s, e, h), k)
  {
    if e.Persist? && e.key == k {
    } else if e.CreateComponent? {
    } else if k in s.live && k in s.settled && s.live[k].Source().Blueprint? && s.live[k].status.sourceRef.Some? {
      var v := B.VersionKey(s.live[k].Source().ref, s.live[k].status.sourceRef.value.artifact.digest);
      assert Needs(s, k, v);
      KeptStep(s, e, h, v);
    }
  }

  lemma StepKeepsInv(s: State, e: Event, h: B.Hash)
    requires Enabled(s, e) && Careful(s, e, h) && Inv(s, h) && B.IsDigestFunction(h)
    ensures Inv(Step(s, e, h), h)
  {
    var t := Step(s, e, h);
    StepKeepsAddressed(s, e, h);
    forall k {:trigger LoadOk(t, k)}
      ensures LoadOk(t, k)
    {
      assert LoadOk(s, k);
      LoadOkStep(s, e, h, k);
    }
    forall k {:trigger LiveOk(t, k)}
      ensures LiveOk(t, k)
    {
      assert LoadOk(s, k) && LiveOk(s, k);
      LiveOkStep(s, e, h, k);
    }
  }

  ghost predicate CarefulRun(s: State, run: seq<Event>, h: B.Hash)
    requires ValidRun(s, run, h)
    decreases |run|
  {
    run == [] || (Careful(s, run[0], h) && CarefulRun(Step(s, run[0], h), run[1..], h))
  }

  lemma {:induction false} RunKeepsInv(s: State, run: seq<Event>, h: B.Hash)
    requires B.IsDigestFunction(h) && Inv(s, h) && ValidRun(s, run, h) && CarefulRun(s, run, h)
    ensures Inv(After(s, run, h), h)
    decreases |run|
  {
    if run != [] {
      StepKeepsInv(s, run[0], h);
      RunKeepsInv(Step(s, run[0], h), run[1..], h);
    }
  }

  /**
   In every run of careful steps the URL recorded by a component leads to files with the
   recorded digest, as long as its source reference is the one it was recorded for.
   */
  lemma RecordedUrlsLead(s: State, run: seq<Event>, h: B.Hash, k: Key)
    requires B.IsDigestFunction(h) && Initial(s) && ValidRun(s, run, h) && CarefulRun(s, run, h)
    requires var t := After(s, run, h);
      k in t.live && k in t.settled && t.live[k].Source().Blueprint? && t.live[k].status.sourceRef.Some?
    ensures var t := After(s, run, h);
      var a := t.live[k].status.sourceRef.value.artifact;
      && B.FilesAt(t.store, a.url).Some?
      && h(B.OfFiles(B.FilesAt(t.store, a.url).value)) == a.digest
  {
    var t := After(s, run, h);
    RunKeepsInv(s, run, h);
    assert LiveOk(t, k);
    var n, a := t.live[k].Source().ref, t.live[k].status.sourceRef.value.artifact;
    UrlOfVersion(t.store, n, a.digest);
    assert VersionOk(t.store, B.VersionKey(n, a.digest), h);
    VersionDigest(t.store, n, a.digest, h);
  }

  // ---------------------------------------------------------------- what has been recorded was observed

  /** The status was printed by the load of `j` at position `i` of the run, from blueprint `n` as it was then. */
  ghost predicate WasLoaded(s: State, run: seq<Event>, h: B.Hash, i: int, j: Key, n: Key, st: SourceStatus) {
    && 0 <= i < |run| && run[i] == Patch(j) && ValidRun(s, run[..i], h)
    && var observed := After(s, run[..i], h);
       && Enabled(observed, Patch(j)) && observed.cached[j].Source() == Blueprint(n)
       && LoadFrom(observed.store, n, h) == Load(n, st)
  }

  lemma StillLoaded(s: State, run: seq<Event>, h: B.Hash, i: int, j: Key, n: Key, st: SourceStatus)
    requires run != [] && WasLoaded(s, run[..|run| - 1], h, i, j, n, st)
    ensures WasLoaded(s, run, h, i, j, n, st)
  {
    assert run[..|run| - 1][..i] == run[..i];
  }

  lemma LastStep(s: State, run: seq<Event>, h: B.Hash)
    requires ValidRun(s, run, h) && run != []
    ensures var init, e := run[..|run| - 1], run[|run| - 1];
      ValidRun(s, init, h) && Enabled(After(s, init, h), e) && After(s, run, h) == Step(After(s, init, h), e, h)
  {
    SplitRun(s, run, h, |run| - 1);
    var rest := run[|run| - 1..];
    assert rest == [run[|run| - 1]] && rest[1..] == [];
  }

  /** Every load in progress is the latest of its component. */
  lemma {:induction false} RunningWasLoaded(s: State, run: seq<Event>, h: B.Hash, k: Key) returns (i: int)
    requires Initial(s) && ValidRun(s, run, h) && k in After(s, run, h).loads
    ensures var l := After(s, run, h).loads[k]; WasLoaded(s, run, h, i, k, l.blueprint, l.status)
    decreases |run|
  {
    LastStep(s, run, h);
    var init, e := run[..|run| - 1], run[|run| - 1];
    if e == Patch(k) {
      i := |run| - 1;
    } else {
      i := RunningWasLoaded(s, init, h, k);
      var l := After(s, run, h).loads[k];
      StillLoaded(s, run, h, i, k, l.blueprint, l.status);
    }
  }

  /** What a component has recorded for its blueprint was observed by one of its loads. */
  lemma {:induction false} RecordedWasLoaded(s: State, run: seq<Event>, h: B.Hash, k: Key) returns (i: int)
    requires Initial(s) && ValidRun(s, run, h)
    requires var t := After(s, run, h);
      k in t.live && k in t.settled && t.live[k].Source().Blueprint? && t.live[k].status.sourceRef.Some?
    ensures var c := After(s, run, h).live[k];
      WasLoaded(s, run, h, i, k, c.Source().ref, c.status.sourceRef.value)
    decreases |run|
  {
    LastStep(s, run, h);
    var init, e := run[..|run| - 1], run[|run| - 1];
    var c := After(s, run, h).live[k];
    if e == Persist(k) {
      i := RunningWasLoaded(s, init, h, k);
    } else {
      i := RecordedWasLoaded(s, init, h, k);
    }
    StillLoaded(s, run, h, i, k, c.Source().ref, c.status.sourceRef.value);
  }
}
