/**
 When collector passes are safe for components and when they are not, and what the finalizer
 of a blueprint guarantees (internal/controllers/blueprint/reconciler.go lines 59-111).
 */
module BlueprintSafety {
  import opened Options
  import opened Names
  import opened Api
  import opened ComponentIndex
  import opened SourceLoading
  import opened BlueprintRuns
  import B = BlueprintStore
  import C = BlueprintCollector

  // ---------------------------------------------------------------- calm passes

  lemma RecordedVersionInUse(cache: Components, k: Key, n: Key, digest: string)
    requires k in cache && cache[k].namespace != "" && IsObjectName(n) && digest != ""
    requires UsesVersion(cache[k], n, digest)
    ensures C.InUse(cache, B.VersionKey(n, digest))
  {
    assert k in Matching(cache, BlueprintVersionUsers, B.VersionKey(n, digest));
  }

  predicate SameRecord(a: Component, b: Component) {
    a.namespace == b.namespace && a.spec.sourceRef == b.spec.sourceRef && a.status.sourceRef == b.status.sourceRef
  }

  /** The cache shows the source and the recorded artifact of every component as they are. */
  ghost predicate CaughtUp(s: State) {
    forall k | k in s.live :: k in s.cached && SameRecord(s.cached[k], s.live[k])
  }

  /** Nobody but the collector deletes versions and nobody holds them back. */
  ghost predicate Free(s: State) {
    forall v | v in s.store.versions :: s.store.versions[v].finalizers == {} && !s.store.versions[v].deleting
  }

  /** Passes run while no load is between its two writes and the cache has caught up; nobody holds versions. */
  ghost predicate CalmRun(s: State, run: seq<Event>, h: B.Hash)
    requires ValidRun(s, run, h)
    decreases |run|
  {
    run == [] || (
      && !run[0].HoldVersion?
      && (run[0].Collect? ==> s.loads == map[] && CaughtUp(s))
      && CalmRun(Step(s, run[0], h), run[1..], h))
  }

  lemma CalmStepIsCareful(s: State, e: Event, h: B.Hash)
    requires Enabled(s, e) && Inv(s, h) && Free(s)
    requires e.Collect? ==> s.loads == map[] && CaughtUp(s)
    ensures Careful(s, e, h)
  {
    if e.Collect? {
      forall k, v | Needs(s, k, v)
        ensures C.InUse(s.cached, v)
      {
        assert LiveOk(s, k);
        var n, digest := s.live[k].Source().ref, s.live[k].status.sourceRef.value.artifact.digest;
        RecordedVersionInUse(s.cached, k, n, digest);
      }
    }
  }

  lemma FreeStep(s: State, e: Event, h: B.Hash)
    requires Enabled(s, e) && Free(s) && !e.HoldVersion?
    ensures Free(Step(s, e, h))
  {
    match e
    case Collect(k, listing, fails) =>
      var dead := C.PassDeletes(s.store, s.cached, k, listing, fails);
    case _ =>
  }

  lemma {:induction false} CalmRunsAreCareful(s: State, run: seq<Event>, h: B.Hash)
    requires B.IsDigestFunction(h) && Inv(s, h) && Free(s) && ValidRun(s, run, h) && CalmRun(s, run, h)
    ensures CarefulRun(s, run, h)
    decreases |run|
  {
    if run != [] {
      CalmStepIsCareful(s, run[0], h);
      StepKeepsInv(s, run[0], h);
      FreeStep(s, run[0], h);
      CalmRunsAreCareful(Step(s, run[0], h), run[1..], h);
    }
  }

  /** Calm passes never delete what a component has recorded, in any run of everything else. */
  lemma CalmPassesAreSafe(s: State, run: seq<Event>, h: B.Hash, k: Key)
    requires B.IsDigestFunction(h) && Initial(s) && ValidRun(s, run, h) && CalmRun(s, run, h)
    requires var t := After(s, run, h);
      k in t.live && k in t.settled && t.live[k].Source().Blueprint? && t.live[k].status.sourceRef.Some?
    ensures var t := After(s, run, h);
      var a := t.live[k].status.sourceRef.value.artifact;
      && B.VersionKey(t.live[k].Source().ref, a.digest) in t.store.versions
      && B.FilesAt(t.store, a.url).Some?
      && h(B.OfFiles(B.FilesAt(t.store, a.url).value)) == a.digest
  {
    CalmRunsAreCareful(s, run, h);
    RecordedUrlsLead(s, run, h, k);
    RunKeepsInv(s, run, h);
    assert LiveOk(After(s, run, h), k);
  }

  // ---------------------------------------------------------------- and only careful ones

  /**
   A pass that gets through keeps all needed versions of its blueprint exactly when its cache
   lists a component for each of them.
   */
  lemma PassSafeExactly(s: State, key: Key, listing: seq<Key>, h: B.Hash)
    requires Enabled(s, Collect(key, listing, {})) && Free(s) && key in s.store.blueprints
    ensures var t := Step(s, Collect(key, listing, {}), h);
      (forall k, v | Needs(s, k, v) && v in C.VersionsOf(s.store, key) :: v in t.store.versions) <==>
      (forall k, v | Needs(s, k, v) && v in C.VersionsOf(s.store, key) :: C.InUse(s.cached, v))
  {
    var t := Step(s, Collect(key, listing, {}), h);
    C.ErrorFreePassExact(s.store, s.cached, key, listing);
    forall k, v | Needs(s, k, v) && v in C.VersionsOf(s.store, key)
      ensures v in t.store.versions <==> C.InUse(s.cached, v)
    {
      if C.InUse(s.cached, v) {
        C.UsedVersionsStay(s.store, s.cached, key, listing, {}, v);
      }
    }
  }

  /** A new component built from a blueprint. */
  function NewUser(k: Key, n: Key, sticky: bool): Component {
    Component(k.ns, k.name, 1, false, Spec(Blueprint(n), "", "", sticky, None, None, []),
      Status(0, false, None, NO_VERSION, NO_VERSION, None, 0))
  }

  /** A blueprint and one component whose first load is complete. */
  function FirstLoad(k: Key, n: Key, files: B.Files, sticky: bool): seq<Event> {
    [WriteBlueprint(n, files), CreateComponent(NewUser(k, n, sticky)), Observe(k), Patch(k), Persist(k)]
  }

  function StoredBlueprint(files: B.Files): B.Blueprint {
    B.Blueprint(files, 1, false, {})
  }

  function StoredVersion(n: Key, files: B.Files, h: B.Hash): B.Version {
    var b := StoredBlueprint(files);
    B.Version(n.name, b.Digest(h), b.Revision(), files, false, {})
  }

  /** The state in which only the blueprint has been written, and the one after the first load. */
  function WithBlueprint(n: Key, files: B.Files): State {
    State(B.Store(map[n := StoredBlueprint(files)], map[]), map[], map[], map[], {})
  }

  function Loaded(k: Key, n: Key, files: B.Files, sticky: bool, h: B.Hash): State {
    var b := StoredBlueprint(files);
    var store := B.Store(map[n := b], map[B.VersionKey(n, b.Digest(h)) := StoredVersion(n, files, h)]);
    var c := NewUser(k, n, sticky);
    State(store, map[k := WithSource(c, LoadFrom(store, n, h).status)], map[k := c], map[], {k})
  }

  /** Between the two writes of the first load. */
  function HalfLoaded(k: Key, n: Key, files: B.Files, sticky: bool, h: B.Hash): State {
    var t := Loaded(k, n, files, sticky, h);
    t.(live := t.cached, loads := map[k := LoadFrom(t.store, n, h)], settled := {})
  }

  lemma FirstPatch(k: Key, n: Key, files: B.Files, sticky: bool, h: B.Hash)
    requires IsObjectName(n)
    ensures var c := NewUser(k, n, sticky);
      var s := WithBlueprint(n, files).(live := map[k := c], cached := map[k := c]);
      Enabled(s, Patch(k)) && Step(s, Patch(k), h) == HalfLoaded(k, n, files, sticky, h)
  {
    var c := NewUser(k, n, sticky);
    var s := WithBlueprint(n, files).(live := map[k := c], cached := map[k := c]);
    assert c.Source() == Blueprint(n);
    assert Step(s, Patch(k), h).store == Loaded(k, n, files, sticky, h).store;
  }

  lemma FirstPersist(k: Key, n: Key, files: B.Files, sticky: bool, h: B.Hash)
    requires IsObjectName(n)
    ensures Step(HalfLoaded(k, n, files, sticky, h), Persist(k), h) == Loaded(k, n, files, sticky, h)
  {
    var t := Step(HalfLoaded(k, n, files, sticky, h), Persist(k), h);
    assert NewUser(k, n, sticky).Source() == Blueprint(n);
    assert t.live == Loaded(k, n, files, sticky, h).live;
    assert t.loads == map[];
  }

  lemma AfterFirstLoad(s: State, k: Key, n: Key, files: B.Files, sticky: bool, h: B.Hash)
    requires Initial(s) && IsObjectName(k) && IsObjectName(n)
    ensures ValidRun(s, FirstLoad(k, n, files, sticky), h)
    ensures After(s, FirstLoad(k, n, files, sticky), h) == Loaded(k, n, files, sticky, h)
  {
    var c := NewUser(k, n, sticky);
    var s1 := WithBlueprint(n, files);
    var s2 := s1.(live := map[k := c]);
    var s3 := s2.(cached := map[k := c]);
    FirstPatch(k, n, files, sticky, h);
    FirstPersist(k, n, files, sticky, h);
    var s4 := HalfLoaded(k, n, files, sticky, h);
    var s5 := Loaded(k, n, files, sticky, h);
    assert Step(s, WriteBlueprint(n, files), h) == s1;
    assert c.Key() == k;
    assert ValidRun(s5, [], h) && After(s5, [], h) == s5;
    Prepend(s4, Persist(k), [], h);
    Prepend(s3, Patch(k), [Persist(k)], h);
    Prepend(s2, Observe(k), [Patch(k), Persist(k)], h);
    Prepend(s1, CreateComponent(c), [Observe(k), Patch(k), Persist(k)], h);
    Prepend(s, WriteBlueprint(n, files), [CreateComponent(c), Observe(k), Patch(k), Persist(k)], h);
  }

  /**
   The race admitted at internal/controllers/blueprint/reconciler.go line 81: a pass whose cache
   has not seen the recorded status deletes the version the component has just recorded.
   */
  lemma StaleCacheLosesVersion(s: State, k: Key, n: Key, files: B.Files, h: B.Hash)
    requires Initial(s) && IsObjectName(k) && IsObjectName(n) && B.IsDigestFunction(h)
    ensures ValidRun(s, FirstLoad(k, n, files, false), h)
    ensures var t := After(s, FirstLoad(k, n, files, false), h);
      var pass := Collect(n, [B.VersionKey(n, h(B.OfFiles(files)))], {});
      && Enabled(t, pass)
      && var u := Step(t, pass, h);
         && k in u.live && k in u.settled && u.live[k].status.sourceRef.Some?
         && B.FilesAt(u.store, u.live[k].status.sourceRef.value.artifact.url) == None
  {
    AfterFirstLoad(s, k, n, files, false, h);
    assert Entries(BlueprintVersionUsers, NewUser(k, n, false)) == [];
    UnlistedVersionGoes(Loaded(k, n, files, false, h), n, files, h);
  }

  /** The only version of a blueprint goes with the next pass if the cache lists no component for it. */
  lemma UnlistedVersionGoes(t: State, n: Key, files: B.Files, h: B.Hash)
    requires IsObjectName(n) && B.IsDigestFunction(h)
    requires t.store.versions == map[B.VersionKey(n, h(B.OfFiles(files))) := StoredVersion(n, files, h)]
    requires n in t.store.blueprints
    requires !C.InUse(t.cached, B.VersionKey(n, h(B.OfFiles(files))))
    ensures var pass := Collect(n, [B.VersionKey(n, h(B.OfFiles(files)))], {});
      && Enabled(t, pass)
      && B.FilesAt(Step(t, pass, h).store, BlueprintUrl(n.ns, n.name, h(B.OfFiles(files)))) == None
      && Step(t, pass, h).live == t.live && Step(t, pass, h).settled == t.settled
  {
    var digest := h(B.OfFiles(files));
    var v := B.VersionKey(n, digest);
    var listing := [v];
    assert C.ListsVersions(listing, t.store, n);
    C.ErrorFreePassExact(t.store, t.cached, n, listing);
    assert v in C.VersionsOf(t.store, n);
    UrlOfVersion(Step(t, Collect(n, listing, {}), h).store, n, digest);
  }

  /** The component starts processing, then its source reference is edited, and the cache sees it. */
  function EditWhileProcessing(c: Component, other: SourceRef): seq<Event> {
    [UpdateStatus(c.Key(), c.status.(processingSince := Some(0))),
     EditComponent(c.Key(), c.spec.(sourceRef := other)),
     Observe(c.Key())]
  }

  function EditedWhileProcessing(c: Component, other: SourceRef): Component {
    c.(status := c.status.(processingSince := Some(0)),
       spec := c.spec.(sourceRef := other),
       generation := c.generation + 1)
  }

  lemma AfterEdit(s: State, c: Component, other: SourceRef, h: B.Hash)
    requires s.live == map[c.Key() := c] && s.cached.Keys == {c.Key()} && other != c.spec.sourceRef
    ensures ValidRun(s, EditWhileProcessing(c, other), h)
    ensures After(s, EditWhileProcessing(c, other), h) == (
      var cs := map[c.Key() := EditedWhileProcessing(c, other)];
      s.(live := cs, cached := cs, settled := s.settled - {c.Key()}))
  {
    var k, run := c.Key(), EditWhileProcessing(c, other);
    var s1 := Step(s, run[0], h);
    var s2 := Step(s1, run[1], h);
    var s3 := Step(s2, run[2], h);
    assert s2.live == map[k := EditedWhileProcessing(c, other)];
    assert ValidRun(s3, [], h) && After(s3, [], h) == s3;
    Prepend(s2, run[2], [], h);
    Prepend(s1, run[1], [run[2]], h);
    Prepend(s, run[0], [run[1], run[2]], h);
  }

  /** The index lists a component for the version it has recorded only under its current reference. */
  lemma EditedIsUnlisted(c: Component, n: Key, digest: string)
    requires c.namespace != "" && IsObjectName(n) && IsHex(digest) && c.Source() != Blueprint(n)
    requires c.status.sourceRef.Some? && c.status.sourceRef.value.artifact.digest == digest
    ensures !C.InUse(map[c.Key() := c], B.VersionKey(n, digest))
  {
    VersionEntry(c, n, digest);
  }

  /**
   What keeps a URL alive, whatever the components built from it refer to by now: it leads
   somewhere after a pass exactly if some cached component uses its version or strays into it.
   */
  lemma UrlSurvivesExactly(s: State, n: Key, digest: string, listing: seq<Key>, h: B.Hash)
    requires Enabled(s, Collect(n, listing, {})) && Free(s) && Addressed(s, h) && B.IsDigestFunction(h)
    requires n in s.store.blueprints && IsHex(digest) && B.VersionKey(n, digest) in s.store.versions
    requires forall k | k in s.cached :: s.cached[k].namespace != ""
    ensures B.FilesAt(Step(s, Collect(n, listing, {}), h).store, BlueprintUrl(n.ns, n.name, digest)).Some? <==>
      exists k :: k in s.cached && (UsesVersion(s.cached[k], n, digest) || Stray(s.cached[k], n, digest))
  {
    var t, v := Step(s, Collect(n, listing, {}), h), B.VersionKey(n, digest);
    assert VersionOk(s.store, v, h);
    VersionDigest(s.store, n, digest, h);
    UrlOfVersion(t.store, n, digest);
    C.ErrorFreePassExact(s.store, s.cached, n, listing);
    assert v in C.VersionsOf(s.store, n);
    if C.InUse(s.cached, v) {
      C.UsedVersionsStay(s.store, s.cached, n, listing, {}, v);
    }
    InUseExactly(s.cached, n, digest);
  }

  lemma InUseExactly(cache: Components, n: Key, digest: string)
    requires IsObjectName(n) && IsHex(digest) && forall k | k in cache :: cache[k].namespace != ""
    ensures C.InUse(cache, B.VersionKey(n, digest)) <==>
      exists k :: k in cache && (UsesVersion(cache[k], n, digest) || Stray(cache[k], n, digest))
  {
    var listed := Matching(cache, BlueprintVersionUsers, B.VersionKey(n, digest));
    forall k | k in cache
      ensures k in listed <==> UsesVersion(cache[k], n, digest) || Stray(cache[k], n, digest)
    {
      VersionEntry(cache[k], n, digest);
    }
    if k :| k in cache && (UsesVersion(cache[k], n, digest) || Stray(cache[k], n, digest)) {
      assert k in listed;
    }
    if k :| k in listed {
      assert k in cache;
    }
  }

  /**
   A sticky component keeps its recorded artifact while processing even if its source reference
   is edited meanwhile, but the version index goes by the edited reference: the next pass deletes
   the version although the cache is up to date, and the pinned URL leads nowhere.
   */
  lemma EditedStickyLosesVersion(s: State, k: Key, n: Key, files: B.Files, other: SourceRef, h: B.Hash)
    returns (run: seq<Event>)
    requires Initial(s) && IsObjectName(k) && IsObjectName(n) && B.IsDigestFunction(h)
    requires other.Resolve(k.ns) != Blueprint(n)
    ensures ValidRun(s, run, h) && After(s, run, h).cached == After(s, run, h).live && After(s, run, h).loads == map[]
    ensures var t := After(s, run, h);
      && Enabled(t, Collect(n, [B.VersionKey(n, h(B.OfFiles(files)))], {}))
      && var u := Step(t, Collect(n, [B.VersionKey(n, h(B.OfFiles(files)))], {}), h);
         && k in u.live && IsPinned(u.live[k])
         && B.FilesAt(u.store, u.live[k].status.sourceRef.value.artifact.url) == None
  {
    AfterFirstLoad(s, k, n, files, true, h);
    var loaded := Loaded(k, n, files, true, h);
    var c := loaded.live[k];
    AfterEdit(loaded, c, other, h);
    run := FirstLoad(k, n, files, true) + EditWhileProcessing(c, other);
    JoinRuns(s, FirstLoad(k, n, files, true), EditWhileProcessing(c, other), h);
    var t := After(s, run, h);
    assert t.cached == map[k := EditedWhileProcessing(c, other)];
    EditedIsUnlisted(EditedWhileProcessing(c, other), n, h(B.OfFiles(files)));
    UnlistedVersionGoes(t, n, files, h);
  }

  // ---------------------------------------------------------------- versions on their way out

  ghost predicate ReleasesOnly(run: seq<Event>, v: Key) {
    forall i | 0 <= i < |run| :: run[i].ReleaseVersion? && run[i].key == v
  }

  /** Somebody lets go of the version, and then it is gone. */
  ghost predicate Vanishes(t: State, run: seq<Event>, h: B.Hash, v: Key) {
    ReleasesOnly(run, v) && ValidRun(t, run, h) && v !in After(t, run, h).store.versions
  }

  lemma {:induction false} ReleasesKeep(t: State, run: seq<Event>, h: B.Hash, v: Key)
    requires ReleasesOnly(run, v) && ValidRun(t, run, h) && Kept(t.store, v)
    ensures v in After(t, run, h).store.versions
    decreases |run|
  {
    if run != [] {
      assert run[0].ReleaseVersion?;
      KeptStep(t, run[0], h, v);
      ReleasesKeep(Step(t, run[0], h), run[1..], h, v);
    }
  }

  lemma {:induction false} ReleaseAll(t: State, h: B.Hash, v: Key) returns (run: seq<Event>)
    requires v in t.store.versions && t.store.versions[v].deleting && t.store.versions[v].finalizers != {}
    ensures Vanishes(t, run, h, v)
    decreases |t.store.versions[v].finalizers|
  {
    var f :| f in t.store.versions[v].finalizers;
    var e := ReleaseVersion(v, f);
    if t.store.versions[v].finalizers == {f} {
      run := [];
    } else {
      run := ReleaseAll(Step(t, e, h), h, v);
    }
    Prepend(t, e, run, h);
    run := [e] + run;
  }

  /**
   Applying a version does not revive it. What a load has just written, and is going to refer to,
   vanishes by the mere release of the version exactly if it was already being deleted and held:
   no pass is needed for that, and no cache is stale.
   */
  lemma DyingVersionVanishesExactly(s: State, k: Key, h: B.Hash)
    requires Enabled(s, Patch(k))
    ensures var n := s.cached[k].Source().ref;
      var v := B.VersionKey(n, s.store.blueprints[n].Digest(h));
      && Needs(Step(s, Patch(k), h), k, v)
      && ((exists run :: Vanishes(Step(s, Patch(k), h), run, h, v)) <==>
          v in s.store.versions && s.store.versions[v].deleting && s.store.versions[v].finalizers != {})
  {
    var n := s.cached[k].Source().ref;
    var v, t := B.VersionKey(n, s.store.blueprints[n].Digest(h)), Step(s, Patch(k), h);
    if Kept(t.store, v) {
      forall run: seq<Event> | ReleasesOnly(run, v) && ValidRun(t, run, h)
        ensures !Vanishes(t, run, h, v)
      {
        ReleasesKeep(t, run, h, v);
      }
    } else if t.store.versions[v].finalizers != {} {
      var run := ReleaseAll(t, h, v);
    } else {
      forall run: seq<Event> | ReleasesOnly(run, v) && ValidRun(t, run, h)
        ensures run == []
      {
      }
    }
  }

  // ---------------------------------------------------------------- the finalizer

  ghost predicate Guarded(s: B.Store, k: Key) {
    k in s.blueprints && C.FINALIZER in s.blueprints[k].finalizers
  }

  /** The state right before a pass gives up the finalizer: deleted, and no version left, nor made by the pass. */
  ghost predicate Released(s: State, e: Event, h: B.Hash, k: Key)
    requires Enabled(s, e)
  {
    && e.Collect? && e.key == k
    && Guarded(s.store, k) && s.store.blueprints[k].deleting
    && C.VersionsOf(s.store, k) == {} && C.VersionsOf(Step(s, e, h).store, k) == {}
  }

  lemma GuardStep(s: State, e: Event, h: B.Hash, k: Key)
    requires Enabled(s, e) && Guarded(s.store, k)
    ensures Guarded(Step(s, e, h).store, k) || Released(s, e, h, k)
  {
    match e
    case Collect(key, listing, fails) => C.FinalizerGuardsVersions(s.store, s.cached, key, listing, fails, k);
    case _ =>
  }

  /**
   In every run a guarded blueprint loses its finalizer, or leaves the store, only by a pass that
   finds it deleted and without versions.
   */
  lemma {:induction false} GuardLostOnlyEmpty(s: State, run: seq<Event>, h: B.Hash, k: Key) returns (i: nat)
    requires ValidRun(s, run, h) && Guarded(s.store, k) && !Guarded(After(s, run, h).store, k)
    ensures i < |run| && ValidRun(s, run[..i], h) && Enabled(After(s, run[..i], h), run[i])
    ensures Released(After(s, run[..i], h), run[i], h, k)
    decreases |run|
  {
    var t := Step(s, run[0], h);
    GuardStep(s, run[0], h, k);
    if Guarded(t.store, k) {
      var j := GuardLostOnlyEmpty(t, run[1..], h, k);
      i := j + 1;
      assert run[..i] == [run[0]] + run[1..][..j];
      Prepend(s, run[0], run[1..][..j], h);
    } else {
      i := 0;
      assert run[..0] == [];
    }
  }

  /** Every version has a guarded blueprint. */
  ghost predicate NoOrphans(s: B.Store) {
    forall v | v in s.versions :: Guarded(s, NamespacedName(v.ns, s.versions[v].blueprint))
  }

  /** Loads happen after the blueprint reconciler has seen the blueprint. */
  ghost predicate LoadsAreGuarded(s: State, run: seq<Event>, h: B.Hash)
    requires ValidRun(s, run, h)
    decreases |run|
  {
    run == [] || (
      && (run[0].Patch? ==> Guarded(s.store, s.cached[run[0].key].Source().ref))
      && LoadsAreGuarded(Step(s, run[0], h), run[1..], h))
  }

  lemma OrphanStep(s: State, e: Event, h: B.Hash, v: Key)
    requires Enabled(s, e) && NoOrphans(s.store)
    requires e.Patch? ==> Guarded(s.store, s.cached[e.key].Source().ref)
    requires v in Step(s, e, h).store.versions
    ensures Guarded(Step(s, e, h).store, NamespacedName(v.ns, Step(s, e, h).store.versions[v].blueprint))
  {
    var t := Step(s, e, h);
    var k := NamespacedName(v.ns, t.store.versions[v].blueprint);
    if e.Collect? {
      var dead := C.PassDeletes(s.store, s.cached, e.key, e.listing, e.fails);
    }
    if v in s.store.versions && !e.Patch? {
      assert s.store.versions[v].blueprint == t.store.versions[v].blueprint;
    }
    assert Guarded(s.store, k);
    GuardStep(s, e, h, k);
    assert v in C.VersionsOf(t.store, k);
  }

  /** A version never outlives its blueprint if loads see guarded blueprints only. */
  lemma {:induction false} VersionsKeepBlueprints(s: State, run: seq<Event>, h: B.Hash)
    requires ValidRun(s, run, h) && NoOrphans(s.store) && LoadsAreGuarded(s, run, h)
    ensures NoOrphans(After(s, run, h).store)
    decreases |run|
  {
    if run != [] {
      forall v | v in Step(s, run[0], h).store.versions
        ensures Guarded(Step(s, run[0], h).store, NamespacedName(v.ns, Step(s, run[0], h).store.versions[v].blueprint))
      {
        OrphanStep(s, run[0], h, v);
      }
      VersionsKeepBlueprints(Step(s, run[0], h), run[1..], h);
    }
  }

  // ---------------------------------------------------------------- how blueprints get their guard

  /** A pass over a living blueprint in which reading and updating it succeeds, whatever else fails. */
  ghost predicate Attends(s: State, e: Event, n: Key) {
    && e.Collect? && e.key == n && C.GetBlueprint !in e.fails && C.UpdateBlueprint !in e.fails
    && n in s.store.blueprints && !s.store.blueprints[n].deleting
  }

  ghost predicate LivingGuarded(s: B.Store, n: Key) {
    Guarded(s, n) && !s.blueprints[n].deleting
  }

  lemma AttendedIsGuarded(s: State, e: Event, h: B.Hash, n: Key)
    requires Enabled(s, e) && Attends(s, e, n)
    ensures LivingGuarded(Step(s, e, h).store, n)
  {
    C.PassGuards(s.store, s.cached, n, e.listing, e.fails);
  }

  /** Deletion is final as long as the blueprint is there. */
  lemma {:induction false} DeletionIsFinal(s: State, run: seq<Event>, h: B.Hash, n: Key)
    requires ValidRun(s, run, h) && Lives(s, run, h, n) && s.store.blueprints[n].deleting
    ensures n in After(s, run, h).store.blueprints && After(s, run, h).store.blueprints[n].deleting
    decreases |run|
  {
    if run != [] {
      var e := run[0];
      if e.Collect? { C.PassGuards(s.store, s.cached, e.key, e.listing, e.fails); }
      DeletionIsFinal(Step(s, e, h), run[1..], h, n);
    }
  }

  /** A living blueprint is guarded from the first such pass on, whatever happens afterwards. */
  lemma GuardedSinceFirstPass(s: State, pass: Event, run: seq<Event>, h: B.Hash, n: Key)
    requires Enabled(s, pass) && Attends(s, pass, n)
    requires ValidRun(Step(s, pass, h), run, h) && Lives(Step(s, pass, h), run, h, n)
    ensures var t := After(Step(s, pass, h), run, h);
      n in t.store.blueprints && (!t.store.blueprints[n].deleting ==> Guarded(t.store, n))
  {
    AttendedIsGuarded(s, pass, h, n);
    StaysGuarded(Step(s, pass, h), run, h, n);
  }

  lemma {:induction false} StaysGuarded(s: State, run: seq<Event>, h: B.Hash, n: Key)
    requires ValidRun(s, run, h) && Lives(s, run, h, n) && Guarded(s.store, n)
    ensures var t := After(s, run, h).store; n in t.blueprints && (!t.blueprints[n].deleting ==> Guarded(t, n))
    decreases |run|
  {
    if run != [] {
      GuardStep(s, run[0], h, n);
      if Guarded(Step(s, run[0], h).store, n) {
        StaysGuarded(Step(s, run[0], h), run[1..], h, n);
      } else {
        DeletionIsFinal(s, run, h, n);
      }
    }
  }

  /** Of the blueprints attended so far and the one attended now, those that are still there and not deleted. */
  ghost function NowAttended(s: State, e: Event, h: B.Hash, attended: set<Key>): set<Key>
    requires Enabled(s, e)
  {
    var t := Step(s, e, h).store.blueprints;
    set n | n in t && !t[n].deleting && (n in attended || Attends(s, e, n))
  }

  /** Every load reads a blueprint a pass has attended since it was created, and which is not deleted. */
  ghost predicate LoadsAttended(s: State, run: seq<Event>, h: B.Hash, attended: set<Key>)
    requires ValidRun(s, run, h)
    decreases |run|
  {
    run == [] || (
      && (run[0].Patch? ==> s.cached[run[0].key].Source().ref in attended)
      && LoadsAttended(Step(s, run[0], h), run[1..], h, NowAttended(s, run[0], h, attended)))
  }

  /** Then all loads meet guarded blueprints. */
  lemma {:induction false} AttendedLoadsAreGuarded(s: State, run: seq<Event>, h: B.Hash, attended: set<Key>)
    requires ValidRun(s, run, h) && LoadsAttended(s, run, h, attended)
    requires forall n | n in attended :: LivingGuarded(s.store, n)
    ensures LoadsAreGuarded(s, run, h)
    decreases |run|
  {
    if run != [] {
      var now, t := NowAttended(s, run[0], h, attended), Step(s, run[0], h);
      forall n | n in now
        ensures LivingGuarded(t.store, n)
      {
        if n in attended {
          GuardStep(s, run[0], h, n);
        } else {
          AttendedIsGuarded(s, run[0], h, n);
        }
      }
      AttendedLoadsAreGuarded(t, run[1..], h, now);
    }
  }

  /** So from an empty cluster no version outlives its blueprint if blueprints are attended before they are loaded. */
  lemma AttendedKeepBlueprints(s: State, run: seq<Event>, h: B.Hash)
    requires Initial(s) && ValidRun(s, run, h) && LoadsAttended(s, run, h, {})
    ensures NoOrphans(After(s, run, h).store)
  {
    AttendedLoadsAreGuarded(s, run, h, {});
    VersionsKeepBlueprints(s, run, h);
  }

  // ---------------------------------------------------------------- orphaned versions

  /** A continuation without unguarded loads after which the blueprint is gone and its version still there. */
  ghost predicate LeavesBehind(t: State, run: seq<Event>, h: B.Hash, n: Key, v: Key) {
    && ValidRun(t, run, h) && LoadsAreGuarded(t, run, h)
    && n !in After(t, run, h).store.blueprints && v in After(t, run, h).store.versions
  }

  /** The version, if stored, has a guarded blueprint. */
  ghost predicate Owned(s: B.Store, n: Key, v: Key) {
    v in s.versions ==> s.versions[v].blueprint == n.name && Guarded(s, n)
  }

  lemma PatchKeepsOwned(s: State, k: Key, h: B.Hash, n: Key, digest: string)
    requires Enabled(s, Patch(k)) && B.IsDigestFunction(h) && IsHex(digest)
    requires Guarded(s.store, s.cached[k].Source().ref) && Owned(s.store, n, B.VersionKey(n, digest))
    ensures Owned(Step(s, Patch(k), h).store, n, B.VersionKey(n, digest))
  {
    var m := s.cached[k].Source().ref;
    var d := s.store.blueprints[m].Digest(h);
    if B.VersionKey(m, d) == B.VersionKey(n, digest) {
      assert IsHex(d);
      VersionNameInjective(m.name, d, n.name, digest);
    }
  }

  lemma CollectKeepsOwned(s: State, e: Event, h: B.Hash, n: Key, v: Key)
    requires e.Collect? && Enabled(s, e) && v.ns == n.ns && Owned(s.store, n, v)
    ensures Owned(Step(s, e, h).store, n, v)
  {
    var t := Step(s, e, h);
    var dead := C.PassDeletes(s.store, s.cached, e.key, e.listing, e.fails);
    if v in t.store.versions {
      assert v in s.store.versions && t.store.versions[v].blueprint == n.name;
      GuardStep(s, e, h, n);
      assert v in C.VersionsOf(t.store, n);
    }
  }

  lemma OwnedStep(s: State, e: Event, h: B.Hash, n: Key, digest: string)
    requires Enabled(s, e) && B.IsDigestFunction(h) && IsHex(digest)
    requires e.Patch? ==> Guarded(s.store, s.cached[e.key].Source().ref)
    requires Owned(s.store, n, B.VersionKey(n, digest))
    ensures Owned(Step(s, e, h).store, n, B.VersionKey(n, digest))
  {
    match e
    case Patch(k) => PatchKeepsOwned(s, k, h, n, digest);
    case Collect(_, _, _) => CollectKeepsOwned(s, e, h, n, B.VersionKey(n, digest));
    case _ =>
  }

  lemma {:induction false} OwnedRun(s: State, run: seq<Event>, h: B.Hash, n: Key, digest: string)
    requires ValidRun(s, run, h) && LoadsAreGuarded(s, run, h) && B.IsDigestFunction(h) && IsHex(digest)
    requires Owned(s.store, n, B.VersionKey(n, digest))
    ensures Owned(After(s, run, h).store, n, B.VersionKey(n, digest))
    decreases |run|
  {
    if run != [] {
      OwnedStep(s, run[0], h, n, digest);
      OwnedRun(Step(s, run[0], h), run[1..], h, n, digest);
    }
  }

  /** Everybody else lets go of a deleted blueprint. */
  lemma {:induction false} OthersLetGo(s: State, h: B.Hash, n: Key, v: Key) returns (run: seq<Event>)
    requires n in s.store.blueprints && s.store.blueprints[n].deleting && !Guarded(s.store, n)
    requires s.store.blueprints[n].finalizers != {} && v in s.store.versions
    ensures LeavesBehind(s, run, h, n, v)
    decreases |s.store.blueprints[n].finalizers|
  {
    var f :| f in s.store.blueprints[n].finalizers;
    var t := Step(s, ReleaseBlueprint(n, f), h);
    if s.store.blueprints[n].finalizers == {f} {
      run := [];
    } else {
      run := OthersLetGo(t, h, n, v);
    }
    Prepend(s, ReleaseBlueprint(n, f), run, h);
    run := [ReleaseBlueprint(n, f)] + run;
  }

  /**
   A load can leave its version behind, all later loads being guarded, exactly when the blueprint
   it reads does not carry the finalizer: new, or given up already and held by somebody else.
   */
  lemma LoadLeavesBehindExactly(s: State, k: Key, h: B.Hash)
    requires Enabled(s, Patch(k)) && B.IsDigestFunction(h)
    ensures var n := s.cached[k].Source().ref;
      var v := B.VersionKey(n, s.store.blueprints[n].Digest(h));
      (exists run :: LeavesBehind(Step(s, Patch(k), h), run, h, n, v)) <==> !Guarded(s.store, n)
  {
    var n := s.cached[k].Source().ref;
    var digest := s.store.blueprints[n].Digest(h);
    var v, t := B.VersionKey(n, digest), Step(s, Patch(k), h);
    assert IsHex(digest);
    if Guarded(s.store, n) {
      forall run | ValidRun(t, run, h) && LoadsAreGuarded(t, run, h)
        ensures !LeavesBehind(t, run, h, n, v)
      {
        OwnedRun(t, run, h, n, digest);
      }
    } else {
      var run := UnguardedIsLeft(t, h, n, v);
    }
  }

  lemma UnguardedIsLeft(s: State, h: B.Hash, n: Key, v: Key) returns (run: seq<Event>)
    requires n in s.store.blueprints && !Guarded(s.store, n) && v in s.store.versions
    ensures LeavesBehind(s, run, h, n, v)
  {
    var t := Step(s, DeleteBlueprint(n), h);
    if s.store.blueprints[n].finalizers == {} {
      run := [];
    } else {
      run := OthersLetGo(t, h, n, v);
    }
    Prepend(s, DeleteBlueprint(n), run, h);
    run := [DeleteBlueprint(n)] + run;
  }
}
