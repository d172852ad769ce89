/**
 From a blueprint to a generator: runs of the cluster interleaved with lookups of the generator
 table, which fetches blueprint versions from the cluster and archives from anywhere.
 */
module EndToEnd {
  import opened Options
  import opened Names
  import B = BlueprintStore
  import D = Downloads
  import G = GeneratorCache
  import R = BlueprintRuns

  type Key = NamespacedName

  datatype State = State(cluster: R.State, table: G.Table)

  /** `order` is the order in which the files of a version happen to be written, `archives` what else can be fetched. */
  datatype Event =
    | Cluster(event: R.Event)
    | Query(request: G.Request, archives: map<string, G.Folder>, order: seq<string>, at: int)
    | Sweep(at: int)

  ghost predicate Enabled(s: State, e: Event) {
    match e
    case Cluster(c) => R.Enabled(s.cluster, c)
    case Query(r, _, order, _) =>
      B.FilesAt(s.cluster.store, r.url).Some? ==> D.IsOrder(order, B.FilesAt(s.cluster.store, r.url).value)
    case Sweep(_) => true
  }

  ghost function Fetched(s: State, e: Event): Option<G.Folder>
    requires e.Query? && Enabled(s, e)
  {
    G.Fetch(G.World(s.cluster.store, e.archives), e.request.url, e.order)
  }

  ghost function Answer(s: State, e: Event, tools: G.Tools): Option<G.Generator>
    requires e.Query? && Enabled(s, e)
  {
    G.Lookup(s.table, e.request, e.at, Fetched(s, e), tools).1
  }

  ghost function Step(s: State, e: Event, h: B.Hash, tools: G.Tools): State
    requires Enabled(s, e)
  {
    match e
    case Cluster(c) => s.(cluster := R.Step(s.cluster, c, h))
    case Query(r, _, _, at) => s.(table := G.Lookup(s.table, r, at, Fetched(s, e), tools).0)
    case Sweep(at) => s.(table := G.Swept(s.table, at))
  }

  ghost predicate ValidRun(s: State, run: seq<Event>, h: B.Hash, tools: G.Tools)
    decreases |run|
  {
    run == [] || (Enabled(s, run[0]) && ValidRun(Step(s, run[0], h, tools), run[1..], h, tools))
  }

  ghost function After(s: State, run: seq<Event>, h: B.Hash, tools: G.Tools): State
    requires ValidRun(s, run, h, tools)
    decreases |run|
  {
    if run == [] then s else After(Step(s, run[0], h, tools), run[1..], h, tools)
  }

  /** The cluster's part of a run. */
  function ClusterRun(run: seq<Event>): seq<R.Event>
    decreases |run|
  {
    if run == [] then [] else (if run[0].Cluster? then [run[0].event] else []) + ClusterRun(run[1..])
  }

  /** The cluster's steps are careful (see BlueprintRuns). */
  ghost predicate CarefulRun(s: State, run: seq<Event>, h: B.Hash, tools: G.Tools)
    requires ValidRun(s, run, h, tools)
    decreases |run|
  {
    run == [] || (
      && (run[0].Cluster? ==> R.Careful(s.cluster, run[0].event, h))
      && CarefulRun(Step(s, run[0], h, tools), run[1..], h, tools))
  }

  lemma {:induction false} ClusterOnItsOwn(s: State, run: seq<Event>, h: B.Hash, tools: G.Tools)
    requires ValidRun(s, run, h, tools)
    ensures R.ValidRun(s.cluster, ClusterRun(run), h)
    ensures R.After(s.cluster, ClusterRun(run), h) == After(s, run, h, tools).cluster
    ensures CarefulRun(s, run, h, tools) ==> R.CarefulRun(s.cluster, ClusterRun(run), h)
    decreases |run|
  {
    if run != [] {
      ClusterOnItsOwn(Step(s, run[0], h, tools), run[1..], h, tools);
      if run[0].Cluster? {
        R.Prepend(s.cluster, run[0].event, ClusterRun(run[1..]), h);
        assert ClusterRun(run)[1..] == ClusterRun(run[1..]);
      } else {
        assert ClusterRun(run) == ClusterRun(run[1..]);
      }
    }
  }

  // ---------------------------------------------------------------- one URL

  /** No other file set ever written has the digest of these. */
  ghost predicate Unmistakable(h: B.Hash, written: set<B.Files>, files: B.Files) {
    forall g | g in written :: !R.Collision(h, g, files)
  }

  /** The cluster is content-addressed and stores nothing but what users have written. */
  ghost predicate ClusterOk(c: R.State, written: set<B.Files>, h: B.Hash) {
    R.Addressed(c, h) && R.FilesFrom(c.store, written)
  }

  /** What users write in the run. */
  ghost predicate WritesOnly(run: seq<Event>, written: set<B.Files>) {
    forall i | 0 <= i < |run| && run[i].Cluster? && run[i].event.WriteBlueprint? :: run[i].event.files in written
  }

  /** The files of a blueprint for which neither digests nor the order of writing leave a choice. */
  ghost predicate Definite(h: B.Hash, written: set<B.Files>, n: Key, files: B.Files, order: seq<string>)
  {
    IsObjectName(n) && Unmistakable(h, written, files) && D.Agreeing(files) && D.IsOrder(order, files)
  }

  function UrlOf(n: Key, files: B.Files, h: B.Hash): string {
    BlueprintUrl(n.ns, n.name, h(B.OfFiles(files)))
  }

  /** What the files are written to; the order does not matter for agreeing files. */
  ghost function Written(files: B.Files, order: seq<string>): Option<G.Folder>
    requires D.IsOrder(order, files)
  {
    match D.WriteAll(files, order)
    case None => None
    case Some(t) => Some(G.Folder(t, {}))
  }

  /** In every state that is content-addressed the URL of the files leads to them or nowhere. */
  lemma FetchedIsWritten(s: State, e: Event, h: B.Hash,
                         n: Key, files: B.Files, order: seq<string>, written: set<B.Files>)
    requires e.Query? && Enabled(s, e) && ClusterOk(s.cluster, written, h) && B.IsDigestFunction(h)
    requires Definite(h, written, n, files, order)
    requires e.request.url == UrlOf(n, files, h)
    ensures B.FilesAt(s.cluster.store, e.request.url) in {None, Some(files)}
    ensures Fetched(s, e) == if B.FilesAt(s.cluster.store, e.request.url).Some? then Written(files, order) else None
  {
    var digest := h(B.OfFiles(files));
    R.UrlOfVersion(s.cluster.store, n, digest);
    if B.FilesAt(s.cluster.store, e.request.url).Some? {
      var v := B.VersionKey(n, digest);
      assert R.VersionOk(s.cluster.store, v, h);
      R.VersionDigest(s.cluster.store, n, digest, h);
      assert !R.Collision(h, s.cluster.store.versions[v].files, files);
      D.SameTree(files, e.order, order);
    }
  }

  /** The entry of a request, if there is one, is what it should be. */
  ghost predicate EntryOk(t: G.Table, r: G.Request, f: Option<G.Folder>, tools: G.Tools) {
    G.Id(r, tools) in t ==> f.Some? && G.Build(r, f.value, tools) == Some(t[G.Id(r, tools)].generator)
  }

  /** Requests of the run are single lines where identifiers need it, and none gets in the way of `r`. */
  ghost predicate Apart(run: seq<Event>, r: G.Request, f: Option<G.Folder>, tools: G.Tools) {
    forall i | 0 <= i < |run| && run[i].Query? ::
      G.OneLiners(run[i].request) && (f.Some? ==> G.Harmless(run[i].request, r, f.value, tools))
  }

  lemma LookupKeepsEntry(t: G.Table, q: G.Request, at: int, fetched: Option<G.Folder>,
                         r: G.Request, f: Option<G.Folder>, tools: G.Tools)
    requires EntryOk(t, r, f, tools)
    requires G.Id(q, tools) == G.Id(r, tools) ==>
      (fetched.Some? ==> fetched == f) && (f.Some? ==> G.Harmless(q, r, f.value, tools))
    ensures EntryOk(G.Lookup(t, q, at, fetched, tools).0, r, f, tools)
  {
  }

  lemma EntryStep(s: State, e: Event, h: B.Hash, tools: G.Tools, r: G.Request,
      n: Key, files: B.Files, order: seq<string>, written: set<B.Files>)
    requires Enabled(s, e) && ClusterOk(s.cluster, written, h) && B.IsDigestFunction(h) && G.DigestsAreOneLine(tools)
    requires Definite(h, written, n, files, order)
    requires G.OneLiners(r) && r.url == UrlOf(n, files, h)
    requires Apart([e], r, Written(files, order), tools) && EntryOk(s.table, r, Written(files, order), tools)
    ensures EntryOk(Step(s, e, h, tools).table, r, Written(files, order), tools)
  {
    if e.Query? && G.Id(e.request, tools) == G.Id(r, tools) {
      assert [e][0] == e;
      G.IdExact(e.request, r, tools);
      FetchedIsWritten(s, e, h, n, files, order, written);
    }
    if e.Query? {
      assert [e][0] == e;
      LookupKeepsEntry(s.table, e.request, e.at, Fetched(s, e), r, Written(files, order), tools);
    }
  }

  lemma {:induction false} EntryStays(s: State, run: seq<Event>, h: B.Hash, tools: G.Tools, r: G.Request,
      n: Key, files: B.Files, order: seq<string>, written: set<B.Files>)
    requires ValidRun(s, run, h, tools) && ClusterOk(s.cluster, written, h)
    requires B.IsDigestFunction(h) && G.DigestsAreOneLine(tools)
    requires Definite(h, written, n, files, order)
    requires G.OneLiners(r) && r.url == UrlOf(n, files, h)
    requires WritesOnly(run, written)
    requires Apart(run, r, Written(files, order), tools) && EntryOk(s.table, r, Written(files, order), tools)
    ensures EntryOk(After(s, run, h, tools).table, r, Written(files, order), tools)
    ensures ClusterOk(After(s, run, h, tools).cluster, written, h)
    decreases |run|
  {
    if run != [] {
      EntryStep(s, run[0], h, tools, r, n, files, order, written);
      if run[0].Cluster? {
        R.StepKeepsAddressed(s.cluster, run[0].event, h);
        R.FilesFromStep(s.cluster, run[0].event, h, written);
      }
      assert forall i | 0 <= i < |run[1..]| :: run[1..][i] == run[i + 1];
      EntryStays(Step(s, run[0], h, tools), run[1..], h, tools, r, n, files, order, written);
    }
  }

  // ---------------------------------------------------------------- whole runs

  ghost predicate Initial(s: State) {
    R.Initial(s.cluster) && s.table == map[]
  }

  /**
   However the cluster has changed and whatever has been looked up before, a lookup of a blueprint
   URL answers the generator built from the files the URL was printed for; if the version is gone,
   it answers that or nothing.
   */
  lemma AnswersAreBuilt(s: State, run: seq<Event>, h: B.Hash, tools: G.Tools, e: Event,
      n: Key, files: B.Files, order: seq<string>, written: set<B.Files>)
    requires Initial(s) && ValidRun(s, run, h, tools) && B.IsDigestFunction(h) && G.DigestsAreOneLine(tools)
    requires Definite(h, written, n, files, order)
    requires WritesOnly(run, written) && e.Query? && Enabled(After(s, run, h, tools), e)
    requires G.OneLiners(e.request) && e.request.url == UrlOf(n, files, h)
    requires Apart(run, e.request, Written(files, order), tools)
    ensures var t := After(s, run, h, tools);
      || Answer(t, e, tools) == BuiltFrom(e.request, Written(files, order), tools)
      || (B.FilesAt(t.cluster.store, e.request.url).None? && Answer(t, e, tools).None?)
  {
    EntryStays(s, run, h, tools, e.request, n, files, order, written);
    FetchedIsWritten(After(s, run, h, tools), e, h, n, files, order, written);
  }

  ghost function BuiltFrom(r: G.Request, f: Option<G.Folder>, tools: G.Tools): Option<G.Generator> {
    if f.None? then None else G.Build(r, f.value, tools)
  }

  /** What the load at position `i` of the cluster's run observed. */
  ghost function Observed(s: State, run: seq<Event>, h: B.Hash, i: nat, n: Key): B.Files
    requires i <= |ClusterRun(run)| && R.ValidRun(s.cluster, ClusterRun(run)[..i], h)
    requires n in R.After(s.cluster, ClusterRun(run)[..i], h).store.blueprints
  {
    R.After(s.cluster, ClusterRun(run)[..i], h).store.blueprints[n].files
  }

  /**
   From end to end: in every run of careful steps, a lookup for what a component has recorded
   answers exactly the generator built from the files one of its loads observed.
   */
  lemma RecordedAnswersAreObserved(s: State, run: seq<Event>, h: B.Hash, tools: G.Tools, e: Event, k: Key,
                                   written: set<B.Files>)
    returns (i: int, n: Key)
    requires Initial(s) && ValidRun(s, run, h, tools) && B.IsDigestFunction(h) && G.DigestsAreOneLine(tools)
    requires CarefulRun(s, run, h, tools) && WritesOnly(run, written)
    requires var c := After(s, run, h, tools).cluster;
      k in c.live && k in c.settled && c.live[k].Source().Blueprint? && c.live[k].status.sourceRef.Some?
    requires e.Query? && Enabled(After(s, run, h, tools), e) && G.OneLiners(e.request)
    requires e.request.url == After(s, run, h, tools).cluster.live[k].status.sourceRef.value.artifact.url
    ensures var c := After(s, run, h, tools).cluster.live[k];
      n == c.Source().ref && R.WasLoaded(s.cluster, ClusterRun(run), h, i, k, n, c.status.sourceRef.value)
    ensures n in R.After(s.cluster, ClusterRun(run)[..i], h).store.blueprints
    ensures var files := Observed(s, run, h, i, n);
      forall order | D.IsOrder(order, files) && Unmistakable(h, written, files) && D.Agreeing(files) &&
          Apart(run, e.request, Written(files, order), tools) ::
        Answer(After(s, run, h, tools), e, tools) == BuiltFrom(e.request, Written(files, order), tools)
  {
    ClusterOnItsOwn(s, run, h, tools);
    var t := After(s, run, h, tools);
    i := R.RecordedWasLoaded(s.cluster, ClusterRun(run), h, k);
    n := t.cluster.live[k].Source().ref;
    R.RecordedUrlsLead(s.cluster, ClusterRun(run), h, k);
    R.RunKeepsAddressed(s.cluster, ClusterRun(run)[..i], h);
    var files := Observed(s, run, h, i, n);
    forall order | D.IsOrder(order, files) && Unmistakable(h, written, files) && D.Agreeing(files) &&
      Apart(run, e.request, Written(files, order), tools)
      ensures Answer(t, e, tools) == BuiltFrom(e.request, Written(files, order), tools)
    {
      AnswersAreBuilt(s, run, h, tools, e, n, files, order, written);
    }
  }
}
