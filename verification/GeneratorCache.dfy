/**
 The table of generators (internal/generator/factory.go lines 35-151): a memo table whose
 entries live for an hour after their last use.
 */
module GeneratorCache {
  import opened Options
  import opened Names
  import opened Downloads
  import B = BlueprintStore

  const VALIDITY := 3600

  type Keys = map<string, string>

  datatype Request = Request(url: string, path: string, digest: string, provider: string, keys: Keys)

  /** A download: the files, and directories that need not hold any. */
  datatype Folder = Folder(files: Tree, dirs: set<string>)

  datatype Generator =
    | Helm(folder: Folder, dir: string)
    | Kustomize(folder: Folder, dir: string, decryption: Option<Keys>)

  /**
   Libraries: the digest of a key set, whether a decryptor accepts it, decryption of a directory,
   the directory a path names (None if it leaves the root) and what the two generators accept.
   */
  datatype Tools = Tools(
    digestOf: Keys -> string,
    accepts: Keys -> bool,
    decrypt: (Keys, Tree, string) -> Option<Tree>,
    resolve: string -> Option<string>,
    helmLoads: (Folder, string) -> bool,
    kustomizeLoads: (Folder, string, Option<Keys>) -> bool)

  // ---------------------------------------------------------------- building

  predicate ProviderOk(r: Request, tools: Tools) {
    r.keys == map[] || ((r.provider == "sops" || r.provider == "") && tools.accepts(r.keys))
  }

  predicate HasDirectory(f: Folder, dir: string) {
    IsDirectory(f.files, dir) || exists d :: d in f.dirs && (d == dir || dir + "/" <= d)
  }

  function ChartFile(dir: string): string {
    if dir == "" then "Chart.yaml" else dir + "/Chart.yaml"
  }

  /** Something of that name is there, file or directory. */
  predicate HasChart(f: Folder, dir: string) {
    ChartFile(dir) in f.files || HasDirectory(f, ChartFile(dir))
  }

  function Decryption(r: Request): Option<Keys> {
    if r.keys == map[] then None else Some(r.keys)
  }

  /** The generator a request leads to, given what its URL leads to. */
  function Build(r: Request, f: Folder, tools: Tools): Option<Generator> {
    if !ProviderOk(r, tools) || tools.resolve(r.path).None? then None
    else
      var dir := tools.resolve(r.path).value;
      if !HasDirectory(f, dir) then None
      else if HasChart(f, dir) then
        var plain := if r.keys == map[] then Some(f.files) else tools.decrypt(r.keys, f.files, dir);
        if plain.None? then None
        else
          var decrypted := f.(files := plain.value);
          if tools.helmLoads(decrypted, dir) then Some(Helm(decrypted, dir)) else None
      else if tools.kustomizeLoads(f, dir, Decryption(r)) then Some(Kustomize(f, dir, Decryption(r)))
      else None
  }

  /** What can be fetched right now: blueprint versions from the store, archives from elsewhere. */
  datatype World = World(store: B.Store, archives: map<string, Folder>)

  ghost function Fetch(w: World, url: string, order: seq<string>): Option<Folder>
    requires B.FilesAt(w.store, url).Some? ==> IsOrder(order, B.FilesAt(w.store, url).value)
  {
    if !(SCHEME <= url) then (if url in w.archives then Some(w.archives[url]) else None)
    else if B.FilesAt(w.store, url).None? then None
    else match WriteAll(B.FilesAt(w.store, url).value, order)
      case None => None
      case Some(t) => Some(Folder(t, {}))
  }

  // ---------------------------------------------------------------- what is fetched and built

  /** What a URL should lead to: the archive, or the files of the version at their places if they can be written. */
  ghost predicate FetchedRight(w: World, url: string, got: Option<Folder>) {
    if !("blueprint://" <= url) then got == if url in w.archives then Some(w.archives[url]) else None
    else
      match B.FilesAt(w.store, url)
      case None => got == None
      case Some(files) =>
        && (got.Some? <==> (forall p | p in files :: IsOrdinaryPath(p)) && !FilesInFiles(files))
        && (got.Some? ==> got.value.dirs == {} && HoldsFiles(got.value.files, files))
  }

  lemma FetchExact(w: World, url: string, order: seq<string>)
    requires B.FilesAt(w.store, url).Some? ==> IsOrder(order, B.FilesAt(w.store, url).value)
    ensures FetchedRight(w, url, Fetch(w, url, order))
  {
    if B.FilesAt(w.store, url).Some? {
      var files := B.FilesAt(w.store, url).value;
      WriteAllExact(files, order);
      WritableExactly(files);
      if WriteAll(files, order).Some? { TreeExactly(files, order); }
    }
  }

  /** Something is below that place. */
  ghost predicate IsAbove(f: Folder, place: string) {
    exists q :: (q in f.files || q in f.dirs) && place + "/" <= q
  }

  ghost predicate IsFolder(f: Folder, place: string) {
    place == "" || place in f.dirs || IsAbove(f, place)
  }

  ghost predicate HasChartFile(f: Folder, dir: string) {
    var chart := if dir == "" then "Chart.yaml" else dir + "/Chart.yaml";
    chart in f.files || chart in f.dirs || IsAbove(f, chart)
  }

  /** The keys cannot be used. */
  ghost predicate KeysRefused(r: Request, tools: Tools) {
    r.keys != map[] && (r.provider !in {"sops", ""} || !tools.accepts(r.keys))
  }

  /** A chart is loaded with its files decrypted, if there are keys at all. */
  ghost predicate ChartRefused(r: Request, f: Folder, dir: string, tools: Tools) {
    if r.keys == map[] then !tools.helmLoads(f, dir)
    else
      || tools.decrypt(r.keys, f.files, dir).None?
      || !tools.helmLoads(Folder(tools.decrypt(r.keys, f.files, dir).value, f.dirs), dir)
  }

  /** What a request for the folder should be answered. */
  ghost predicate AnswersRight(r: Request, f: Folder, tools: Tools, g: Option<Generator>) {
    var dir := tools.resolve(r.path);
    var keys := if r.keys == map[] then None else Some(r.keys);
    && (g.None? <==>
          || KeysRefused(r, tools) || dir.None? || !IsFolder(f, dir.value)
          || (HasChartFile(f, dir.value) && ChartRefused(r, f, dir.value, tools))
          || (!HasChartFile(f, dir.value) && !tools.kustomizeLoads(f, dir.value, keys)))
    && (g.Some? ==> (g.value.Helm? <==> HasChartFile(f, dir.value)) && g.value.dir == dir.value)
    && (g.Some? && g.value.Helm? ==>
          && g.value.folder.dirs == f.dirs
          && (r.keys == map[] ==> g.value.folder.files == f.files)
          && (r.keys != map[] ==> tools.decrypt(r.keys, f.files, dir.value) == Some(g.value.folder.files)))
    && (g.Some? && g.value.Kustomize? ==> g.value.folder == f && g.value.decryption == keys)
  }

  lemma HasDirectoryExactly(f: Folder, place: string)
    ensures HasDirectory(f, place) <==> IsFolder(f, place)
  {
  }

  lemma BuildExact(r: Request, f: Folder, tools: Tools)
    ensures AnswersRight(r, f, tools, Build(r, f, tools))
  {
    if tools.resolve(r.path).Some? {
      var dir := tools.resolve(r.path).value;
      HasDirectoryExactly(f, dir);
      HasDirectoryExactly(f, ChartFile(dir));
      assert HasChart(f, dir) <==> HasChartFile(f, dir);
    }
  }

  // ---------------------------------------------------------------- identifiers

  function Id(r: Request, tools: Tools): string {
    r.url + "\n" + r.digest + "\n" + r.path + "\n" + r.provider + "\n" + tools.digestOf(r.keys)
  }

  predicate OneLine(s: string) { '\n' !in s }

  predicate OneLiners(r: Request) {
    OneLine(r.url) && OneLine(r.digest)
  }

  ghost predicate DigestsAreOneLine(tools: Tools) {
    forall k :: OneLine(tools.digestOf(k))
  }

  function PathAndProvider(r: Request): string { r.path + "\n" + r.provider }

  /**
   Path and provider may contain anything; the identifier can be taken apart up to where one ends
   and the other begins.
   */
  lemma IdExact(r: Request, s: Request, tools: Tools)
    requires OneLiners(r) && OneLiners(s) && DigestsAreOneLine(tools)
    ensures Id(r, tools) == Id(s, tools) <==>
      && r.url == s.url && r.digest == s.digest && tools.digestOf(r.keys) == tools.digestOf(s.keys)
      && PathAndProvider(r) == PathAndProvider(s)
  {
    IdShape(r, tools);
    IdShape(s, tools);
    if Id(r, tools) == Id(s, tools) {
      var rk, sk := tools.digestOf(r.keys), tools.digestOf(s.keys);
      var rt, st := Tail(r.digest, PathAndProvider(r), rk), Tail(s.digest, PathAndProvider(s), sk);
      FirstSplit(r.url, rt, s.url, st, '\n');
      LastSplit(r.digest + "\n" + PathAndProvider(r), rk, s.digest + "\n" + PathAndProvider(s), sk, '\n');
      FirstSplit(r.digest, PathAndProvider(r), s.digest, PathAndProvider(s), '\n');
    }
  }

  /** Where that is the case is clear if the providers are single lines, or the paths are equal. */
  lemma PathIsClear(r: Request, s: Request)
    requires (OneLine(r.provider) && OneLine(s.provider)) || r.path == s.path
    ensures PathAndProvider(r) == PathAndProvider(s) <==> r.path == s.path && r.provider == s.provider
  {
    if PathAndProvider(r) == PathAndProvider(s) {
      if r.path == s.path {
        assert r.provider == PathAndProvider(r)[|r.path| + 1..];
      } else {
        LastSplit(r.path, r.provider, s.path, s.provider, '\n');
      }
    }
  }

  /** The identifier after the URL. */
  function Tail(digest: string, rest: string, key: string): string {
    digest + "\n" + rest + "\n" + key
  }

  lemma IdShape(r: Request, tools: Tools)
    ensures Id(r, tools) == r.url + ['\n'] + Tail(r.digest, PathAndProvider(r), tools.digestOf(r.keys))
  {
    assert r.digest + "\n" + r.path + "\n" + r.provider == r.digest + "\n" + PathAndProvider(r);
  }

  // ---------------------------------------------------------------- the table

  datatype Item = Item(generator: Generator, validUntil: int)

  type Table = map<string, Item>

  /** One lookup; `fetched` is what the URL leads to if anybody asks. */
  function Lookup(t: Table, r: Request, at: int, fetched: Option<Folder>, tools: Tools): (Table, Option<Generator>) {
    var id := Id(r, tools);
    if id in t then (t[id := t[id].(validUntil := at + VALIDITY)], Some(t[id].generator))
    else
      var built := if fetched.None? then None else Build(r, fetched.value, tools);
      if built.None? then (t, None) else (t[id := Item(built.value, at + VALIDITY)], built)
  }

  function Swept(t: Table, now: int): Table {
    map id | id in t && !(t[id].validUntil < now) :: t[id]
  }

  class Factory {
    var items: Table

    constructor ()
      ensures items == map[]
    {
      items := map[];
    }

    method GetGenerator(r: Request, w: World, order: seq<string>, now: int, tools: Tools) returns (g: Option<Generator>)
      requires B.FilesAt(w.store, r.url).Some? ==> IsOrder(order, B.FilesAt(w.store, r.url).value)
      modifies this
      ensures (items, g) == Lookup(old(items), r, now, Fetch(w, r.url, order), tools)
      // spelled out: a known identifier is answered from the table, any other by building from what is fetched
      ensures var id := Id(r, tools);
        if id in old(items) then
          g == Some(old(items)[id].generator) && items == old(items)[id := Item(old(items)[id].generator, now + 3600)]
        else
          var got := Fetch(w, r.url, order);
          && FetchedRight(w, r.url, got) && (if got.None? then g == None else AnswersRight(r, got.value, tools, g))
          && items == if g.None? then old(items) else old(items)[id := Item(g.value, now + 3600)]
    {
      FetchExact(w, r.url, order);
      ghost var got := Fetch(w, r.url, order);
      if got.Some? { BuildExact(r, got.value, tools); }
      var id := Id(r, tools);
      if id in items {
        items := items[id := items[id].(validUntil := now + VALIDITY)];
        return Some(items[id].generator);
      }
      if r.keys != map[] {
        if r.provider != "sops" && r.provider != "" { return None; }
        if !tools.accepts(r.keys) { return None; }
      }
      var folder: Folder;
      if SCHEME <= r.url {
        var d := DownloadBlueprint(w.store, r.url, order);
        if B.FilesAt(w.store, r.url).Some? { AllOrdersAlike(B.FilesAt(w.store, r.url).value, order); }
        if !d.Downloaded? { return None; }
        folder := Folder(d.tree, {});
      } else {
        if r.url !in w.archives { return None; }
        folder := w.archives[r.url];
      }
      if tools.resolve(r.path).None? { return None; }
      var dir := tools.resolve(r.path).value;
      if !HasDirectory(folder, dir) { return None; }
      var generator: Generator;
      if HasChart(folder, dir) {
        if r.keys != map[] {
          var plain := tools.decrypt(r.keys, folder.files, dir);
          if plain.None? { return None; }
          folder := folder.(files := plain.value);
        }
        if !tools.helmLoads(folder, dir) { return None; }
        generator := Helm(folder, dir);
      } else {
        if !tools.kustomizeLoads(folder, dir, Decryption(r)) { return None; }
        generator := Kustomize(folder, dir, Decryption(r));
      }
      items := items[id := Item(generator, now + VALIDITY)];
      g := Some(generator);
    }

    /** One round of the sweeper, which visits the entries in any order. */
    method Sweep(now: int)
      modifies this
      ensures items == Swept(old(items), now)
    {
      ghost var before := items;
      var left := items.Keys;
      while left != {}
        invariant left <= old(items).Keys
        invariant items == map id | id in before && (id in left || !(before[id].validUntil < now)) :: before[id]
        decreases |left|
      {
        var id :| id in left;
        if items[id].validUntil < now { items := items - {id}; }
        left := left - {id};
      }
    }
  }

  lemma AllOrdersAlike(files: B.Files, order: seq<string>)
    requires IsOrder(order, files)
    ensures WriteAll(files, order).Some? <==> Writable(files.Keys)
  {
    WriteAllExact(files, order);
  }

  // ---------------------------------------------------------------- runs

  datatype Event = Get(request: Request, at: int, fetched: Option<Folder>) | Tick(at: int)

  function Step(t: Table, e: Event, tools: Tools): Table {
    match e
    case Get(r, at, fetched) => Lookup(t, r, at, fetched, tools).0
    case Tick(at) => Swept(t, at)
  }

  function After(run: seq<Event>, tools: Tools): Table {
    if run == [] then map[] else Step(After(run[..|run| - 1], tools), run[|run| - 1], tools)
  }

  /** The answer to the next lookup after a run. */
  function Answer(run: seq<Event>, r: Request, at: int, fetched: Option<Folder>, tools: Tools): Option<Generator> {
    Lookup(After(run, tools), r, at, fetched, tools).1
  }

  /** The lookups of the run are for the given requests; what `r`'s URL yields at its digest is always `f`. */
  ghost predicate RunOver(run: seq<Event>, requests: set<Request>, r: Request, f: Folder) {
    forall i | 0 <= i < |run| && run[i].Get? ::
      && run[i].request in requests
      && (run[i].request.url == r.url && run[i].request.digest == r.digest && run[i].fetched.Some? ==>
            run[i].fetched.value == f)
  }

  /** An entry was built for some lookup of the run with its identifier. */
  ghost predicate BuiltBy(run: seq<Event>, id: string, g: Generator, i: int, tools: Tools) {
    && 0 <= i < |run| && run[i].Get? && run[i].fetched.Some? && Id(run[i].request, tools) == id
    && Build(run[i].request, run[i].fetched.value, tools) == Some(g)
  }

  lemma {:induction false} EntriesWereBuilt(run: seq<Event>, id: string, tools: Tools) returns (i: nat)
    requires id in After(run, tools)
    ensures BuiltBy(run, id, After(run, tools)[id].generator, i, tools)
    decreases |run|
  {
    var init, e := run[..|run| - 1], run[|run| - 1];
    if id in After(init, tools) {
      i := EntriesWereBuilt(init, id, tools);
    } else {
      i := |run| - 1;
    }
  }

  /** A request that shares an identifier leads to the same generator, or to none. */
  ghost predicate Harmless(s: Request, r: Request, f: Folder, tools: Tools) {
    Id(s, tools) == Id(r, tools) && Build(s, f, tools).Some? ==> Build(s, f, tools) == Build(r, f, tools)
  }

  /** The answer after any such run, whether or not anything can be fetched right now. */
  lemma AnswerIsBuild(run: seq<Event>, requests: set<Request>, r: Request, at: int, fetched: Option<Folder>,
                      f: Folder, tools: Tools)
    requires RunOver(run, requests, r, f) && DigestsAreOneLine(tools) && OneLiners(r)
    requires forall s | s in requests :: OneLiners(s) && Harmless(s, r, f, tools)
    requires fetched.Some? ==> fetched.value == f
    ensures Answer(run, r, at, fetched, tools) == Build(r, f, tools) ||
      (fetched.None? && Answer(run, r, at, fetched, tools).None?)
  {
    if Id(r, tools) in After(run, tools) {
      var i := EntriesWereBuilt(run, Id(r, tools), tools);
      assert run[i].request in requests;
      IdExact(run[i].request, r, tools);
      assert Harmless(run[i].request, r, f, tools);
    }
  }

  /** A single lookup of another request decides the answer. */
  lemma FirstBuilderDecides(s: Request, r: Request, f: Folder, tools: Tools)
    requires Id(s, tools) == Id(r, tools) && Build(s, f, tools).Some?
    ensures Answer([Get(s, 0, Some(f))], r, 0, Some(f), tools) == Build(s, f, tools)
  {
    var run := [Get(s, 0, Some(f))];
    assert run[..0] == [];
    assert After(run, tools) == Step(map[], run[0], tools);
  }

  ghost predicate AlwaysRebuilt(requests: set<Request>, r: Request, f: Folder, tools: Tools) {
    forall run, at | RunOver(run, requests, r, f) :: Answer(run, r, at, Some(f), tools) == Build(r, f, tools)
  }

  /**
   The table refines rebuilding: after every run of lookups and sweeps a lookup answers what a
   fresh build would, exactly if no other request with the same identifier leads to another generator.
   */
  lemma CacheRefinesRebuilding(requests: set<Request>, r: Request, f: Folder, tools: Tools)
    requires DigestsAreOneLine(tools) && OneLiners(r) && forall s | s in requests :: OneLiners(s)
    ensures AlwaysRebuilt(requests, r, f, tools) <==> forall s | s in requests :: Harmless(s, r, f, tools)
  {
    if forall s | s in requests :: Harmless(s, r, f, tools) {
      forall run, at | RunOver(run, requests, r, f)
        ensures Answer(run, r, at, Some(f), tools) == Build(r, f, tools)
      {
        AnswerIsBuild(run, requests, r, at, Some(f), f, tools);
      }
    }
    if AlwaysRebuilt(requests, r, f, tools) {
      forall s | s in requests && Id(s, tools) == Id(r, tools) && Build(s, f, tools).Some?
        ensures Build(s, f, tools) == Build(r, f, tools)
      {
        IdExact(s, r, tools);
        FirstBuilderDecides(s, r, f, tools);
        assert RunOver([Get(s, 0, Some(f))], requests, r, f);
      }
    }
  }

  /** No other path can be read off the identifier, and no two key sets in use share a digest. */
  ghost predicate NoTwins(requests: set<Request>, r: Request, tools: Tools) {
    forall s | s in requests ::
      && (PathAndProvider(s) == PathAndProvider(r) ==> s.path == r.path)
      && (tools.digestOf(s.keys) == tools.digestOf(r.keys) ==> s.keys == r.keys)
  }

  /** Then every identifier belongs to one request, so nothing can go wrong. */
  lemma NoTwinsNoHarm(requests: set<Request>, r: Request, f: Folder, tools: Tools)
    requires DigestsAreOneLine(tools) && OneLiners(r) && forall s | s in requests :: OneLiners(s)
    requires NoTwins(requests, r, tools)
    ensures AlwaysRebuilt(requests, r, f, tools)
  {
    forall s | s in requests
      ensures Harmless(s, r, f, tools)
    {
      if Id(s, tools) == Id(r, tools) {
        IdExact(s, r, tools);
        PathIsClear(s, r);
        assert s == r;
      }
    }
    CacheRefinesRebuilding(requests, r, f, tools);
  }

  // ---------------------------------------------------------------- lifetime

  ghost predicate Ordered(run: seq<Event>) {
    forall i, j | 0 <= i < j < |run| :: run[i].at <= run[j].at
  }

  /** When a lookup for the identifier was last answered. */
  function LastUse(run: seq<Event>, id: string, tools: Tools): Option<int> {
    if run == [] then None
    else
      var init, e := run[..|run| - 1], run[|run| - 1];
      if e.Get? && Id(e.request, tools) == id && Answer(init, e.request, e.at, e.fetched, tools).Some? then Some(e.at)
      else LastUse(init, id, tools)
  }

  /** An entry is valid for an hour after its last use, and gone only if that hour had passed at some sweep. */
  lemma {:induction false} EntryLifetime(run: seq<Event>, id: string, tools: Tools)
    requires Ordered(run)
    ensures id in After(run, tools) ==> LastUse(run, id, tools) == Some(After(run, tools)[id].validUntil - 3600)
    ensures id !in After(run, tools) && LastUse(run, id, tools).Some? ==>
      run != [] && run[|run| - 1].at > LastUse(run, id, tools).value + 3600
    decreases |run|
  {
    if run != [] {
      EntryLifetime(run[..|run| - 1], id, tools);
    }
  }

  /** A sweep leaves exactly the entries used within the last hour. */
  lemma SweepExact(run: seq<Event>, now: int, id: string, tools: Tools)
    requires Ordered(run + [Tick(now)])
    ensures id in After(run + [Tick(now)], tools) <==>
      LastUse(run, id, tools).Some? && now <= LastUse(run, id, tools).value + 3600
  {
    var all := run + [Tick(now)];
    assert all[..|run|] == run && all[|run|] == Tick(now);
    assert forall i | 0 <= i < |run| :: all[i] == run[i];
    EntryLifetime(run, id, tools);
  }

  /** An entry used within the last hour is there, whatever happened in between. */
  lemma RecentlyUsedIsPresent(run: seq<Event>, now: int, id: string, tools: Tools)
    requires Ordered(run) && run != [] && run[|run| - 1].at <= now
    requires LastUse(run, id, tools).Some? && now - LastUse(run, id, tools).value <= 3600
    ensures id in After(run, tools)
  {
    EntryLifetime(run, id, tools);
  }
}
