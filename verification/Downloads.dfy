/**
 Turning a blueprint URL back into files (downloadBlueprint, internal/generator/factory.go lines
 153-184): the files of the version are written below a directory in the order of a Go map.
 */
module Downloads {
  import opened Options
  import opened Names
  import B = BlueprintStore

  /** File contents by path relative to the target directory; directories are implied. */
  type Tree = map<string, string>

  // ---------------------------------------------------------------- paths

  /** Part of the path before the first slash. */
  function Head(path: string): string { path[..FirstSlash(path)] }

  predicate CleanSegments(path: string)
    decreases |path|
  {
    Head(path) != "" && Head(path) != "." &&
    (FirstSlash(path) < |path| ==> CleanSegments(path[FirstSlash(path) + 1..]))
  }

  predicate HasDotDot(path: string) {
    exists i :: 0 <= i < |path| - 1 && path[i] == '.' && path[i + 1] == '.'
  }

  /** For a path without "..": it equals its filepath.Clean. */
  predicate IsClean(path: string) {
    path == "." || path == "/" || CleanSegments(Relative(path))
  }

  predicate IsAllowed(path: string) {
    IsClean(path) && !HasDotDot(path)
  }

  /** Where an allowed path ends up below the target directory: joining drops a leading slash. */
  function Relative(path: string): string {
    if path == "." then ""
    else if path != "" && path[0] == '/' then path[1..] else path
  }

  // ---------------------------------------------------------------- what paths are allowed

  /** Names joined by single slashes. */
  function Join(names: seq<string>): string {
    if names == [] then "" else if |names| == 1 then names[0] else names[0] + "/" + Join(names[1..])
  }

  ghost predicate Contains(text: string, part: string) {
    exists before, after :: text == before + part + after
  }

  /** A file name without surprises. */
  ghost predicate IsOrdinaryName(name: string) {
    name != "" && name != "." && '/' !in name && !Contains(name, "..")
  }

  ghost predicate AreOrdinary(names: seq<string>) {
    names != [] && forall i | 0 <= i < |names| :: IsOrdinaryName(names[i])
  }

  /** Ordinary names joined by single slashes, perhaps with a slash in front. */
  ghost predicate IsOrdinaryPath(path: string) {
    exists names :: AreOrdinary(names) && (path == Join(names) || path == "/" + Join(names))
  }

  lemma DotDotExactly(path: string)
    ensures HasDotDot(path) <==> Contains(path, "..")
  {
    if i :| 0 <= i < |path| - 1 && path[i] == '.' && path[i + 1] == '.' {
      assert path == path[..i] + ".." + path[i + 2..];
    }
    if before, after :| path == before + ".." + after {
      assert path[|before|] == '.' && path[|before| + 1] == '.';
    }
  }

  /** Two dots in a row are within one name. */
  lemma DotDotOfPair(a: string, b: string)
    ensures HasDotDot(a + "/" + b) <==> HasDotDot(a) || HasDotDot(b)
  {
    var s := a + "/" + b;
    assert s[|a|] == '/' && forall i | 0 <= i < |a| :: s[i] == a[i];
    assert forall i | 0 <= i < |b| :: s[|a| + 1 + i] == b[i];
    if i :| 0 <= i < |b| - 1 && b[i] == '.' && b[i + 1] == '.' {
      assert s[|a| + 1 + i] == '.' && s[|a| + 2 + i] == '.';
    }
    if i :| |a| < i < |s| - 1 && s[i] == '.' && s[i + 1] == '.' {
      assert b[i - |a| - 1] == '.' && b[i - |a|] == '.';
    }
  }

  lemma {:induction false} JoinIsAllowed(names: seq<string>)
    requires AreOrdinary(names)
    ensures CleanSegments(Join(names)) && !HasDotDot(Join(names)) && Join(names) != "" && Join(names)[0] != '/'
    decreases |names|
  {
    var name := names[0];
    DotDotExactly(name);
    if |names| == 1 {
      assert forall i | 0 <= i < |name| :: name[i] in name;
      assert FirstSlash(name) == |name|;
    } else {
      JoinIsAllowed(names[1..]);
      SlashAt(name, Join(names[1..]));
      DotDotOfPair(name, Join(names[1..]));
      assert Join(names)[0] == name[0] && name[0] in name;
    }
  }

  lemma {:induction false} CleanIsJoin(path: string) returns (names: seq<string>)
    requires CleanSegments(path) && !HasDotDot(path)
    ensures AreOrdinary(names) && path == Join(names)
    decreases |path|
  {
    var i := FirstSlash(path);
    var name := path[..i];
    if i == |path| {
      assert name == path;
      DotDotExactly(name);
      names := [name];
    } else {
      assert path == name + "/" + path[i + 1..];
      DotDotOfPair(name, path[i + 1..]);
      DotDotExactly(name);
      var rest := CleanIsJoin(path[i + 1..]);
      names := [name] + rest;
      assert names[1..] == rest;
    }
  }

  /** The check on paths lets through the ordinary ones and the directory itself. */
  lemma AllowedExactly(path: string)
    ensures IsAllowed(path) <==> path in {".", "/"} || IsOrdinaryPath(path)
    ensures IsAllowed(path) && Relative(path) != "" <==> IsOrdinaryPath(path)
  {
    if IsAllowed(path) && Relative(path) != "" {
      if path[0] == '/' {
        assert path == "/" + Relative(path);
        DotDotOfPair("", Relative(path));
        assert "" + "/" + Relative(path) == path;
      }
      var names := CleanIsJoin(Relative(path));
    }
    if names :| AreOrdinary(names) && (path == Join(names) || path == "/" + Join(names)) {
      JoinIsAllowed(names);
      if path == "/" + Join(names) {
        DotDotOfPair("", Join(names));
        assert "" + "/" + Join(names) == path;
      } else {
        DotIsNotOrdinary(names);
      }
    }
  }

  lemma DotIsNotOrdinary(names: seq<string>)
    requires AreOrdinary(names)
    ensures Join(names) != "."
  {
    assert |names| > 1 ==> |Join(names)| > 1;
  }

  /** The part of the path between two slashes, or between a slash and an end. */
  ghost predicate IsSegmentOf(part: string, path: string) {
    exists before, after :: SplitsAt(before, part, after, path)
  }

  ghost predicate SplitsAt(before: string, part: string, after: string, path: string) {
    && path == before + part + after && '/' !in part
    && (before == "" || before[|before| - 1] == '/') && (after == "" || after[0] == '/')
  }

  /** The first segment is the first name, and the others are segments of what follows. */
  lemma FirstSegment(name: string, rest: string, before: string, part: string, after: string)
    requires '/' !in name && SplitsAt(before, part, after, name + "/" + rest)
    ensures before == "" ==> part == name
    ensures before != "" ==> |before| > |name| && SplitsAt(before[|name| + 1..], part, after, rest)
  {
    var path := name + "/" + rest;
    assert path[|name|] == '/' && forall i | 0 <= i < |name| :: path[i] == name[i] && path[i] in name;
    if before == "" {
      assert after == "" ==> path == part;
      assert path[|name|] in path;
      assert path == part + ['/'] + after[1..] && path == name + ['/'] + rest;
      FirstSplit(part, after[1..], name, rest, '/');
    } else {
      assert path[|before| - 1] == '/';
      var below := before[|name| + 1..];
      assert before == path[..|before|];
      assert rest == path[|name| + 1..];
      assert rest == below + part + after;
    }
  }

  lemma {:induction false} SegmentsOfJoin(names: seq<string>, before: string, part: string, after: string)
    requires AreOrdinary(names) && SplitsAt(before, part, after, Join(names))
    ensures part in names
    decreases |names|
  {
    var name := names[0];
    if |names| == 1 {
      assert '/' !in name && (forall c | c in before :: c in name) && forall c | c in after :: c in name;
      assert part == name;
    } else {
      FirstSegment(name, Join(names[1..]), before, part, after);
      if before != "" {
        SegmentsOfJoin(names[1..], before[|name| + 1..], part, after);
      }
    }
  }

  lemma RelativeOfJoin(names: seq<string>)
    requires AreOrdinary(names)
    ensures Relative(Join(names)) == Join(names) == Relative("/" + Join(names))
  {
    JoinIsAllowed(names);
    DotIsNotOrdinary(names);
  }

  lemma OrdinaryIsNoDots(name: string)
    requires IsOrdinaryName(name)
    ensures name !in {"", ".", ".."}
  {
    assert ".." == "" + ".." + "" && Contains("..", "..");
  }

  /** Nothing in an ordinary path leads anywhere but down. */
  lemma OrdinaryStaysBelow(path: string, part: string)
    requires IsOrdinaryPath(path) && IsSegmentOf(part, Relative(path))
    ensures part !in {"", ".", ".."}
  {
    var names :| AreOrdinary(names) && (path == Join(names) || path == "/" + Join(names));
    RelativeOfJoin(names);
    var before, after :| SplitsAt(before, part, after, Join(names));
    SegmentsOfJoin(names, before, part, after);
    OrdinaryIsNoDots(part);
  }

  // ---------------------------------------------------------------- writing

  predicate IsDirectory(t: Tree, p: string) {
    p == "" || exists q :: q in t && p + "/" <= q
  }

  /** Some ancestor of the path is a file. */
  predicate IsBlocked(t: Tree, p: string) {
    exists q :: q in t && q + "/" <= p
  }

  /** Creating the parent directories and the file. */
  function WriteFile(t: Tree, p: string, content: string): Option<Tree> {
    if IsBlocked(t, p) || IsDirectory(t, p) then None else Some(t[p := content])
  }

  /** Writing files in a given order; None is an error. */
  ghost function WriteAll(files: B.Files, order: seq<string>): Option<Tree>
    requires forall i | 0 <= i < |order| :: order[i] in files
  {
    if order == [] then Some(map[])
    else
      var path := order[|order| - 1];
      match WriteAll(files, order[..|order| - 1])
      case None => None
      case Some(t) => if IsAllowed(path) then WriteFile(t, Relative(path), files[path]) else None
  }

  /** Paths that can be written next to each other. */
  ghost predicate Apart(p: string, q: string) {
    !(Relative(p) + "/" <= Relative(q))
  }

  ghost predicate Writable(paths: set<string>) {
    && (forall p | p in paths :: IsAllowed(p) && Relative(p) != "")
    && (forall p, q | p in paths && q in paths :: Apart(p, q))
  }

  ghost function Paths(order: seq<string>): set<string> { set p | p in order }

  ghost predicate IsOrder(order: seq<string>, files: B.Files)
    ensures IsOrder(order, files) ==> forall i | 0 <= i < |order| :: order[i] in files
  {
    Paths(order) == files.Keys
  }

  ghost function Places(order: seq<string>): set<string> { set p | p in order :: Relative(p) }

  lemma {:induction false} WrittenPlaces(files: B.Files, order: seq<string>)
    requires forall i | 0 <= i < |order| :: order[i] in files
    requires WriteAll(files, order).Some?
    ensures WriteAll(files, order).value.Keys == Places(order)
    decreases |order|
  {
    if order != [] {
      var init, path := order[..|order| - 1], order[|order| - 1];
      WrittenPlaces(files, init);
      PlacesStep(order);
    }
  }

  lemma PlacesStep(order: seq<string>)
    requires order != []
    ensures Places(order) == Places(order[..|order| - 1]) + {Relative(order[|order| - 1])}
    ensures Paths(order) == Paths(order[..|order| - 1]) + {order[|order| - 1]}
  {
    assert order == order[..|order| - 1] + [order[|order| - 1]];
  }

  /**
   Whether writing succeeds does not depend on the order: it does exactly when all paths are
   allowed, none is the directory itself and no file would have to be a directory as well.
   */
  lemma {:induction false} WriteAllExact(files: B.Files, order: seq<string>)
    requires forall i | 0 <= i < |order| :: order[i] in files
    ensures WriteAll(files, order).Some? <==> Writable(Paths(order))
    decreases |order|
  {
    if order != [] {
      var init, path := order[..|order| - 1], order[|order| - 1];
      WriteAllExact(files, init);
      PlacesStep(order);
      if WriteAll(files, init).Some? {
        WrittenPlaces(files, init);
        WriteOneMore(files, init, path, WriteAll(files, init).value);
      }
    }
  }

  lemma WriteOneMore(files: B.Files, init: seq<string>, path: string, t: Tree)
    requires path in files && Writable(Paths(init)) && t.Keys == Places(init)
    ensures IsAllowed(path) && WriteFile(t, Relative(path), files[path]).Some? <==> Writable(Paths(init) + {path})
  {
    forall q | q in Paths(init)
      ensures Relative(q) in t && q in Paths(init) + {path}
    {
    }
    assert Apart(path, path);
    if IsAllowed(path) && WriteFile(t, Relative(path), files[path]).Some? {
      forall q | q in Paths(init)
        ensures Apart(path, q) && Apart(q, path)
      {
        assert Relative(q) in t;
      }
    }
    if Writable(Paths(init) + {path}) {
      forall r | r in t
        ensures !(Relative(path) + "/" <= r) && !(r + "/" <= Relative(path))
      {
        var q :| q in init && Relative(q) == r;
        assert Apart(path, q) && Apart(q, path);
      }
    }
  }

  /** The last of the paths that lead to the same place decides what is there. */
  lemma {:induction false} LastWriteStays(files: B.Files, order: seq<string>, i: nat)
    requires forall j | 0 <= j < |order| :: order[j] in files
    requires WriteAll(files, order).Some? && i < |order|
    requires forall j | i < j < |order| :: Relative(order[j]) != Relative(order[i])
    ensures Relative(order[i]) in WriteAll(files, order).value
    ensures WriteAll(files, order).value[Relative(order[i])] == files[order[i]]
    decreases |order|
  {
    if i < |order| - 1 {
      LastWriteStays(files, order[..|order| - 1], i);
    }
  }

  lemma {:induction false} LastIndex(order: seq<string>, r: string) returns (i: nat)
    requires r in Places(order)
    ensures i < |order| && Relative(order[i]) == r && forall j | i < j < |order| :: Relative(order[j]) != r
    decreases |order|
  {
    i := |order| - 1;
    if Relative(order[i]) != r {
      var p :| p in order && Relative(p) == r;
      assert order == order[..i] + [order[i]];
      assert p in order[..i];
      i := LastIndex(order[..i], r);
    }
  }

  /** Paths to the same place, such as "a" and "/a", have the same content. */
  ghost predicate Agreeing(files: B.Files) {
    forall p, q | p in files && q in files && Relative(p) == Relative(q) :: files[p] == files[q]
  }

  /** What ends up at the place of a path, whatever the order. */
  lemma ContentAt(files: B.Files, order: seq<string>, p: string)
    requires IsOrder(order, files) && Agreeing(files) && WriteAll(files, order).Some? && p in files
    ensures Relative(p) in WriteAll(files, order).value
    ensures WriteAll(files, order).value[Relative(p)] == files[p]
  {
    assert p in Paths(order);
    var i := LastIndex(order, Relative(p));
    LastWriteStays(files, order, i);
    assert order[i] in files;
  }

  lemma SameTree(files: B.Files, order: seq<string>, order': seq<string>)
    requires IsOrder(order, files) && IsOrder(order', files) && Agreeing(files)
    ensures WriteAll(files, order) == WriteAll(files, order')
  {
    WriteAllExact(files, order);
    WriteAllExact(files, order');
    if WriteAll(files, order).Some? {
      var t, t' := WriteAll(files, order).value, WriteAll(files, order').value;
      WrittenPlaces(files, order);
      WrittenPlaces(files, order');
      assert t.Keys == t'.Keys by { SamePlaces(order, order'); }
      forall r | r in t
        ensures t[r] == t'[r]
      {
        var p := PathTo(order, r);
        ContentAt(files, order, p);
        ContentAt(files, order', p);
      }
      assert t == t';
    }
  }

  lemma SamePlaces(order: seq<string>, order': seq<string>)
    requires Paths(order) == Paths(order')
    ensures Places(order) == Places(order')
  {
    assert forall p :: p in order <==> p in Paths(order);
    assert forall p :: p in order' <==> p in Paths(order');
  }

  lemma PathTo(order: seq<string>, r: string) returns (p: string)
    requires r in Places(order)
    ensures p in Paths(order) && Relative(p) == r
  {
    p :| p in order && Relative(p) == r;
  }

  lemma {:induction false} OrderEndingWith(files: B.Files, paths: set<string>, p: string) returns (order: seq<string>)
    requires p in files && paths <= files.Keys
    ensures |order| > 0 && order[|order| - 1] == p
    ensures Paths(order) == paths + {p}
    decreases paths
  {
    if q :| q in paths {
      var rest := OrderEndingWith(files, paths - {q}, p);
      order := [q] + rest;
      assert Paths(order) == {q} + Paths(rest);
    } else {
      order := [p];
      assert Paths(order) == {p};
    }
  }

  ghost predicate OrderIrrelevant(files: B.Files) {
    forall o, o' | IsOrder(o, files) && IsOrder(o', files) :: WriteAll(files, o) == WriteAll(files, o')
  }

  /**
   Writing visits the files in the order of a Go map. That order shows in the result exactly
   when two allowed paths lead to the same place with different contents.
   */
  lemma OrderIrrelevantExactly(files: B.Files)
    requires Writable(files.Keys)
    ensures OrderIrrelevant(files) <==> Agreeing(files)
  {
    if Agreeing(files) {
      forall o, o' | IsOrder(o, files) && IsOrder(o', files)
        ensures WriteAll(files, o) == WriteAll(files, o')
      {
        SameTree(files, o, o');
      }
    }
    if OrderIrrelevant(files) {
      forall p, q | p in files && q in files && Relative(p) == Relative(q)
        ensures files[p] == files[q]
      {
        var o := LastDecides(files, p);
        var o' := LastDecides(files, q);
      }
    }
  }

  lemma LastDecides(files: B.Files, p: string) returns (o: seq<string>)
    requires p in files && Writable(files.Keys)
    ensures IsOrder(o, files) && WriteAll(files, o).Some?
    ensures Relative(p) in WriteAll(files, o).value && WriteAll(files, o).value[Relative(p)] == files[p]
  {
    o := OrderEndingWith(files, files.Keys, p);
    assert IsOrder(o, files) by { assert files.Keys + {p} == files.Keys; }
    LastIsThere(files, o);
  }

  lemma LastIsThere(files: B.Files, order: seq<string>)
    requires IsOrder(order, files) && order != [] && Writable(files.Keys)
    ensures var last := order[|order| - 1];
      && WriteAll(files, order).Some? && Relative(last) in WriteAll(files, order).value
      && WriteAll(files, order).value[Relative(last)] == files[last]
  {
    WriteAllExact(files, order);
    LastWriteStays(files, order, |order| - 1);
  }

  // ---------------------------------------------------------------- the result in terms of the paths

  /** Some path of the files leads to `place`, with or without a slash in front. */
  ghost predicate IsPlace(files: B.Files, place: string) {
    "/" + place in files || (place in files && !("/" <= place))
  }

  /** A file is to be written below another one. */
  ghost predicate FilesInFiles(files: B.Files) {
    exists p, q :: IsPlace(files, p) && IsPlace(files, q) && p + "/" <= q
  }

  /** Just the places of the files, each with the content of a path that leads there. */
  ghost predicate HoldsFiles(t: Tree, files: B.Files) {
    && (forall q :: q in t <==> IsPlace(files, q))
    && (forall q | q in t ::
          ("/" + q in files && t[q] == files["/" + q]) || (q in files && !("/" <= q) && t[q] == files[q]))
  }

  lemma PlaceOf(files: B.Files, path: string)
    requires path in files && Relative(path) != ""
    ensures IsPlace(files, Relative(path))
    ensures path == "/" + Relative(path) || (path == Relative(path) && !("/" <= path))
  {
  }

  lemma PathOfPlace(files: B.Files, place: string) returns (path: string)
    requires IsPlace(files, place) && (forall p | p in files :: IsOrdinaryPath(p))
    ensures path in files && Relative(path) == place
    ensures path == "/" + place || (path == place && !("/" <= place))
  {
    path := if "/" + place in files then "/" + place else place;
    AllowedExactly(path);
  }

  /** Success, in terms of the paths. */
  lemma WritableExactly(files: B.Files)
    ensures Writable(files.Keys) <==> (forall p | p in files :: IsOrdinaryPath(p)) && !FilesInFiles(files)
  {
    forall p | p in files
      ensures IsAllowed(p) && Relative(p) != "" <==> IsOrdinaryPath(p)
    {
      AllowedExactly(p);
    }
    if forall p | p in files :: IsOrdinaryPath(p) {
      if p, q :| IsPlace(files, p) && IsPlace(files, q) && p + "/" <= q {
        var p' := PathOfPlace(files, p);
        var q' := PathOfPlace(files, q);
        assert !Apart(p', q');
      }
      if p, q :| p in files && q in files && !Apart(p, q) {
        PlaceOf(files, p);
        PlaceOf(files, q);
      }
    }
  }

  /** The tree, in terms of the paths. */
  lemma TreeExactly(files: B.Files, order: seq<string>)
    requires IsOrder(order, files) && WriteAll(files, order).Some?
    ensures HoldsFiles(WriteAll(files, order).value, files)
  {
    var t := WriteAll(files, order).value;
    WriteAllExact(files, order);
    WritableExactly(files);
    WrittenPlaces(files, order);
    forall q
      ensures q in t <==> IsPlace(files, q)
    {
      if q in t {
        var p := PathTo(order, q);
        PlaceOf(files, p);
      }
      if IsPlace(files, q) {
        var p := PathOfPlace(files, q);
        assert p in Paths(order);
      }
    }
    forall q | q in t
      ensures ("/" + q in files && t[q] == files["/" + q]) || (q in files && !("/" <= q) && t[q] == files[q])
    {
      var i := LastIndex(order, q);
      LastWriteStays(files, order, i);
      assert order[i] in files;
      PlaceOf(files, order[i]);
    }
  }

  /** No place of a tree that has been written leads out of the target directory. */
  lemma StaysBelow(files: B.Files, order: seq<string>, place: string, part: string)
    requires IsOrder(order, files) && WriteAll(files, order).Some?
    requires place in WriteAll(files, order).value && IsSegmentOf(part, place)
    ensures part !in {"", ".", ".."}
  {
    WriteAllExact(files, order);
    WritableExactly(files);
    WrittenPlaces(files, order);
    var p := PathTo(order, place);
    OrdinaryStaysBelow(p, part);
  }

  datatype Download = Downloaded(tree: Tree) | InvalidUrl | VersionNotFound | InvalidPath | WriteFailed

  /** `order` is the order in which the files of the version are visited. */
  method DownloadBlueprint(store: B.Store, url: string, order: seq<string>) returns (r: Download)
    requires B.FilesAt(store, url).Some? ==> IsOrder(order, B.FilesAt(store, url).value)
    ensures r.InvalidUrl? <==> ParseBlueprintUrl(url).None?
    ensures r.InvalidUrl? || r.VersionNotFound? <==> B.FilesAt(store, url).None?
    ensures B.FilesAt(store, url).Some? ==> var files := B.FilesAt(store, url).value;
      && (r.Downloaded? <==> Writable(files.Keys))
      && (r.Downloaded? ==> WriteAll(files, order) == Some(r.tree))
    // and in terms of the paths alone
    ensures B.FilesAt(store, url).Some? ==> var files := B.FilesAt(store, url).value;
      && (r.Downloaded? <==> (forall p | p in files :: IsOrdinaryPath(p)) && !FilesInFiles(files))
      && (r.Downloaded? ==> HoldsFiles(r.tree, files))
      && (r.InvalidPath? ==> exists p :: p in files && p !in {".", "/"} && !IsOrdinaryPath(p))
    ensures r.Downloaded? ==> forall q, part | q in r.tree && IsSegmentOf(part, q) :: part !in {"", ".", ".."}
  {
    var m := ParseBlueprintUrl(url);
    if m.None? { return InvalidUrl; }
    var key := NamespacedName(m.value.ns, VersionName(m.value.name, m.value.digest));
    if key !in store.versions { return VersionNotFound; }
    var files := store.versions[key].files;
    WritableExactly(files);
    var t: Tree := map[];
    for i := 0 to |order|
      invariant WriteAll(files, order[..i]) == Some(t)
    {
      var path := order[i];
      WriteAllPrefix(files, order, i, t);
      if !IsClean(path) || HasDotDot(path) {
        AllowedExactly(path);
        return InvalidPath;
      }
      var p := Relative(path);
      if IsBlocked(t, p) { return WriteFailed; }
      if IsDirectory(t, p) { return WriteFailed; }
      t := t[p := files[path]];
    }
    assert order[..|order|] == order;
    WriteAllExact(files, order);
    TreeExactly(files, order);
    forall q, part | q in t && IsSegmentOf(part, q)
      ensures part !in {"", ".", ".."}
    {
      StaysBelow(files, order, q, part);
    }
    r := Downloaded(t);
  }

  /** One more file; if it cannot be written the files cannot be. */
  lemma WriteAllPrefix(files: B.Files, order: seq<string>, i: nat, t: Tree)
    requires IsOrder(order, files) && i < |order| && WriteAll(files, order[..i]) == Some(t)
    ensures WriteAll(files, order[..i + 1]) ==
      if IsAllowed(order[i]) then WriteFile(t, Relative(order[i]), files[order[i]]) else None
    ensures WriteAll(files, order[..i + 1]).None? ==> !Writable(files.Keys)
  {
    assert order[..i + 1][..i] == order[..i];
    WriteAllExact(files, order[..i + 1]);
    assert Paths(order[..i + 1]) <= files.Keys;
  }
}
