/**
 Effective values of a component: the documents of spec.valuesFrom in order, then the inline
 spec.values, folded by the merge (internal/generator/generator.go lines 60-74).
 */
module Documents {
  import opened Options
  import opened Values

  ghost predicate AreDocuments(docs: seq<Tree>) {
    forall i | 0 <= i < |docs| :: IsDocument(docs[i])
  }

  // ---------------------------------------------------------------- code fold against overlay fold

  lemma {:induction false} OverlayAllIsNilFree(docs: seq<Tree>)
    requires AreDocuments(docs)
    ensures NilFree(OverlayAll(docs))
  {
    if docs != [] {
      OverlayAllIsNilFree(docs[..|docs| - 1]);
      OverlayIsNilFree(OverlayAll(docs[..|docs| - 1]), docs[|docs| - 1]);
    }
  }

  /** A document fits on top of the overlay of compatible documents iff it fits on top of each. */
  lemma {:induction false} CompatibleWithAll(docs: seq<Tree>, d: Tree)
    requires AreDocuments(docs) && d.IsMap() && PairwiseCompatible(docs)
    ensures Compatible(OverlayAll(docs), d) <==> forall i | 0 <= i < |docs| :: Compatible(docs[i], d)
  {
    if docs != [] {
      var init, last := docs[..|docs| - 1], docs[|docs| - 1];
      CompatibleWithAll(init, d);
      CompatibleWithAll(init, last);
      CompatibleWithOverlay(OverlayAll(init), last, d);
      assert (forall i | 0 <= i < |docs| :: Compatible(docs[i], d)) <==>
        (forall i | 0 <= i < |init| :: Compatible(init[i], d)) && Compatible(last, d);
    }
  }

  /** A typed nil map, once stored, survives every later merge that does not panic. */
  lemma {:induction false} NilPersists(x: Tree, y: Tree)
    requires x.IsMap() && y.IsMap() && !NilFree(x) && !Panics(x, y)
    ensures !NilFree(Merge(x, y))
    decreases y
  {
    if x.Node? {
      var k :| k in x.entries && !NilFree(x.entries[k]);
      if k in y.Entries() && y.Entries()[k].IsMap() {
        NilPersists(x.entries[k], y.Entries()[k]);
      }
      assert k in Merge(x, y).entries;
    }
  }

  /**
   The generator computes the intended values exactly when no document's map is overlaid by a
   later document's non-map; in every other case it panics or hands a typed nil map to the
   template engine, and no later document can repair that.
   */
  lemma {:induction false} ValuesExact(docs: seq<Tree>)
    requires AreDocuments(docs)
    ensures MergeAll(docs) == Some(OverlayAll(docs)) <==> PairwiseCompatible(docs)
    ensures MergeAll(docs).Some? && NilFree(MergeAll(docs).value) <==> PairwiseCompatible(docs)
  {
    OverlayAllIsNilFree(docs);
    if docs != [] {
      var init, last := docs[..|docs| - 1], docs[|docs| - 1];
      ValuesExact(init);
      if PairwiseCompatible(init) {
        MergeIsOverlayExactly(OverlayAll(init), last);
        CompatibleWithAll(init, last);
        assert PairwiseCompatible(docs) <==> (forall i | 0 <= i < |init| :: Compatible(init[i], last));
      } else {
        assert !PairwiseCompatible(docs) by {
          var i, j :| 0 <= i < j < |init| && !Compatible(init[i], init[j]);
          assert !Compatible(docs[i], docs[j]);
        }
        if MergeAll(docs).Some? {
          NilPersists(MergeAll(init).value, last);
        }
      }
    }
  }

  /** For compatible documents the grouping of the value sources does not matter. */
  lemma GroupingIsIrrelevant(first: seq<Tree>, second: seq<Tree>)
    requires AreDocuments(first + second) && PairwiseCompatible(first + second)
    ensures AreDocuments(first) && AreDocuments(second)
    ensures MergeAll(first + second) == Some(Overlay(OverlayAll(first), OverlayAll(second)))
  {
    var docs := first + second;
    assert forall i | 0 <= i < |first| :: docs[i] == first[i];
    assert forall i | 0 <= i < |second| :: docs[|first| + i] == second[i];
    ValuesExact(first + second);
    OverlayAllAppend(first, second);
  }

  lemma {:induction false} OverlayAllAppend(first: seq<Tree>, second: seq<Tree>)
    requires AreDocuments(first) && AreDocuments(second) && PairwiseCompatible(first + second)
    ensures OverlayAll(first + second) == Overlay(OverlayAll(first), OverlayAll(second))
    decreases |second|
  {
    var docs := first + second;
    if second == [] {
      assert docs == first;
      OverlayAllIsNilFree(first);
      OverlayUnits(OverlayAll(first));
    } else {
      var init, last := second[..|second| - 1], second[|second| - 1];
      assert docs[..|docs| - 1] == first + init && docs[|docs| - 1] == last;
      assert PairwiseCompatible(first + init) by {
        forall i, j | 0 <= i < j < |first + init| ensures Compatible((first + init)[i], (first + init)[j]) {
          assert Compatible(docs[i], docs[j]);
        }
      }
      OverlayAllAppend(first, init);
      assert Compatible(OverlayAll(first), OverlayAll(init)) by {
        CompatibleAcross(first, init);
      }
      OverlayAssociative(OverlayAll(first), OverlayAll(init), last);
    }
  }

  lemma {:induction false} CompatibleAcross(first: seq<Tree>, second: seq<Tree>)
    requires AreDocuments(first) && AreDocuments(second) && PairwiseCompatible(first + second)
    ensures Compatible(OverlayAll(first), OverlayAll(second))
    decreases |second|
  {
    var docs := first + second;
    assert PairwiseCompatible(first) by {
      forall i, j | 0 <= i < j < |first| ensures Compatible(first[i], first[j]) {
        assert Compatible(docs[i], docs[j]);
      }
    }
    if second != [] {
      var init, last := second[..|second| - 1], second[|second| - 1];
      assert PairwiseCompatible(first + init) by {
        forall i, j | 0 <= i < j < |first + init| ensures Compatible((first + init)[i], (first + init)[j]) {
          assert Compatible(docs[i], docs[j]);
        }
      }
      CompatibleAcross(first, init);
      forall i | 0 <= i < |first| ensures Compatible(first[i], last) {
        assert docs[i] == first[i] && docs[|docs| - 1] == last;
      }
      CompatibleWithAll(first, last);
      BelowOverlay(OverlayAll(first), OverlayAll(init), last);
    }
  }

  lemma {:induction false} BelowOverlay(x: Tree, y: Tree, z: Tree)
    requires x.IsMap() && y.IsMap() && z.IsMap() && Compatible(x, y) && Compatible(x, z)
    ensures Compatible(x, Overlay(y, z))
    decreases x
  {
    var o := Overlay(y, z);
    forall k | k in x.Entries() && k in o.entries && x.Entries()[k].IsMap()
      ensures o.entries[k].IsMap() && Compatible(x.Entries()[k], o.entries[k])
    {
      if k in y.Entries() && k in z.Entries() {
        BelowOverlay(x.Entries()[k], y.Entries()[k], z.Entries()[k]);
      }
    }
  }

  // ---------------------------------------------------------------- effective value at a path

  ghost function At(t: Tree, p: Path): Option<Tree> {
    if p == [] then Some(t)
    else if p[0] in t.Entries() then At(t.Entries()[p[0]], p[1..])
    else None
  }

  ghost predicate LeafAt(t: Tree, p: Path) {
    At(t, p).Some? && At(t, p).value.Leaf?
  }

  ghost predicate NodeAt(t: Tree, p: Path) {
    At(t, p).Some? && At(t, p).value.Node?
  }

  /** At a non-root path an overlay of compatible layers shows the upper layer where it says something. */
  lemma {:induction false} OverlayAtPath(x: Tree, y: Tree, p: Path)
    requires x.IsMap() && y.IsMap() && Compatible(x, y) && p != []
    ensures At(Overlay(x, y), p).None? <==> At(x, p).None? && At(y, p).None?
    ensures LeafAt(Overlay(x, y), p) <==> LeafAt(y, p) || (LeafAt(x, p) && At(y, p).None?)
    ensures LeafAt(Overlay(x, y), p) ==> At(Overlay(x, y), p) == (if At(y, p).Some? then At(y, p) else At(x, p))
    decreases p
  {
    var k, rest := p[0], p[1..];
    if k in x.Entries() && k in y.Entries() && x.Entries()[k].IsMap() {
      var v, w := x.Entries()[k], y.Entries()[k];
      if rest == [] {
        assert At(v, rest) == Some(v) && At(w, rest) == Some(w) && At(Overlay(v, w), rest) == Some(Overlay(v, w));
      } else {
        OverlayAtPath(v, w, rest);
      }
    } else if k in x.Entries() && k in y.Entries() {
      assert rest == [] || At(x.Entries()[k], rest) == None;
    }
  }

  /** Document `i` is the last one that defines path `p`. */
  ghost predicate IsLastAt(docs: seq<Tree>, p: Path, i: int) {
    0 <= i < |docs| && At(docs[i], p).Some? && forall j | i < j < |docs| :: At(docs[j], p).None?
  }

  lemma {:induction false} LastWins(docs: seq<Tree>, p: Path, i: int)
    requires AreDocuments(docs) && PairwiseCompatible(docs) && p != [] && IsLastAt(docs, p, i)
    ensures At(OverlayAll(docs), p).Some?
    ensures LeafAt(OverlayAll(docs), p) <==> LeafAt(docs[i], p)
    ensures LeafAt(docs[i], p) ==> At(OverlayAll(docs), p) == At(docs[i], p)
  {
    var init, last := docs[..|docs| - 1], docs[|docs| - 1];
    CompatibleWithAll(init, last);
    OverlayAtPath(OverlayAll(init), last, p);
    if i < |docs| - 1 {
      LastWins(init, p, i);
    } else if LeafAt(OverlayAll(init), p) {
      assert At(last, p).Some?;
    }
  }

  lemma {:induction false} NothingFromNothing(docs: seq<Tree>, p: Path)
    requires AreDocuments(docs) && PairwiseCompatible(docs) && p != []
    requires forall i | 0 <= i < |docs| :: At(docs[i], p).None?
    ensures At(OverlayAll(docs), p).None?
  {
    if docs != [] {
      var init, last := docs[..|docs| - 1], docs[|docs| - 1];
      NothingFromNothing(init, p);
      CompatibleWithAll(init, last);
      OverlayAtPath(OverlayAll(init), last, p);
    }
  }

  lemma {:induction false} LastExists(docs: seq<Tree>, p: Path, i: int) returns (last: int)
    requires 0 <= i < |docs| && At(docs[i], p).Some?
    ensures IsLastAt(docs, p, last)
    decreases |docs| - i
  {
    if j :| i < j < |docs| && At(docs[j], p).Some? {
      last := LastExists(docs, p, j);
    } else {
      last := i;
    }
  }

  /**
   Effective values: a path is present in the final map iff some document defines it, and what
   is found there is a scalar iff the last document that defines the path has one there, and
   then it is that one.
   */
  lemma EffectiveValue(docs: seq<Tree>, p: Path)
    requires AreDocuments(docs) && PairwiseCompatible(docs) && p != []
    ensures MergeAll(docs).Some?
    ensures At(MergeAll(docs).value, p).Some? <==> exists i :: 0 <= i < |docs| && At(docs[i], p).Some?
    ensures forall i | IsLastAt(docs, p, i) ::
      && (LeafAt(MergeAll(docs).value, p) <==> LeafAt(docs[i], p))
      && (LeafAt(docs[i], p) ==> At(MergeAll(docs).value, p) == At(docs[i], p))
  {
    ValuesExact(docs);
    forall i | IsLastAt(docs, p, i)
      ensures LeafAt(OverlayAll(docs), p) <==> LeafAt(docs[i], p)
      ensures LeafAt(docs[i], p) ==> At(OverlayAll(docs), p) == At(docs[i], p)
    {
      LastWins(docs, p, i);
    }
    if i :| 0 <= i < |docs| && At(docs[i], p).Some? {
      var last := LastExists(docs, p, i);
      LastWins(docs, p, last);
    } else {
      NothingFromNothing(docs, p);
    }
  }

  // ---------------------------------------------------------------- when the fold panics

  /** On the way to `p`, or at `p`, there is a typed nil map. */
  ghost predicate NilOn(t: Tree, p: Path) {
    t.NilMap? || (p != [] && p[0] in t.Entries() && NilOn(t.Entries()[p[0]], p[1..]))
  }

  /** On the way to `p`, or at `p`, a map of `x` meets a scalar of `y`. */
  ghost predicate Clash(x: Tree, y: Tree, p: Path) {
    exists n :: 0 <= n <= |p| && NodeAt(x, p[..n]) && LeafAt(y, p[..n])
  }

  ghost predicate FilledAt(t: Tree, p: Path) {
    NodeAt(t, p) && At(t, p).value.entries != map[]
  }

  lemma ClashStep(x: Tree, y: Tree, p: Path)
    requires x.IsMap() && y.IsMap() && p != []
    ensures Clash(x, y, p) <==>
      p[0] in x.Entries() && p[0] in y.Entries() && Clash(x.Entries()[p[0]], y.Entries()[p[0]], p[1..])
  {
    if Clash(x, y, p) {
      var n :| 0 <= n <= |p| && NodeAt(x, p[..n]) && LeafAt(y, p[..n]);
      assert n > 0 && p[..n][0] == p[0] && p[..n][1..] == p[1..][..n - 1];
      assert NodeAt(x.Entries()[p[0]], p[1..][..n - 1]);
    }
    if p[0] in x.Entries() && p[0] in y.Entries() && Clash(x.Entries()[p[0]], y.Entries()[p[0]], p[1..]) {
      var n :| 0 <= n <= |p[1..]| && NodeAt(x.Entries()[p[0]], p[1..][..n]) && LeafAt(y.Entries()[p[0]], p[1..][..n]);
      assert p[..n + 1][0] == p[0] && p[..n + 1][1..] == p[1..][..n];
      assert NodeAt(x, p[..n + 1]) && LeafAt(y, p[..n + 1]);
    }
  }

  lemma ClashHere(x: Tree, y: Tree, p: Path)
    ensures x.Leaf? || x.NilMap? || y.NilMap? ==> !Clash(x, y, p)
    ensures x.Node? && y.Leaf? ==> Clash(x, y, p)
    ensures x.IsMap() && y.IsMap() && p == [] ==> !Clash(x, y, p)
  {
    assert p[..0] == [];
    if Clash(x, y, p) {
      var n :| 0 <= n <= |p| && NodeAt(x, p[..n]) && LeafAt(y, p[..n]);
    }
    assert At(x, []) == Some(x) && At(y, []) == Some(y);
  }

  /** A merge leaves a typed nil map on a path iff one was there or a map meets a scalar there. */
  lemma {:induction false} MergeNilOn(x: Tree, y: Tree, p: Path)
    requires x.IsMap() && y.IsMap() && IsDocument(y) && !Panics(x, y)
    ensures NilOn(Merge(x, y), p) <==> NilOn(x, p) || Clash(x, y, p)
    decreases p
  {
    ClashHere(x, y, p);
    if p != [] && x.Node? {
      ClashStep(x, y, p);
      var k := p[0];
      if k in y.Entries() {
        NilFreeHasNoNil(y.Entries()[k], p[1..]);
        if k in x.entries {
          ClashHere(x.entries[k], y.Entries()[k], p[1..]);
          if x.entries[k].IsMap() && y.Entries()[k].IsMap() {
            MergeNilOn(x.entries[k], y.Entries()[k], p[1..]);
          }
        }
      }
    }
  }

  lemma {:induction false} NilFreeHasNoNil(t: Tree, p: Path)
    requires NilFree(t)
    ensures !NilOn(t, p)
    decreases p
  {
    if p != [] && p[0] in t.Entries() {
      NilFreeHasNoNil(t.Entries()[p[0]], p[1..]);
    }
  }

  /** Maps are only ever lost below a typed nil map. */
  lemma {:induction false} MergeNodeAt(x: Tree, y: Tree, p: Path)
    requires x.IsMap() && y.IsMap() && IsDocument(y) && !Panics(x, y)
    ensures NodeAt(Merge(x, y), p) || NilOn(Merge(x, y), p) <==>
      NodeAt(x, p) || NodeAt(y, p) || NilOn(x, p) || Clash(x, y, p)
    decreases p
  {
    ClashHere(x, y, p);
    if p == [] {
      assert At(x, p) == Some(x) && At(y, p) == Some(y);
    } else if x.Node? {
      ClashStep(x, y, p);
      var k := p[0];
      if k in y.Entries() {
        NilFreeHasNoNil(y.Entries()[k], p[1..]);
        if k in x.entries {
          ClashHere(x.entries[k], y.Entries()[k], p[1..]);
          assert x.entries[k].Leaf? ==> !NodeAt(x.entries[k], p[1..]);
          if x.entries[k].IsMap() && y.Entries()[k].IsMap() {
            MergeNodeAt(x.entries[k], y.Entries()[k], p[1..]);
          }
        }
      }
    }
  }

  /** A merge panics iff a typed nil map lies on the way to a non-empty map. */
  lemma {:induction false} PanicsAtPath(x: Tree, y: Tree)
    requires x.IsMap() && IsDocument(y)
    ensures Panics(x, y) <==> exists p :: NilOn(x, p) && FilledAt(y, p)
    decreases y
  {
    if x.NilMap? {
      if y.Entries() != map[] {
        assert NilOn(x, []) && At(y, []) == Some(y) && FilledAt(y, []);
      }
    } else {
      forall k | k in x.entries && k in y.Entries() && x.entries[k].IsMap() && y.Entries()[k].IsMap()
        ensures Panics(x.entries[k], y.Entries()[k]) <==>
          exists p :: NilOn(x.entries[k], p) && FilledAt(y.Entries()[k], p)
      {
        PanicsAtPath(x.entries[k], y.Entries()[k]);
      }
      if Panics(x, y) {
        var k :| k in x.entries && k in y.Entries() && x.entries[k].IsMap() && y.Entries()[k].IsMap() &&
          Panics(x.entries[k], y.Entries()[k]);
        var p :| NilOn(x.entries[k], p) && FilledAt(y.Entries()[k], p);
        assert ([k] + p)[1..] == p;
        assert NilOn(x, [k] + p) && FilledAt(y, [k] + p);
      }
      if p: Path :| NilOn(x, p) && FilledAt(y, p) {
        var k := p[0];
        assert NilOn(x.entries[k], p[1..]) && FilledAt(y.Entries()[k], p[1..]);
      }
    }
  }

  /** Two of the documents clash on the way to `p`, the map coming first. */
  ghost predicate ClashAmong(docs: seq<Tree>, p: Path) {
    exists i, j :: 0 <= i < j < |docs| && Clash(docs[i], docs[j], p)
  }

  ghost predicate SomeNodeAt(docs: seq<Tree>, p: Path) {
    exists i :: 0 <= i < |docs| && NodeAt(docs[i], p)
  }

  lemma ClashOnLongerPath(x: Tree, y: Tree, p: Path, n: nat)
    requires n <= |p| && Clash(x, y, p[..n])
    ensures Clash(x, y, p)
  {
    var m :| 0 <= m <= n && NodeAt(x, p[..n][..m]) && LeafAt(y, p[..n][..m]);
    assert p[..n][..m] == p[..m];
  }

  lemma {:induction false} NilOnLongerPath(t: Tree, p: Path, n: nat)
    requires n <= |p| && NilOn(t, p[..n])
    ensures NilOn(t, p)
    decreases n
  {
    if n > 0 && !t.NilMap? {
      assert p[..n][0] == p[0] && p[..n][1..] == p[1..][..n - 1];
      NilOnLongerPath(t.Entries()[p[0]], p[1..], n - 1);
    }
  }

  /** Which paths the running result of the fold has cut off, in terms of the documents alone. */
  lemma {:induction false} FoldShape(docs: seq<Tree>, p: Path)
    requires AreDocuments(docs) && MergeAll(docs).Some?
    ensures NilOn(MergeAll(docs).value, p) <==> ClashAmong(docs, p)
    ensures NodeAt(MergeAll(docs).value, p) || NilOn(MergeAll(docs).value, p) <==>
      p == [] || SomeNodeAt(docs, p) || ClashAmong(docs, p)
    decreases |docs|
  {
    if docs == [] {
      assert At(Node(map[]), p).Some? <==> p == [];
    } else {
      var init, last := docs[..|docs| - 1], docs[|docs| - 1];
      var acc := MergeAll(init).value;
      forall n | 0 <= n <= |p|
        ensures NilOn(acc, p[..n]) <==> ClashAmong(init, p[..n])
        ensures NodeAt(acc, p[..n]) || NilOn(acc, p[..n]) <==>
          p[..n] == [] || SomeNodeAt(init, p[..n]) || ClashAmong(init, p[..n])
      {
        FoldShape(init, p[..n]);
      }
      assert p[..|p|] == p;
      MergeNilOn(acc, last, p);
      MergeNodeAt(acc, last, p);
      ClashWithFold(init, last, acc, p);
      ClashAmongAppend(init, last, p);
      assert SomeNodeAt(docs, p) <==> SomeNodeAt(init, p) || NodeAt(last, p) by {
        assert docs == init + [last];
      }
    }
  }

  lemma ClashAmongAppend(init: seq<Tree>, last: Tree, p: Path)
    ensures ClashAmong(init + [last], p) <==>
      ClashAmong(init, p) || exists i :: 0 <= i < |init| && Clash(init[i], last, p)
  {
    var docs := init + [last];
    if ClashAmong(docs, p) {
      var i, j :| 0 <= i < j < |docs| && Clash(docs[i], docs[j], p);
      if j < |init| {
        assert Clash(init[i], init[j], p);
      } else {
        assert Clash(init[i], last, p);
      }
    }
    if i, j :| 0 <= i < j < |init| && Clash(init[i], init[j], p) {
      assert Clash(docs[i], docs[j], p);
    }
    if i :| 0 <= i < |init| && Clash(init[i], last, p) {
      assert Clash(docs[i], docs[|init|], p);
    }
  }

  /** The running result clashes with the next document iff an earlier document does, up to old clashes. */
  lemma ClashWithFold(init: seq<Tree>, last: Tree, acc: Tree, p: Path)
    requires IsDocument(last)
    requires forall n | 0 <= n <= |p| :: NilOn(acc, p[..n]) <==> ClashAmong(init, p[..n])
    requires forall n | 0 <= n <= |p| ::
      (NodeAt(acc, p[..n]) || NilOn(acc, p[..n]) <==>
       p[..n] == [] || SomeNodeAt(init, p[..n]) || ClashAmong(init, p[..n]))
    ensures Clash(acc, last, p) || ClashAmong(init, p) <==>
      (exists i :: 0 <= i < |init| && Clash(init[i], last, p)) || ClashAmong(init, p)
  {
    assert p[..|p|] == p;
    if Clash(acc, last, p) {
      var n :| 0 <= n <= |p| && NodeAt(acc, p[..n]) && LeafAt(last, p[..n]);
      assert p[..n] != [] by { assert At(last, []) == Some(last); }
      if ClashAmong(init, p[..n]) {
        var i, j :| 0 <= i < j < |init| && Clash(init[i], init[j], p[..n]);
        ClashOnLongerPath(init[i], init[j], p, n);
      } else {
        var i :| 0 <= i < |init| && NodeAt(init[i], p[..n]);
        assert Clash(init[i], last, p);
      }
    }
    if i :| 0 <= i < |init| && Clash(init[i], last, p) {
      var n :| 0 <= n <= |p| && NodeAt(init[i], p[..n]) && LeafAt(last, p[..n]);
      assert SomeNodeAt(init, p[..n]);
      if NilOn(acc, p[..n]) {
        NilOnLongerPath(acc, p, n);
      } else {
        assert Clash(acc, last, p);
      }
    }
  }

  /** Documents i < j < l have a map, a scalar and a non-empty map at one path. */
  ghost predicate Trapped(docs: seq<Tree>, p: Path, i: int, j: int, l: int) {
    0 <= i < j < l < |docs| && NodeAt(docs[i], p) && LeafAt(docs[j], p) && FilledAt(docs[l], p)
  }

  /**
   Writing the values panics exactly when some path is a map in one document, a scalar in a
   later one and a non-empty map in one later still.
   */
  lemma {:induction false} PanicExact(docs: seq<Tree>)
    requires AreDocuments(docs)
    ensures MergeAll(docs).None? <==> exists p, i, j, l :: Trapped(docs, p, i, j, l)
  {
    if docs != [] {
      var init, last := docs[..|docs| - 1], docs[|docs| - 1];
      PanicExact(init);
      if MergeAll(init).None? {
        var p, i, j, l :| Trapped(init, p, i, j, l);
        assert Trapped(docs, p, i, j, l);
      } else {
        LastDocumentPanics(docs);
        if p, i, j, l :| Trapped(docs, p, i, j, l) && l < |init| {
          assert Trapped(init, p, i, j, l);
        }
      }
    }
  }

  /** Merging one more document panics iff it closes a trap set by the others. */
  lemma LastDocumentPanics(docs: seq<Tree>)
    requires AreDocuments(docs) && docs != [] && MergeAll(docs[..|docs| - 1]).Some?
    ensures Panics(MergeAll(docs[..|docs| - 1]).value, docs[|docs| - 1]) <==>
      exists p, i, j, l :: l == |docs| - 1 && Trapped(docs, p, i, j, l)
  {
    var init, last := docs[..|docs| - 1], docs[|docs| - 1];
    PanicsAtPath(MergeAll(init).value, last);
    if p :| NilOn(MergeAll(init).value, p) && FilledAt(last, p) {
      PanicSprings(docs, p);
    }
    if p, i, j, l :| l == |docs| - 1 && Trapped(docs, p, i, j, l) {
      FoldShape(init, p);
      assert p[..|p|] == p;
      assert Clash(init[i], init[j], p);
    }
  }

  lemma PanicSprings(docs: seq<Tree>, p: Path)
    requires AreDocuments(docs) && docs != [] && MergeAll(docs[..|docs| - 1]).Some?
    requires NilOn(MergeAll(docs[..|docs| - 1]).value, p) && FilledAt(docs[|docs| - 1], p)
    ensures exists q, i, j, l :: l == |docs| - 1 && Trapped(docs, q, i, j, l)
  {
    var init := docs[..|docs| - 1];
    FoldShape(init, p);
    var i, j :| 0 <= i < j < |init| && Clash(init[i], init[j], p);
    var n :| 0 <= n <= |p| && NodeAt(init[i], p[..n]) && LeafAt(init[j], p[..n]);
    FilledOnShorterPath(docs[|docs| - 1], p, n);
    assert Trapped(docs, p[..n], i, j, |init|);
  }

  lemma {:induction false} FilledOnShorterPath(t: Tree, p: Path, n: nat)
    requires n <= |p| && FilledAt(t, p)
    ensures FilledAt(t, p[..n])
    decreases n
  {
    if n == |p| {
      assert p[..n] == p;
    } else if n == 0 {
      assert p[0] in t.Entries();
      assert At(t, p[..0]) == Some(t);
    } else {
      assert p[..n][0] == p[0] && p[..n][1..] == p[1..][..n - 1];
      FilledOnShorterPath(t.Entries()[p[0]], p[1..], n - 1);
    }
  }
}
