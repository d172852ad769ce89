/**
 Value documents and the two ways of laying one over another: what the merge of
 internal/generator/util.go does as written, and the overlay it is meant to be.
 */
module Values {

  import opened Options

  /**
   A decoded value. Leaf is anything that is not an object (its JSON text, null included);
   NilMap is a typed nil map, which decoding never produces inside a document but which the
   merge can store, and which is what a document consisting of `null` decodes to.
   */
  datatype Tree = Leaf(json: string) | NilMap | Node(entries: map<string, Tree>) {
    predicate IsMap() { !Leaf? }

    function Entries(): map<string, Tree> {
      if Node? then entries else map[]
    }
  }

  type Path = seq<string>

  /** Decoded documents hold no typed nil map. */
  ghost predicate NilFree(t: Tree) {
    match t
    case Leaf(_) => true
    case NilMap => false
    case Node(m) => forall k | k in m :: NilFree(m[k])
  }

  /** What decoding a document into a map variable can yield. */
  ghost predicate IsDocument(t: Tree) {
    t.NilMap? || (t.Node? && NilFree(t))
  }

  // ---------------------------------------------------------------- the merge as written

  /** The content of `x` after merging `y` into it, when no write to a nil map happens. */
  function Merge(x: Tree, y: Tree): (r: Tree)
    requires x.IsMap() && y.IsMap()
    decreases y
  {
    if x.NilMap? then x
    else
      Node(map k | k in x.entries.Keys + y.Entries().Keys ::
        if k !in y.Entries() then x.entries[k]
        else if k !in x.entries || x.entries[k].Leaf? then y.Entries()[k]
        else if y.Entries()[k].Leaf? then NilMap
        else Merge(x.entries[k], y.Entries()[k]))
  }

  /** Whether merging `y` into `x` writes to a nil map. */
  ghost predicate Panics(x: Tree, y: Tree)
    requires x.IsMap() && y.IsMap()
    decreases y
  {
    if x.NilMap? then y.Entries() != map[]
    else
      exists k | k in x.entries && k in y.Entries() && x.entries[k].IsMap() && y.Entries()[k].IsMap() ::
        Panics(x.entries[k], y.Entries()[k])
  }

  /** The fold done by the generator: start from an empty map and merge one document after the other. */
  ghost function MergeAll(docs: seq<Tree>): Option<Tree>
    requires forall i | 0 <= i < |docs| :: docs[i].IsMap()
    ensures MergeAll(docs).Some? ==> MergeAll(docs).value.IsMap()
  {
    if docs == [] then Some(Node(map[]))
    else
      var last := docs[|docs| - 1];
      match MergeAll(docs[..|docs| - 1])
      case None => None
      case Some(acc) => if Panics(acc, last) then None else Some(Merge(acc, last))
  }

  // ---------------------------------------------------------------- the intended overlay

  /** Later values take precedence; two maps at the same place are overlaid key by key. */
  function Overlay(x: Tree, y: Tree): (r: Tree)
    requires x.IsMap() && y.IsMap()
    ensures r.Node?
    decreases y
  {
    Node(map k | k in x.Entries().Keys + y.Entries().Keys ::
      if k !in y.Entries() then x.Entries()[k]
      else if k in x.Entries() && x.Entries()[k].IsMap() && y.Entries()[k].IsMap() then
        Overlay(x.Entries()[k], y.Entries()[k])
      else y.Entries()[k])
  }

  ghost function OverlayAll(docs: seq<Tree>): (r: Tree)
    requires forall i | 0 <= i < |docs| :: docs[i].IsMap()
    ensures r.Node?
  {
    if docs == [] then Node(map[])
    else Overlay(OverlayAll(docs[..|docs| - 1]), docs[|docs| - 1])
  }

  /** No map in `x` meets something that is not a map in `y`. */
  ghost predicate Compatible(x: Tree, y: Tree)
    requires x.IsMap() && y.IsMap()
    decreases y
  {
    forall k | k in x.Entries() && k in y.Entries() && x.Entries()[k].IsMap() ::
      y.Entries()[k].IsMap() && Compatible(x.Entries()[k], y.Entries()[k])
  }

  /** The same for a list of documents: no document's map meets a later document's scalar. */
  ghost predicate PairwiseCompatible(docs: seq<Tree>)
    requires forall i | 0 <= i < |docs| :: docs[i].IsMap()
  {
    forall i, j | 0 <= i < j < |docs| :: Compatible(docs[i], docs[j])
  }

  // ---------------------------------------------------------------- merge against overlay

  /** Without a typed nil map on the left nothing panics. */
  lemma {:induction false} NilFreeNeverPanics(x: Tree, y: Tree)
    requires x.IsMap() && y.IsMap() && NilFree(x)
    ensures !Panics(x, y)
    decreases y
  {
    forall k | k in x.entries && k in y.Entries() && x.entries[k].IsMap() && y.Entries()[k].IsMap()
      ensures !Panics(x.entries[k], y.Entries()[k])
    {
      NilFreeNeverPanics(x.entries[k], y.Entries()[k]);
    }
  }

  lemma {:induction false} OverlayIsNilFree(x: Tree, y: Tree)
    requires x.IsMap() && y.IsMap()
    requires NilFree(x) && IsDocument(y)
    ensures NilFree(Overlay(x, y))
    decreases y
  {
    var r := Overlay(x, y);
    forall k | k in r.entries
      ensures NilFree(r.entries[k])
    {
      if k in x.Entries() && k in y.Entries() && x.Entries()[k].IsMap() && y.Entries()[k].IsMap() {
        OverlayIsNilFree(x.Entries()[k], y.Entries()[k]);
      }
    }
  }

  /** One merge step does what was intended exactly when no map is overlaid by a non-map. */
  lemma {:induction false} MergeIsOverlayExactly(x: Tree, y: Tree)
    requires NilFree(x) && x.Node? && IsDocument(y)
    ensures !Panics(x, y)
    ensures Merge(x, y) == Overlay(x, y) <==> Compatible(x, y)
    ensures NilFree(Merge(x, y)) <==> Compatible(x, y)
    decreases y
  {
    NilFreeNeverPanics(x, y);
    OverlayIsNilFree(x, y);
    var m, o := Merge(x, y), Overlay(x, y);
    forall k | k in x.entries && k in y.Entries() && x.entries[k].IsMap() && y.Entries()[k].IsMap()
      ensures m.entries[k] == o.entries[k] <==> Compatible(x.entries[k], y.Entries()[k])
      ensures NilFree(m.entries[k]) <==> Compatible(x.entries[k], y.Entries()[k])
    {
      MergeIsOverlayExactly(x.entries[k], y.Entries()[k]);
    }
    if Compatible(x, y) {
      assert m.entries == o.entries;
    } else {
      var k :| k in x.entries && k in y.Entries() && x.entries[k].IsMap() &&
        !(y.Entries()[k].IsMap() && Compatible(x.entries[k], y.Entries()[k]));
      assert k in m.entries && NilFree(o.entries[k]);
      assert m.entries[k] != o.entries[k];
    }
  }

  // ---------------------------------------------------------------- algebra of the overlay

  /** The empty map is a two-sided identity, and laying a document over itself changes nothing. */
  lemma {:induction false} OverlayUnits(x: Tree)
    requires x.Node? && NilFree(x)
    ensures Overlay(x, Node(map[])) == x
    ensures Overlay(Node(map[]), x) == x
    ensures Overlay(x, x) == x
    ensures Compatible(x, x)
    decreases x
  {
    forall k | k in x.entries && x.entries[k].IsMap()
      ensures Overlay(x.entries[k], x.entries[k]) == x.entries[k]
      ensures Compatible(x.entries[k], x.entries[k])
    {
      OverlayUnits(x.entries[k]);
    }
    assert Overlay(x, Node(map[])).entries == x.entries;
    assert Overlay(Node(map[]), x).entries == x.entries;
    assert Overlay(x, x).entries == x.entries;
  }

  /** At some path `y` has a scalar between two maps, and `x` has something there that `z` does not define. */
  ghost predicate GroupingShows(x: Tree, y: Tree, z: Tree)
    requires x.IsMap() && y.IsMap() && z.IsMap()
    decreases y
  {
    exists k | k in x.Entries() && k in y.Entries() && k in z.Entries() &&
      x.Entries()[k].IsMap() && z.Entries()[k].IsMap() ::
      if y.Entries()[k].IsMap() then GroupingShows(x.Entries()[k], y.Entries()[k], z.Entries()[k])
      else Overlay(x.Entries()[k], z.Entries()[k]) != z.Entries()[k]
  }

  /** The overlay is associative on three maps exactly when no such path exists. */
  lemma {:induction false} OverlayAssociativeExactly(x: Tree, y: Tree, z: Tree)
    requires x.IsMap() && y.IsMap() && z.IsMap()
    ensures Overlay(Overlay(x, y), z) == Overlay(x, Overlay(y, z)) <==> !GroupingShows(x, y, z)
    decreases y
  {
    var l, r := Overlay(Overlay(x, y), z), Overlay(x, Overlay(y, z));
    assert l.entries.Keys == r.entries.Keys;
    forall k | k in x.Entries() && k in y.Entries() && k in z.Entries() &&
      x.Entries()[k].IsMap() && z.Entries()[k].IsMap()
      ensures l.entries[k] == r.entries[k] <==>
        if y.Entries()[k].IsMap() then !GroupingShows(x.Entries()[k], y.Entries()[k], z.Entries()[k])
        else Overlay(x.Entries()[k], z.Entries()[k]) == z.Entries()[k]
    {
      if y.Entries()[k].IsMap() {
        OverlayAssociativeExactly(x.Entries()[k], y.Entries()[k], z.Entries()[k]);
      }
    }
    forall k | k in l.entries &&
      !(k in x.Entries() && k in y.Entries() && k in z.Entries() && x.Entries()[k].IsMap() && z.Entries()[k].IsMap())
      ensures l.entries[k] == r.entries[k]
    {
    }
  }

  /** In particular grouping does not matter once no map of `x` meets a scalar of `y`. */
  lemma {:induction false} OverlayAssociative(x: Tree, y: Tree, z: Tree)
    requires x.IsMap() && y.IsMap() && z.IsMap() && Compatible(x, y)
    ensures !GroupingShows(x, y, z)
    ensures Overlay(Overlay(x, y), z) == Overlay(x, Overlay(y, z))
    decreases y
  {
    forall k | k in x.Entries() && k in y.Entries() && k in z.Entries() &&
      x.Entries()[k].IsMap() && z.Entries()[k].IsMap()
      ensures !GroupingShows(x.Entries()[k], y.Entries()[k], z.Entries()[k])
    {
      OverlayAssociative(x.Entries()[k], y.Entries()[k], z.Entries()[k]);
    }
    OverlayAssociativeExactly(x, y, z);
  }

  /** Compatibility with an overlay is compatibility with both of its layers. */
  lemma {:induction false} CompatibleWithOverlay(x: Tree, y: Tree, z: Tree)
    requires x.IsMap() && y.IsMap() && z.IsMap() && Compatible(x, y)
    ensures Compatible(Overlay(x, y), z) <==> Compatible(x, z) && Compatible(y, z)
    decreases z
  {
    var o := Overlay(x, y);
    forall k | k in x.Entries() && k in y.Entries() && k in z.Entries() &&
      x.Entries()[k].IsMap() && y.Entries()[k].IsMap() && z.Entries()[k].IsMap()
      ensures Compatible(Overlay(x.Entries()[k], y.Entries()[k]), z.Entries()[k]) <==>
        Compatible(x.Entries()[k], z.Entries()[k]) && Compatible(y.Entries()[k], z.Entries()[k])
    {
      CompatibleWithOverlay(x.Entries()[k], y.Entries()[k], z.Entries()[k]);
    }
    forall k | k in o.entries && k in z.Entries() && o.entries[k].IsMap()
      ensures (z.Entries()[k].IsMap() && Compatible(o.entries[k], z.Entries()[k])) <==>
        (k in x.Entries() && x.Entries()[k].IsMap() ==>
           z.Entries()[k].IsMap() && Compatible(x.Entries()[k], z.Entries()[k])) &&
        (k in y.Entries() && y.Entries()[k].IsMap() ==>
           z.Entries()[k].IsMap() && Compatible(y.Entries()[k], z.Entries()[k]))
    {
    }
    assert forall k | k in x.Entries() && x.Entries()[k].IsMap() :: k in o.entries && o.entries[k].IsMap();
    assert forall k | k in y.Entries() && y.Entries()[k].IsMap() :: k in o.entries && o.entries[k].IsMap();
  }
}
