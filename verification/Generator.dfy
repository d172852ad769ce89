/**
 The values handed to the templates: the documents of all value sources merged in order
 (internal/generator/generator.go lines 60-74).
 */
module Generator {
  import opened Options
  import opened Values
  import opened ValueMaps

  /** A decoded source: what the decoder allocated, or a decoding error. */
  datatype Decoded = Parsed(root: GoMap?) | Malformed

  datatype Outcome = Done(values: GoMap) | DecodeError | Panicked

  /** The shapes are maps in separate parts of the heap. */
  ghost predicate Separate(shapes: seq<Shape>) {
    && (forall i | 0 <= i < |shapes| :: !shapes[i].LeafShape? && Linear(shapes[i]))
    && (forall i, j | 0 <= i < j < |shapes| :: Area(shapes[i]) !! Area(shapes[j]))
  }

  /** The documents from the `n`th on are as they were decoded. */
  ghost predicate Pending(docs: seq<Decoded>, shapes: seq<Shape>, n: nat)
    requires |docs| == |shapes|
    reads AreaUpTo(shapes, |shapes|)
  {
    forall i | n <= i < |docs| && docs[i].Parsed? :: Fits(Object(docs[i].root), shapes[i])
  }

  ghost predicate AllParsed(docs: seq<Decoded>) {
    forall i | 0 <= i < |docs| :: docs[i].Parsed?
  }

  ghost function Contents(shapes: seq<Shape>): (r: seq<Tree>)
    ensures |r| == |shapes|
    ensures forall i | 0 <= i < |shapes| :: r[i] == Content(shapes[i])
  {
    seq(|shapes|, i requires 0 <= i < |shapes| => Content(shapes[i]))
  }

  /** Everything below the first `n` documents. */
  ghost function AreaUpTo(shapes: seq<Shape>, n: nat): set<object>
    requires n <= |shapes|
  {
    set i, o | 0 <= i < n && o in Area(shapes[i]) :: o
  }

  lemma MergeAllStep(shapes: seq<Shape>, n: nat)
    requires n < |shapes| && forall i | 0 <= i < |shapes| :: !shapes[i].LeafShape?
    ensures MergeAll(Contents(shapes[..n + 1])) ==
      match MergeAll(Contents(shapes[..n]))
      case None => None
      case Some(acc) => if Panics(acc, Content(shapes[n])) then None else Some(Merge(acc, Content(shapes[n])))
  {
    var docs := Contents(shapes[..n + 1]);
    assert docs[..n] == Contents(shapes[..n]);
  }

  /**
   Merges the documents of `from`, then the inline one. The result is the fold of the
   documents' contents; a decoding error or a panic stops at the first document concerned.
   */
  method BuildValues(from: seq<Decoded>, inline: Option<Decoded>, ghost shapes: seq<Shape>)
    returns (r: Outcome, ghost shape: Shape)
    requires |shapes| == |from| + (if inline.Some? then 1 else 0) && Separate(shapes)
    requires Pending(if inline.Some? then from + [inline.value] else from, shapes, 0)
    modifies AreaUpTo(shapes, |shapes|)
    ensures var docs := if inline.Some? then from + [inline.value] else from;
      match r
      case Done(v) => AllParsed(docs) && Fits(Object(v), shape) && MergeAll(Contents(shapes)) == Some(Content(shape))
      case DecodeError =>
        exists n ::
          0 <= n < |docs| && docs[n].Malformed? && AllParsed(docs[..n]) && MergeAll(Contents(shapes[..n])).Some?
      case Panicked => exists n :: 0 < n <= |docs| && AllParsed(docs[..n]) && MergeAll(Contents(shapes[..n])).None?
  {
    var values := new GoMap();
    shape := NodeShape(values, {values}, map[]);
    ghost var docs := if inline.Some? then from + [inline.value] else from;
    var i := 0;
    assert Contents(shapes[..0]) == [];
    while i < |from|
      invariant 0 <= i <= |from|
      invariant fresh(values) && MergedSoFar(docs, shapes, i, values, shape)
    {
      if from[i].Malformed? { return DecodeError, shape; }
      var ok;
      ok, shape := Absorb(docs, shapes, i, values, shape, from[i].root);
      if !ok { return Panicked, shape; }
      i := i + 1;
    }
    if inline.Some? {
      if inline.value.Malformed? { return DecodeError, shape; }
      var ok;
      ok, shape := Absorb(docs, shapes, i, values, shape, inline.value.root);
      if !ok { return Panicked, shape; }
    }
    assert shapes[..|docs|] == shapes && docs[..|docs|] == docs;
    return Done(values), shape;
  }

  /** The first `n` documents have been merged into `values`; the others are untouched. */
  ghost predicate MergedSoFar(docs: seq<Decoded>, shapes: seq<Shape>, n: nat, values: GoMap, shape: Shape)
    requires n <= |docs| == |shapes|
    reads Area(shape), AreaUpTo(shapes, |shapes|)
  {
    && Separate(shapes) && Pending(docs, shapes, n)
    && AllParsed(docs[..n])
    && shape.NodeShape? && Linear(shape) && Fits(Object(values), shape)
    && MergeAll(Contents(shapes[..n])) == Some(Content(shape))
    && shape.area <= {values} + AreaUpTo(shapes, n)
  }

  /** What has been merged so far is apart from what is still to come. */
  lemma StillApart(shapes: seq<Shape>, n: nat, values: GoMap, area: set<object>)
    requires n < |shapes| && Separate(shapes) && area <= {values} + AreaUpTo(shapes, n)
    requires values !in AreaUpTo(shapes, |shapes|)
    ensures forall i | n <= i < |shapes| :: Area(shapes[i]) !! area
    ensures area + Area(shapes[n]) <= {values} + AreaUpTo(shapes, n + 1)
  {
    forall i | n <= i < |shapes|
      ensures Area(shapes[i]) !! area
    {
      assert Area(shapes[i]) <= AreaUpTo(shapes, |shapes|);
      assert Area(shapes[i]) !! AreaUpTo(shapes, n);
    }
  }

  method Absorb(ghost docs: seq<Decoded>, ghost shapes: seq<Shape>, ghost n: nat,
                values: GoMap, ghost shape: Shape, v: GoMap?)
    returns (ok: bool, ghost next: Shape)
    requires n < |docs| == |shapes| && docs[n] == Parsed(v) && MergedSoFar(docs, shapes, n, values, shape)
    requires values !in AreaUpTo(shapes, |shapes|)
    modifies shape.area
    ensures !ok ==> AllParsed(docs[..n + 1]) && MergeAll(Contents(shapes[..n + 1])).None?
    ensures ok ==> MergedSoFar(docs, shapes, n + 1, values, next)
  {
    StillApart(shapes, n, values, shape.area);
    ok := DeepMerge(values, v, shape, shapes[n]);
    next := MergeShape(shape, shapes[n]);
    MergeShapeContent(shape, shapes[n]);
    MergeShapeLinear(shape, shapes[n]);
    MergeAllStep(shapes, n);
    forall i | n < i < |docs| && docs[i].Parsed?
      ensures Fits(Object(docs[i].root), shapes[i])
    {
      assert Area(shapes[i]) !! shape.area;
      assert old(Fits(Object(docs[i].root), shapes[i]));
    }
  }
}
