/**
 The in-place merge of internal/generator/util.go on heap objects: maps are mutable objects,
 nested maps are shared by reference, and a nil map can be read but not written.
 */
module ValueMaps {
  import opened Values

  /** A slot of a map: a scalar, or a reference to a map (null being the typed nil map). */
  datatype Slot = Scalar(json: string) | Object(target: GoMap?)

  class GoMap {
    var slots: map<string, Slot>

    constructor ()
      ensures slots == map[]
    {
      slots := map[];
    }
  }

  /** A tree of values together with the map object found at each place; the area covers the objects at and below it. */
  datatype Shape =
    | LeafShape(json: string)
    | NilShape
    | NodeShape(at: GoMap, area: set<object>, children: map<string, Shape>)

  ghost function Area(sh: Shape): set<object> {
    if sh.NodeShape? then sh.area else {}
  }

  /** No map object occurs at two places, and areas cover what is below them. */
  ghost predicate Linear(sh: Shape) {
    sh.NodeShape? ==>
      && sh.at in sh.area
      && (forall k | k in sh.children ::
            Linear(sh.children[k]) && Area(sh.children[k]) <= sh.area && sh.at !in Area(sh.children[k]))
      && (forall k, l | k in sh.children && l in sh.children && k != l :: Area(sh.children[k]) !! Area(sh.children[l]))
  }

  /** What the shape says, without the objects. */
  ghost function Content(sh: Shape): (t: Tree)
    ensures t.Leaf? == sh.LeafShape? && t.Node? == sh.NodeShape?
  {
    match sh
    case LeafShape(j) => Leaf(j)
    case NilShape => NilMap
    case NodeShape(_, _, ch) => Node(map k | k in ch :: Content(ch[k]))
  }

  /** The heap, seen from slot `s`, has this shape. */
  ghost predicate Fits(s: Slot, sh: Shape)
    reads Area(sh)
    decreases sh
  {
    match sh
    case LeafShape(j) => s == Scalar(j)
    case NilShape => s == Object(null)
    case NodeShape(o, area, ch) =>
      && s == Object(o) && o in area && o.slots.Keys == ch.Keys
      && forall k | k in ch :: Area(ch[k]) <= area && Fits(o.slots[k], ch[k])
  }

  /** What a merge leaves where `x` was (if anything) when `y` comes on top. */
  ghost function MergedChild(x: Shape, y: Shape, k: string): Shape
    requires x.NodeShape? && y.NodeShape? && k in y.children
    decreases y, 0
  {
    if k !in x.children || x.children[k].LeafShape? then y.children[k]
    else if y.children[k].LeafShape? then NilShape
    else MergeShape(x.children[k], y.children[k])
  }

  /** The maps of `x` stay where they are; what only `y` has is shared with `y`. */
  ghost function MergeShape(x: Shape, y: Shape): (r: Shape)
    requires !x.LeafShape? && !y.LeafShape?
    decreases y, 1
  {
    if x.NilShape? || y.NilShape? then x
    else NodeShape(x.at, x.area + y.area, map k | k in x.children.Keys + y.children.Keys ::
      if k in y.children then MergedChild(x, y, k) else x.children[k])
  }

  /** `x` with the keys of `y` outside `todo` merged. */
  ghost function Partial(x: Shape, y: Shape, todo: set<string>): Shape
    requires x.NodeShape? && y.NodeShape?
  {
    NodeShape(x.at, x.area + y.area, map k | k in x.children.Keys + (y.children.Keys - todo) ::
      if k in y.children && k !in todo then MergedChild(x, y, k) else x.children[k])
  }

  ghost predicate ChildPanics(x: Shape, y: Shape, k: string)
    requires x.NodeShape? && y.NodeShape? && k in y.children
  {
    && k in x.children && !x.children[k].LeafShape? && !y.children[k].LeafShape?
    && Panics(Content(x.children[k]), Content(y.children[k]))
  }

  ghost function AreaAt(sh: Shape, k: string): set<object>
    requires sh.NodeShape?
  {
    if k in sh.children then Area(sh.children[k]) else {}
  }

  // ---------------------------------------------------------------- facts about shapes

  /** Forgetting the objects turns the merge of shapes into the merge of contents. */
  lemma {:induction false} MergeShapeContent(x: Shape, y: Shape)
    requires !x.LeafShape? && !y.LeafShape?
    ensures Content(MergeShape(x, y)) == Merge(Content(x), Content(y))
    ensures x.NodeShape? && y.NodeShape? ==>
      (Panics(Content(x), Content(y)) <==> exists k | k in y.children :: ChildPanics(x, y, k))
    decreases y
  {
    if x.NodeShape? && y.NodeShape? {
      var r, m := MergeShape(x, y), Merge(Content(x), Content(y));
      forall k | k in r.children
        ensures Content(r.children[k]) == m.entries[k]
      {
        assert k in x.children ==> Content(x).entries[k] == Content(x.children[k]);
        assert k in y.children ==> Content(y).entries[k] == Content(y.children[k]);
        if k in y.children {
          if k in x.children && !x.children[k].LeafShape? && !y.children[k].LeafShape? {
            MergeShapeContent(x.children[k], y.children[k]);
          }
          assert r.children[k] == MergedChild(x, y, k);
        }
      }
      assert Content(r).entries == m.entries;
      if k :| k in y.children && ChildPanics(x, y, k) {
        assert Panics(Content(x).entries[k], Content(y).Entries()[k]);
      }
    } else if x.NodeShape? {
      assert Merge(Content(x), Content(y)).entries == Content(x).entries;
    }
  }

  /** A merge keeps the heap a tree, and the result uses the objects of its operands only. */
  lemma MergeShapeLinear(x: Shape, y: Shape)
    requires !x.LeafShape? && !y.LeafShape?
    requires Linear(x) && Linear(y) && Area(x) !! Area(y)
    ensures Linear(MergeShape(x, y))
    ensures Area(MergeShape(x, y)) <= Area(x) + Area(y)
    decreases y
  {
    if x.NodeShape? && y.NodeShape? {
      PartialLinear(x, y, {});
      assert Partial(x, y, {}).children == MergeShape(x, y).children;
    }
  }

  lemma MergedChildObjects(x: Shape, y: Shape, k: string)
    requires x.NodeShape? && y.NodeShape? && k in y.children
    requires Linear(x) && Linear(y) && Area(x) !! Area(y)
    ensures Linear(MergedChild(x, y, k))
    ensures Area(MergedChild(x, y, k)) <= AreaAt(x, k) + AreaAt(y, k)
    decreases y, 0
  {
    if k in x.children && !x.children[k].LeafShape? && !y.children[k].LeafShape? {
      assert Area(x.children[k]) <= Area(x) && Area(y.children[k]) <= Area(y);
      MergeShapeLinear(x.children[k], y.children[k]);
    }
  }

  lemma PartialLinear(x: Shape, y: Shape, todo: set<string>)
    requires x.NodeShape? && y.NodeShape?
    requires Linear(x) && Linear(y) && Area(x) !! Area(y)
    ensures Linear(Partial(x, y, todo))
    ensures Area(Partial(x, y, todo)) <= Area(x) + Area(y)
    decreases y, 1
  {
    var p := Partial(x, y, todo);
    forall k | k in p.children
      ensures Linear(p.children[k]) && Area(p.children[k]) <= AreaAt(x, k) + AreaAt(y, k)
    {
      if k in y.children && k !in todo { MergedChildObjects(x, y, k); }
    }
    forall k, l | k in p.children && l in p.children && k != l
      ensures Area(p.children[k]) !! Area(p.children[l])
    {
      assert AreaAt(x, k) !! AreaAt(x, l) && AreaAt(y, k) !! AreaAt(y, l);
    }
  }

  /** A key is merged the same way whatever has been merged at other keys. */
  lemma SameChild(x: Shape, cur: Shape, y: Shape, k: string)
    requires x.NodeShape? && cur.NodeShape? && y.NodeShape? && k in y.children
    requires k in cur.children <==> k in x.children
    requires k in x.children ==> cur.children[k] == x.children[k]
    ensures MergedChild(cur, y, k) == MergedChild(x, y, k)
    ensures ChildPanics(cur, y, k) <==> ChildPanics(x, y, k)
  {
  }

  /** What one round of the loop starts from, and how it moves on. */
  lemma PartialStep(x: Shape, y: Shape, todo: set<string>, k: string)
    requires x.NodeShape? && y.NodeShape? && k in todo && todo <= y.children.Keys
    requires Linear(x) && Linear(y) && Area(x) !! Area(y)
    ensures var cur := Partial(x, y, todo);
      && Linear(cur)
      && AreaAt(cur, k) !! y.area
      && (ChildPanics(cur, y, k) <==> ChildPanics(x, y, k))
      && MergedChild(cur, y, k) == MergedChild(x, y, k)
  {
    PartialLinear(x, y, todo);
    var cur := Partial(x, y, todo);
    assert k in x.children ==> Area(x.children[k]) <= x.area;
    SameChild(x, cur, y, k);
  }

  lemma PartialNext(x: Shape, y: Shape, todo: set<string>, k: string)
    requires x.NodeShape? && y.NodeShape? && k in todo && todo <= y.children.Keys
    ensures var cur := Partial(x, y, todo);
      cur.(children := cur.children[k := MergedChild(x, y, k)]) == Partial(x, y, todo - {k})
  {
    var cur, next := Partial(x, y, todo), Partial(x, y, todo - {k});
    assert cur.children[k := MergedChild(x, y, k)] == next.children;
  }

  lemma PartialDone(x: Shape, y: Shape)
    requires x.NodeShape? && y.NodeShape?
    ensures Partial(x, y, {}) == MergeShape(x, y)
  {
    assert Partial(x, y, {}).children == MergeShape(x, y).children;
  }

  // ---------------------------------------------------------------- the code

  /**
   Merges `y` into `x`, visiting the keys of `y` in any order. `ok` is false when a nil map is
   written, which the runtime turns into a panic. Only maps owned by `x` are written.
   */
  method DeepMerge(x: GoMap?, y: GoMap?, ghost sx: Shape, ghost sy: Shape) returns (ok: bool)
    requires Fits(Object(x), sx) && Fits(Object(y), sy)
    requires Linear(sx) && Linear(sy) && Area(sx) !! Area(sy)
    modifies Area(sx)
    ensures ok <==> !Panics(Content(sx), Content(sy))
    ensures ok ==> Fits(Object(x), MergeShape(sx, sy))
    decreases sy, 2
  {
    MergeShapeContent(sx, sy);
    if y == null { return true; }
    if x == null {
      // reading a nil map finds nothing, so the first key of `y` is written to it
      assert forall k | k in sy.children :: k in Content(sy).entries;
      return y.slots.Keys == {};
    }
    ok := MergeKeys(x, y, sx, sy);
  }

  /** The loop over the keys of `y`, when neither map is nil. */
  method MergeKeys(x: GoMap, y: GoMap, ghost sx: Shape, ghost sy: Shape) returns (ok: bool)
    requires sx.NodeShape? && sy.NodeShape?
    requires Fits(Object(x), sx) && Fits(Object(y), sy)
    requires Linear(sx) && Linear(sy) && Area(sx) !! Area(sy)
    modifies Area(sx)
    ensures ok <==> forall k | k in sy.children :: !ChildPanics(sx, sy, k)
    ensures ok ==> Fits(Object(x), MergeShape(sx, sy))
    decreases sy, 1
  {
    ok := true;
    var todo := y.slots.Keys;
    ghost var cur := Partial(sx, sy, todo);
    while todo != {}
      invariant todo <= sy.children.Keys
      invariant cur == Partial(sx, sy, todo)
      invariant Fits(Object(x), cur) && Fits(Object(y), sy)
      invariant forall k | k in sy.children && k !in todo :: !ChildPanics(sx, sy, k)
    {
      var k :| k in todo;
      PartialStep(sx, sy, todo, k);
      PartialNext(sx, sy, todo, k);
      ok := MergeKey(x, y, k, cur, sy);
      if !ok { return; }
      todo := todo - {k};
      cur := Partial(sx, sy, todo);
    }
    PartialDone(sx, sy);
  }

  /** The body of the loop, for one key. */
  method MergeKey(x: GoMap, y: GoMap, k: string, ghost cur: Shape, ghost sy: Shape) returns (ok: bool)
    requires cur.NodeShape? && sy.NodeShape? && k in sy.children
    requires Fits(Object(x), cur) && Fits(Object(y), sy)
    requires Linear(cur) && Linear(sy)
    requires x !in sy.area && sy.area <= cur.area && AreaAt(cur, k) !! sy.area
    modifies x, AreaAt(cur, k)
    ensures ok <==> !ChildPanics(cur, sy, k)
    ensures ok ==> Fits(Object(x), cur.(children := cur.children[k := MergedChild(cur, sy, k)]))
    decreases sy, 0
  {
    ok := true;
    if k in x.slots {
      match x.slots[k] {
        case Object(v) => {
          match y.slots[k] {
            case Object(w) => {
              ok := MergeNested(x, k, v, w, cur, sy.children[k]);
            }
            case Scalar(_) => {
              // the source stores the zero value of the failed assertion, a typed nil map
              Put(x, k, Object(null), cur, NilShape);
            }
          }
        }
        case Scalar(_) => {
          Put(x, k, y.slots[k], cur, sy.children[k]);
        }
      }
    } else {
      Put(x, k, y.slots[k], cur, sy.children[k]);
    }
  }

  /** Both slots hold maps: merge in place, one level down. */
  method MergeNested(x: GoMap, k: string, v: GoMap?, w: GoMap?, ghost cur: Shape, ghost sw: Shape) returns (ok: bool)
    requires cur.NodeShape? && Linear(cur) && Fits(Object(x), cur)
    requires k in cur.children && !cur.children[k].LeafShape? && x.slots[k] == Object(v)
    requires !sw.LeafShape? && Linear(sw) && Fits(Object(w), sw)
    requires x !in Area(sw) && Area(sw) <= cur.area && AreaAt(cur, k) !! Area(sw)
    modifies AreaAt(cur, k)
    ensures ok <==> !Panics(Content(cur.children[k]), Content(sw))
    ensures ok ==> Fits(Object(x), cur.(children := cur.children[k := MergeShape(cur.children[k], sw)]))
    decreases sw, 3
  {
    ok := DeepMerge(v, w, cur.children[k], sw);
    MergeShapeLinear(cur.children[k], sw);
    forall j | j in cur.children && j != k
      ensures Fits(x.slots[j], cur.children[j])
    {
      assert Area(cur.children[j]) !! AreaAt(cur, k);
      assert old(Fits(x.slots[j], cur.children[j]));
    }
  }

  /** Writes one slot of `x`. */
  method Put(x: GoMap, k: string, s: Slot, ghost cur: Shape, ghost c: Shape)
    requires cur.NodeShape? && Linear(cur) && Fits(Object(x), cur)
    requires Fits(s, c) && Area(c) <= cur.area && x !in Area(c)
    modifies x
    ensures Fits(Object(x), cur.(children := cur.children[k := c]))
  {
    x.slots := x.slots[k := s];
  }
}
