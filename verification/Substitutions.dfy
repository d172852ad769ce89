/**
 The variables substituted after rendering (internal/generator/generator.go lines 76-83 and
 shallowMerge, internal/generator/util.go lines 34-38).
 */
module Substitutions {
  import opened Options

  type Variables = map<string, string>

  /** A Go map from strings to strings, changed in place. */
  class StringMap {
    var entries: Variables

    constructor ()
      ensures entries == map[]
    {
      entries := map[];
    }
  }

  /** The keys of `y` are visited in any order. */
  method ShallowMerge(x: StringMap, y: Variables)
    modifies x
    ensures x.entries == old(x.entries) + y
  {
    var left := y.Keys;
    while left != {}
      invariant left <= y.Keys
      invariant x.entries == old(x.entries) + map k | k in y && k !in left :: y[k]
      decreases |left|
    {
      var k :| k in left;
      x.entries := x.entries[k := y[k]];
      left := left - {k};
    }
    assert (map k | k in y && k !in left :: y[k]) == y;
  }

  /** All sources on top of each other. */
  function Overlaid(sources: seq<Variables>): Variables {
    if sources == [] then map[] else Overlaid(sources[..|sources| - 1]) + sources[|sources| - 1]
  }

  /** The variables of secrets, then those given inline; none means that nothing is substituted. */
  method BuildSubstitutions(from: seq<Variables>, inline: Variables) returns (r: Option<StringMap>)
    ensures r.None? <==> from == [] && inline == map[]
    ensures r.Some? ==> fresh(r.value) && r.value.entries == Overlaid(from + [inline])
  {
    if |inline| == 0 && |from| == 0 { return None; }
    var x := new StringMap();
    for i := 0 to |from|
      invariant fresh(x) && x.entries == Overlaid(from[..i])
    {
      ShallowMerge(x, from[i]);
      assert from[..i + 1][..i] == from[..i];
    }
    assert from[..|from|] == from && (from + [inline])[..|from|] == from;
    ShallowMerge(x, inline);
    r := Some(x);
  }

  /** Source `i` is the last one to define the variable. */
  ghost predicate LastDefines(sources: seq<Variables>, name: string, i: int) {
    0 <= i < |sources| && name in sources[i] && forall j | i < j < |sources| :: name !in sources[j]
  }

  /**
   A variable has the value of the last source that defines it, so inline values win; no other
   variable is defined.
   */
  lemma {:induction false} LastSourceWins(sources: seq<Variables>, name: string)
    ensures name in Overlaid(sources) <==> exists i :: LastDefines(sources, name, i)
    ensures forall i | LastDefines(sources, name, i) :: Overlaid(sources)[name] == sources[i][name]
    decreases |sources|
  {
    if sources != [] {
      var n := |sources| - 1;
      LastSourceWins(sources[..n], name);
      if name in sources[n] {
        assert LastDefines(sources, name, n);
      } else {
        forall i
          ensures LastDefines(sources, name, i) <==> LastDefines(sources[..n], name, i)
        {
        }
      }
    }
  }
}
