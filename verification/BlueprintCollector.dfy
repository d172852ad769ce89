/**
 The blueprint reconciler (internal/controllers/blueprint/reconciler.go): it guards blueprints
 with a finalizer and deletes the versions no component has recorded.
 */
module BlueprintCollector {
  import opened Names
  import opened Api
  import opened ComponentIndex
  import B = BlueprintStore

  const FINALIZER := "component-operator.cs.sap.com"

  type Key = NamespacedName

  /** The client calls of a pass, each of which may fail. */
  datatype Call =
    | GetBlueprint
    | UpdateBlueprint
    | ListVersions
    | ListUsers(version: Key)
    | DeleteVersion(version: Key)

  datatype Outcome = Failed | Finished | RequeueAfter(seconds: int)

  /** The versions of a blueprint, by the field the list call selects on. */
  ghost function VersionsOf(s: B.Store, key: Key): set<Key> {
    set v | v in s.versions && v.ns == key.ns && s.versions[v].blueprint == key.name
  }

  /** `listing` is some order of the versions of the blueprint. */
  ghost predicate ListsVersions(listing: seq<Key>, s: B.Store, key: Key) {
    && (forall v :: v in listing <==> v in VersionsOf(s, key))
    && (forall i, j | 0 <= i < j < |listing| :: listing[i] != listing[j])
  }

  ghost predicate InUse(cache: Components, version: Key) {
    Matching(cache, BlueprintVersionUsers, version) != {}
  }

  ghost function Unused(cache: Components, versions: seq<Key>): set<Key> {
    set v | v in versions && !InUse(cache, v)
  }

  /** The store after delete calls for `dead`: versions holding finalizers are only marked. */
  function AfterDeletes(s: B.Store, dead: set<Key>): B.Store {
    s.(versions := map v | v in s.versions && !(v in dead && s.versions[v].finalizers == {}) ::
      if v in dead then s.versions[v].(deleting := true) else s.versions[v])
  }

  /** The pass gives up at this version: a call fails or an unused version is already being deleted. */
  ghost predicate StopsAt(s: B.Store, cache: Components, fails: set<Call>, version: Key) {
    || ListUsers(version) in fails
    || (!InUse(cache, version) && version in s.versions && s.versions[version].deleting)
    || (!InUse(cache, version) && DeleteVersion(version) in fails)
  }

  /** None of the first `i` listed versions stops the pass. */
  ghost predicate GetsTo(s: B.Store, cache: Components, fails: set<Call>, listing: seq<Key>, i: nat)
    requires i <= |listing|
  {
    forall j | 0 <= j < i :: !StopsAt(s, cache, fails, listing[j])
  }

  /** How many of the listed versions a pass gets through. */
  ghost function Processed(s: B.Store, cache: Components, fails: set<Call>, listing: seq<Key>): (n: nat)
    ensures n <= |listing| && GetsTo(s, cache, fails, listing, n)
    ensures n < |listing| ==> StopsAt(s, cache, fails, listing[n])
  {
    if listing == [] || StopsAt(s, cache, fails, listing[0]) then 0
    else 1 + Processed(s, cache, fails, listing[1..])
  }

  predicate NeedsFinalizer(b: B.Blueprint) {
    !b.deleting && FINALIZER !in b.finalizers
  }

  function WithFinalizer(s: B.Store, key: Key): B.Store
    requires key in s.blueprints
  {
    var b := s.blueprints[key];
    if NeedsFinalizer(b) then s.(blueprints := s.blueprints[key := b.(finalizers := b.finalizers + {FINALIZER})]) else s
  }

  function WithoutFinalizer(s: B.Store, key: Key): B.Store
    requires key in s.blueprints
  {
    var b := s.blueprints[key];
    B.UpdateBlueprint(s, key, b.(finalizers := b.finalizers - {FINALIZER}))
  }

  /** Store and outcome of one pass. */
  ghost function CollectorPass(s: B.Store, cache: Components, key: Key, listing: seq<Key>, fails: set<Call>)
    : (B.Store, Outcome)
    requires ListsVersions(listing, s, key)
  {
    if GetBlueprint in fails then (s, Failed)
    else if key !in s.blueprints then (s, Finished)
    else
      var b := s.blueprints[key];
      if NeedsFinalizer(b) && UpdateBlueprint in fails then (s, Failed)
      else
        var guarded := WithFinalizer(s, key);
        if ListVersions in fails then (guarded, Failed)
        else
          var n := Processed(guarded, cache, fails, listing);
          var dead := Unused(cache, listing[..n]);
          if n < |listing| then (AfterDeletes(guarded, dead), Failed)
          else if dead != {} then (AfterDeletes(guarded, dead), RequeueAfter(1))
          else if !b.deleting then (guarded, RequeueAfter(600))
          else if listing != [] then (guarded, RequeueAfter(10))
          else if FINALIZER !in b.finalizers then (guarded, Finished)
          else if UpdateBlueprint in fails then (guarded, Failed)
          else (WithoutFinalizer(guarded, key), Finished)
  }

  /**
   What a pass with outcome `r` may do to blueprints: a living one gets the finalizer and keeps
   everything else, unless reading or updating it fails; a deleted one never gains the finalizer, loses
   it only in a pass that finishes, and leaves the store with its last finalizer.
   */
  ghost predicate GuardsRight(s: B.Store, t: B.Store, key: Key, fails: set<Call>, r: Outcome) {
    && (forall k | k != key :: k in t.blueprints <==> k in s.blueprints)
    && (forall k | k != key && k in s.blueprints :: t.blueprints[k] == s.blueprints[k])
    && if key !in s.blueprints then key !in t.blueprints
       else
         var b := s.blueprints[key];
         var name := "component-operator.cs.sap.com";
         if !b.deleting then
           var added := if GetBlueprint in fails || UpdateBlueprint in fails then {} else {name};
           key in t.blueprints && t.blueprints[key] == b.(finalizers := b.finalizers + added)
         else
           var left := b.finalizers - if r == Finished then {name} else {};
           if left == {} && b.finalizers != {} then key !in t.blueprints
           else key in t.blueprints && t.blueprints[key] == b.(finalizers := left)
  }

  /** A version of the blueprint that no component uses. */
  ghost predicate IsUnused(s: B.Store, cache: Components, key: Key, v: Key) {
    v in s.versions && v.ns == key.ns && s.versions[v].blueprint == key.name && !InUse(cache, v)
  }

  /** The outcome of a pass, whatever the order in which the versions are listed. */
  ghost function RightOutcome(s: B.Store, cache: Components, key: Key, fails: set<Call>): Outcome {
    if GetBlueprint in fails then Failed
    else if key !in s.blueprints then Finished
    else
      var b := s.blueprints[key];
      var guarded := "component-operator.cs.sap.com" in b.finalizers;
      if !b.deleting && !guarded && UpdateBlueprint in fails then Failed
      else if ListVersions in fails || (exists v | v in VersionsOf(s, key) :: ListUsers(v) in fails) then Failed
      else if exists v ::
        IsUnused(s, cache, key, v) && (s.versions[v].deleting || DeleteVersion(v) in fails) then Failed
      else if exists v :: IsUnused(s, cache, key, v) then RequeueAfter(1)
      else if !b.deleting then RequeueAfter(600)
      else if VersionsOf(s, key) != {} then RequeueAfter(10)
      else if guarded && UpdateBlueprint in fails then Failed
      else Finished
  }

  class Reconciler {
    var store: B.Store

    constructor (s: B.Store)
      ensures store == s
    {
      store := s;
    }

    /** Whether the cache lists a component for the version (a list call limited to one item). */
    static method HasUsers(cache: Components, version: Key) returns (r: bool)
      ensures r <==> InUse(cache, version)
    {
      r := exists k :: k in cache && ObjectKey(version) in Entries(BlueprintVersionUsers, cache[k]);
      if r {
        var k :| k in cache && ObjectKey(version) in Entries(BlueprintVersionUsers, cache[k]);
        assert k in Matching(cache, BlueprintVersionUsers, version);
      } else {
        assert Matching(cache, BlueprintVersionUsers, version) == {};
      }
    }

    /** The loop over the listed versions. */
    method DeleteUnused(key: Key, cache: Components, listing: seq<Key>, fails: set<Call>)
      returns (ok: bool, numDeleted: nat)
      requires ListsVersions(listing, store, key)
      modifies this
      ensures var n := Processed(old(store), cache, fails, listing);
        var dead := Unused(cache, listing[..n]);
        && store == AfterDeletes(old(store), dead)
        && numDeleted == |dead|
        && (ok <==> n == |listing|)
    {
      ghost var before := store;
      ghost var dead: set<Key> := {};
      numDeleted := 0;
      NothingDeleted(before);
      var i := 0;
      while i < |listing|
        invariant 0 <= i <= |listing| && GetsTo(before, cache, fails, listing, i)
        invariant dead == Unused(cache, listing[..i])
        invariant store == AfterDeletes(before, dead)
        invariant numDeleted == |dead|
      {
        var version := listing[i];
        ListedVersion(before, key, cache, listing, i);
        var used := false;
        if ListUsers(version) !in fails { used := HasUsers(cache, version); }
        var deletable := !store.versions[version].deleting && DeleteVersion(version) !in fails;
        if ListUsers(version) in fails || (!used && !deletable) {
          ProcessedIs(before, cache, fails, listing, i);
          return false, numDeleted;
        }
        if used {
          KeepOneMore(cache, listing, i);
        } else {
          DropOneMore(cache, listing, i);
          DeleteOneMore(before, dead, version);
          store := B.DeleteVersion(store, version);
          numDeleted := numDeleted + 1;
          dead := dead + {version};
        }
        i := i + 1;
      }
      ProcessedIs(before, cache, fails, listing, i);
      ok := true;
    }

    method Reconcile(key: Key, cache: Components, listing: seq<Key>, fails: set<Call>) returns (r: Outcome)
      requires ListsVersions(listing, store, key)
      modifies this
      ensures (store, r) == CollectorPass(old(store), cache, key, listing, fails)
      ensures GuardsRight(old(store), store, key, fails, r)
      ensures r == RightOutcome(old(store), cache, key, fails)
    {
      PassGuards(store, cache, key, listing, fails);
      PassOutcome(store, cache, key, listing, fails);
      if GetBlueprint in fails { return Failed; }
      if key !in store.blueprints { return Finished; }
      var blueprint := store.blueprints[key];
      if !blueprint.deleting {
        if FINALIZER !in blueprint.finalizers {
          if UpdateBlueprint in fails { return Failed; }
          var guardedBlueprint := blueprint.(finalizers := blueprint.finalizers + {FINALIZER});
          store := store.(blueprints := store.blueprints[key := guardedBlueprint]);
        }
      }
      if ListVersions in fails { return Failed; }
      ghost var guarded := store;
      assert VersionsOf(guarded, key) == VersionsOf(old(store), key);
      var ok, numDeleted := DeleteUnused(key, cache, listing, fails);
      if !ok { return Failed; }
      assert listing[..|listing|] == listing;
      if numDeleted > 0 { return RequeueAfter(1); }
      NothingDeleted(guarded);
      if !blueprint.deleting { return RequeueAfter(600); }
      if |listing| != 0 { return RequeueAfter(10); }
      if FINALIZER in blueprint.finalizers {
        if UpdateBlueprint in fails { return Failed; }
        store := B.UpdateBlueprint(store, key, blueprint.(finalizers := blueprint.finalizers - {FINALIZER}));
      }
      r := Finished;
    }
  }

  lemma ListedVersion(s: B.Store, key: Key, cache: Components, listing: seq<Key>, i: nat)
    requires ListsVersions(listing, s, key) && i < |listing|
    ensures listing[i] in s.versions && listing[i] !in Unused(cache, listing[..i])
    ensures var t := AfterDeletes(s, Unused(cache, listing[..i]));
      listing[i] in t.versions && t.versions[listing[i]] == s.versions[listing[i]]
  {
    assert listing[i] in listing;
    assert forall j | 0 <= j < i :: listing[..i][j] == listing[j];
  }

  /** A pass gets through exactly the versions before the first one it stops at. */
  lemma {:induction false} ProcessedIs(s: B.Store, cache: Components, fails: set<Call>, listing: seq<Key>, i: nat)
    requires i <= |listing| && GetsTo(s, cache, fails, listing, i)
    requires i < |listing| ==> StopsAt(s, cache, fails, listing[i])
    ensures Processed(s, cache, fails, listing) == i
  {
    if i > 0 {
      ProcessedIs(s, cache, fails, listing[1..], i - 1);
    }
  }

  lemma KeepOneMore(cache: Components, listing: seq<Key>, i: nat)
    requires i < |listing| && InUse(cache, listing[i])
    ensures Unused(cache, listing[..i + 1]) == Unused(cache, listing[..i])
  {
    assert listing[..i + 1] == listing[..i] + [listing[i]];
  }

  lemma DropOneMore(cache: Components, listing: seq<Key>, i: nat)
    requires i < |listing| && !InUse(cache, listing[i])
    ensures Unused(cache, listing[..i + 1]) == Unused(cache, listing[..i]) + {listing[i]}
  {
    assert listing[..i + 1] == listing[..i] + [listing[i]];
  }

  lemma DeleteOneMore(s: B.Store, dead: set<Key>, version: Key)
    requires version in s.versions && version !in dead
    ensures version in AfterDeletes(s, dead).versions
    ensures B.DeleteVersion(AfterDeletes(s, dead), version) == AfterDeletes(s, dead + {version})
  {
    assert B.DeleteVersion(AfterDeletes(s, dead), version).versions == AfterDeletes(s, dead + {version}).versions;
  }

  lemma NothingDeleted(s: B.Store)
    ensures AfterDeletes(s, {}) == s
  {
    assert AfterDeletes(s, {}).versions == s.versions;
  }

  // ---------------------------------------------------------------- what a pass does

  /** Whatever fails, a pass deletes nothing but unused versions of its blueprint that were not yet being deleted. */
  lemma PassDeletes(s: B.Store, cache: Components, key: Key, listing: seq<Key>, fails: set<Call>)
    returns (dead: set<Key>)
    requires ListsVersions(listing, s, key)
    ensures var (t, r) := CollectorPass(s, cache, key, listing, fails);
      && t.versions == AfterDeletes(s, dead).versions
      && (forall v | v in dead :: v in VersionsOf(s, key) && !InUse(cache, v) && !s.versions[v].deleting)
      && (r == RequeueAfter(1) <==> r != Failed && dead != {})
      && (r != Failed && key in s.blueprints ==> dead == Unused(cache, listing))
  {
    NothingDeleted(s);
    dead := {};
    if key in s.blueprints && GetBlueprint !in fails && ListVersions !in fails
      && !(NeedsFinalizer(s.blueprints[key]) && UpdateBlueprint in fails)
    {
      var guarded := WithFinalizer(s, key);
      var n := Processed(guarded, cache, fails, listing);
      dead := Unused(cache, listing[..n]);
      assert listing[..|listing|] == listing;
      forall v | v in dead
        ensures v in VersionsOf(s, key) && !InUse(cache, v) && !s.versions[v].deleting
      {
        var j :| 0 <= j < n && listing[..n][j] == v;
        assert v in listing && !StopsAt(guarded, cache, fails, listing[j]);
      }
    }
  }

  lemma PassGuards(s: B.Store, cache: Components, key: Key, listing: seq<Key>, fails: set<Call>)
    requires ListsVersions(listing, s, key)
    ensures var (t, r) := CollectorPass(s, cache, key, listing, fails); GuardsRight(s, t, key, fails, r)
  {
  }

  /** The order of the listing does not matter to whether a pass stops, nor to whether it finds anything to delete. */
  lemma OrderIsIrrelevant(s: B.Store, t: B.Store, cache: Components, key: Key, listing: seq<Key>, fails: set<Call>)
    requires ListsVersions(listing, s, key) && t.versions == s.versions
    ensures Processed(t, cache, fails, listing) < |listing| <==>
      exists v | v in VersionsOf(s, key) :: StopsAt(s, cache, fails, v)
    ensures Unused(cache, listing) != {} <==> exists v :: IsUnused(s, cache, key, v)
    ensures listing != [] <==> VersionsOf(s, key) != {}
  {
    var n := Processed(t, cache, fails, listing);
    NothingListed(listing, s, key);
    if n < |listing| {
      assert listing[n] in VersionsOf(s, key) && StopsAt(s, cache, fails, listing[n]);
    }
    forall v | v in VersionsOf(s, key)
      ensures n == |listing| ==> !StopsAt(s, cache, fails, v)
    {
      assert v in listing;
      var j :| 0 <= j < |listing| && listing[j] == v;
    }
    forall v
      ensures v in Unused(cache, listing) <==> IsUnused(s, cache, key, v)
    {
      assert v in listing <==> v in VersionsOf(s, key);
    }
  }

  lemma StopsExactly(s: B.Store, cache: Components, key: Key, fails: set<Call>)
    ensures (exists v | v in VersionsOf(s, key) :: StopsAt(s, cache, fails, v)) <==>
      || (exists v | v in VersionsOf(s, key) :: ListUsers(v) in fails)
      || (exists v :: IsUnused(s, cache, key, v) && (s.versions[v].deleting || DeleteVersion(v) in fails))
  {
    if v :| v in VersionsOf(s, key) && StopsAt(s, cache, fails, v) {
      assert ListUsers(v) in fails || IsUnused(s, cache, key, v);
    }
    if v :| IsUnused(s, cache, key, v) && (s.versions[v].deleting || DeleteVersion(v) in fails) {
      assert v in VersionsOf(s, key);
    }
  }

  lemma PassOutcome(s: B.Store, cache: Components, key: Key, listing: seq<Key>, fails: set<Call>)
    requires ListsVersions(listing, s, key)
    ensures CollectorPass(s, cache, key, listing, fails).1 == RightOutcome(s, cache, key, fails)
  {
    if key in s.blueprints {
      OrderIsIrrelevant(s, WithFinalizer(s, key), cache, key, listing, fails);
      StopsExactly(s, cache, key, fails);
      assert listing[..|listing|] == listing;
    }
  }

  /** Whatever fails, versions in use and versions of other blueprints stay as they are. */
  lemma UsedVersionsStay(s: B.Store, cache: Components, key: Key, listing: seq<Key>, fails: set<Call>, version: Key)
    requires ListsVersions(listing, s, key)
    requires version in s.versions && (InUse(cache, version) || version !in VersionsOf(s, key))
    ensures var t := CollectorPass(s, cache, key, listing, fails).0;
      version in t.versions && t.versions[version] == s.versions[version]
  {
    var dead := PassDeletes(s, cache, key, listing, fails);
  }

  /**
   When no call fails a pass gets through exactly if no unused version is still waiting for its
   deletion, and then it leaves exactly the versions in use and those held by a finalizer, marked.
   */
  lemma ErrorFreePassExact(s: B.Store, cache: Components, key: Key, listing: seq<Key>)
    requires ListsVersions(listing, s, key) && key in s.blueprints
    ensures var (t, r) := CollectorPass(s, cache, key, listing, {});
      && (r == Failed <==> exists v | v in VersionsOf(s, key) :: !InUse(cache, v) && s.versions[v].deleting)
      && (r != Failed ==>
           && (forall v | v in VersionsOf(s, key) && !InUse(cache, v) ::
                 && (v in t.versions <==> s.versions[v].finalizers != {})
                 && (v in t.versions ==> t.versions[v] == s.versions[v].(deleting := true)))
           && (forall v | v in t.versions :: v in s.versions))
  {
    var (t, r) := CollectorPass(s, cache, key, listing, {});
    var dead := PassDeletes(s, cache, key, listing, {});
    var guarded := WithFinalizer(s, key);
    var n := Processed(guarded, cache, {}, listing);
    if n < |listing| {
      assert listing[n] in listing;
      assert listing[n] in VersionsOf(s, key) && !InUse(cache, listing[n]) && s.versions[listing[n]].deleting;
    } else {
      forall v | v in VersionsOf(s, key) && !InUse(cache, v)
        ensures !s.versions[v].deleting
      {
        assert v in listing;
        var j :| 0 <= j < |listing| && listing[j] == v;
        assert !StopsAt(guarded, cache, {}, listing[j]);
      }
    }
  }

  /** The versions of a blueprint whose deletion nobody has asked for. */
  ghost function Lasting(s: B.Store, key: Key): set<Key> {
    set v | v in VersionsOf(s, key) && !s.versions[v].deleting
  }

  /** Each pass that asks to be repeated after a second has lowered the number of lasting versions. */
  lemma RepeatedPassesProgress(s: B.Store, cache: Components, key: Key, listing: seq<Key>, fails: set<Call>)
    requires ListsVersions(listing, s, key)
    ensures var (t, r) := CollectorPass(s, cache, key, listing, fails);
      && |Lasting(t, key)| <= |Lasting(s, key)|
      && (r == RequeueAfter(1) ==> |Lasting(t, key)| < |Lasting(s, key)|)
  {
    var (t, r) := CollectorPass(s, cache, key, listing, fails);
    var dead := PassDeletes(s, cache, key, listing, fails);
    assert Lasting(t, key) == Lasting(s, key) - dead;
    assert dead <= Lasting(s, key);
  }

  /**
   The finalizer of a blueprint, or the blueprint itself, goes only when it is being deleted and
   has no version left.
   */
  lemma FinalizerGuardsVersions(s: B.Store, cache: Components, key: Key, listing: seq<Key>, fails: set<Call>,
                                other: Key)
    requires ListsVersions(listing, s, key)
    requires other in s.blueprints && FINALIZER in s.blueprints[other].finalizers
    ensures var t := CollectorPass(s, cache, key, listing, fails).0;
      (other in t.blueprints && FINALIZER in t.blueprints[other].finalizers) ||
      (other == key && s.blueprints[key].deleting && VersionsOf(s, key) == {} && VersionsOf(t, key) == {})
  {
    NothingListed(listing, s, key);
    if listing == [] {
      var dead := PassDeletes(s, cache, key, listing, fails);
    }
  }

  lemma NothingListed(listing: seq<Key>, s: B.Store, key: Key)
    requires ListsVersions(listing, s, key)
    ensures listing == [] <==> VersionsOf(s, key) == {}
  {
    if listing != [] {
      assert listing[0] in VersionsOf(s, key);
    }
  }

  /**
   A deleted blueprint without users whose versions are free to go loses its finalizer within
   two passes, and leaves the store if nobody else holds it.
   */
  lemma TwoPassesRelease(s: B.Store, cache: Components, key: Key, listing: seq<Key>,
                         cache': Components, listing': seq<Key>)
    requires ListsVersions(listing, s, key) && key in s.blueprints && s.blueprints[key].deleting
    requires FINALIZER in s.blueprints[key].finalizers
    requires forall v | v in VersionsOf(s, key) ::
      !InUse(cache, v) && !s.versions[v].deleting && s.versions[v].finalizers == {}
    requires ListsVersions(listing', CollectorPass(s, cache, key, listing, {}).0, key)
    ensures var t := CollectorPass(CollectorPass(s, cache, key, listing, {}).0, cache', key, listing', {}).0;
      && VersionsOf(t, key) == {}
      && (key in t.blueprints <==> s.blueprints[key].finalizers - {FINALIZER} != {})
      && (key in t.blueprints ==> FINALIZER !in t.blueprints[key].finalizers)
  {
    var (u, r) := CollectorPass(s, cache, key, listing, {});
    ErrorFreePassExact(s, cache, key, listing);
    var dead := PassDeletes(s, cache, key, listing, {});
    assert VersionsOf(u, key) == {};
    NothingListed(listing', u, key);
    var dead' := PassDeletes(u, cache', key, listing', {});
  }
}
