/**
 * Properties of the root table the trash builder fills (`Patch.TrashFiles`),
 * stated over placements: which keys it holds, which values a later step
 * leaves alone, and when a leaf stored along a `files` path stays reachable.
 */
module TrashTable {
  import opened Asar
  import opened Helpers
  import opened Patch

  // ---------------------------------------------------------------------------
  // Which keys the root table holds
  // ---------------------------------------------------------------------------

  /** One step writes only its placement's root key. */
  lemma TrashStepWritesKey(files: map<string, Value>, place: Placement, d: Draw)
    ensures TrashStep(files, place, d).Keys == files.Keys + {place.Key()}
    ensures forall k :: k in files && k != place.Key() ==> TrashStep(files, place, d)[k] == files[k]
  {
  }

  /** The root keys of the first `n` placements. */
  function PlaceKeys(places: seq<Placement>, n: nat): set<string>
    requires n <= |places|
  {
    set i | 0 <= i < n :: places[i].Key()
  }

  /** One more placement adds its root key. */
  lemma PlaceKeysSnoc(places: seq<Placement>, n: nat)
    requires n < |places|
    ensures PlaceKeys(places, n + 1) == PlaceKeys(places, n) + {places[n].Key()}
  {
    forall k | k in PlaceKeys(places, n + 1) ensures k in PlaceKeys(places, n) + {places[n].Key()} {
      var i :| 0 <= i < n + 1 && k == places[i].Key();
      if i < n {
        assert k in PlaceKeys(places, n);
      }
    }
  }

  /** The root table holds exactly the root keys of the placements: every filename lands, nothing else appears. */
  lemma {:induction false} TrashFilesKeys(places: seq<Placement>, draws: nat -> Draw, n: nat)
    requires n <= |places|
    ensures TrashFiles(places, draws, n).Keys == PlaceKeys(places, n)
  {
    if n > 0 {
      TrashFilesKeys(places, draws, n - 1);
      TrashStepWritesKey(TrashFiles(places, draws, n - 1), places[n - 1], draws(n - 1));
      PlaceKeysSnoc(places, n - 1);
    }
  }

  /** Steps whose root keys differ from `k` leave the value under `k` alone. */
  lemma {:induction false} TrashFilesUntouched(places: seq<Placement>, draws: nat -> Draw, k: string, m: nat, n: nat)
    requires m <= n <= |places|
    requires k in TrashFiles(places, draws, m)
    requires forall j :: m <= j < n ==> places[j].Key() != k
    ensures k in TrashFiles(places, draws, n)
    ensures TrashFiles(places, draws, n)[k] == TrashFiles(places, draws, m)[k]
    decreases n - m
  {
    if m < n {
      TrashStepWritesKey(TrashFiles(places, draws, m), places[m], draws(m));
      TrashFilesUntouched(places, draws, k, m + 1, n);
    }
  }

  /** A flat placement's leaf survives when no later placement writes its key: last write wins. */
  lemma FlatEntryKept(places: seq<Placement>, draws: nat -> Draw, i: nat)
    requires i < |places| && places[i].Flat?
    requires forall j :: i < j < |places| ==> places[j].Key() != places[i].name
    ensures var files := TrashFiles(places, draws, |places|);
            places[i].name in files && files[places[i].name] == Leaf(draws(i))
  {
    TrashFilesUntouched(places, draws, places[i].name, i + 1, |places|);
  }

  // ---------------------------------------------------------------------------
  // Paths made by the `_files_` trick
  // ---------------------------------------------------------------------------

  /** A property path of the form `files, s1, files, s2, ...`. */
  predicate IsFilesPath(path: seq<string>)
    decreases |path|
  {
    |path| == 0 || (2 <= |path| && path[0] == "files" && IsFilesPath(path[2..]))
  }

  /** True when every nested placement under the root key `k` descends along a non-empty `files` path. */
  predicate FilesPlacedAt(places: seq<Placement>, k: string) {
    forall j :: 0 <= j < |places| && places[j].Nested? && places[j].parent == k
      ==> 0 < |places[j].path| && IsFilesPath(places[j].path)
  }

  /**
   * An object that the nested walk can always descend through: its `files`
   * property, when present, is an object whose values are all such objects.
   * File objects (no `files` property) qualify.
   */
  predicate Shaped(v: Value)
    decreases v
  {
    && v.Obj?
    && ("files" in v.props ==>
          && v.props["files"].Obj?
          && forall k :: k in v.props["files"].props ==> Shaped(v.props["files"].props[k]))
  }

  /** A shaped object can be walked along a `files` path. */
  lemma {:induction false} ShapedWalkable(v: Value, path: seq<string>)
    requires Shaped(v) && 0 < |path| && IsFilesPath(path)
    ensures Walkable(v, path)
    decreases |path|
  {
    if "files" in v.props {
      var dir := v.props["files"];
      assert path[1..][1..] == path[2..];
      if path[1] in dir.props && 2 < |path| {
        ShapedWalkable(dir.props[path[1]], path[2..]);
      }
    }
  }

  /** Storing a shaped leaf along a `files` path keeps an object shaped. */
  lemma {:induction false} ShapedStore(v: Value, path: seq<string>, leaf: Value)
    requires Shaped(v) && Shaped(leaf) && 0 < |path| && IsFilesPath(path)
    ensures Shaped(CreateNestedObject(v, path, leaf))
    decreases |path|
  {
    var dir := if "files" in v.props && v.props["files"].Obj? then v.props["files"] else Obj(map[]);
    var inner := CreateNestedObject(dir, path[1..], leaf);
    assert CreateNestedObject(v, path, leaf) == Obj(v.props["files" := inner]);
    if 2 < |path| {
      var child := if path[1] in dir.props && dir.props[path[1]].Obj? then dir.props[path[1]] else Obj(map[]);
      assert path[1..][1..] == path[2..];
      ShapedStore(child, path[2..], leaf);
    }
  }

  /** A file object is shaped. */
  lemma LeafShaped(d: Draw)
    ensures Shaped(Leaf(d))
  {
  }

  /**
   * When the nested placements under root key `k` follow `files` paths, the
   * value under `k` stays shaped, whatever the other placements do.
   */
  lemma {:induction false} TrashFilesShapedAt(places: seq<Placement>, draws: nat -> Draw, n: nat, k: string)
    requires n <= |places|
    requires FilesPlacedAt(places, k)
    ensures k in TrashFiles(places, draws, n) ==> Shaped(TrashFiles(places, draws, n)[k])
  {
    if n > 0 {
      TrashFilesShapedAt(places, draws, n - 1, k);
      var files := TrashFiles(places, draws, n - 1);
      TrashStepWritesKey(files, places[n - 1], draws(n - 1));
      LeafShaped(draws(n - 1));
      match places[n - 1]
      case Flat(_) =>
      case Nested(parent, path) =>
        if parent == k {
          var obj := if parent in files && Truthy(files[parent]) then files[parent] else Obj(map[]);
          ShapedStore(obj, path, Leaf(draws(n - 1)));
        }
    }
  }

  // ---------------------------------------------------------------------------
  // Nested placements: the leaf stays reachable
  // ---------------------------------------------------------------------------

  /**
   * The leaf of nested placement `i` is still found along its path after
   * placement `n - 1`, as long as every later placement writing the same root
   * key is nested along a path that parts from it: nested filenames sharing a
   * root key accumulate in one object (line 97 reuses it).
   */
  lemma {:induction false} NestedLeafKept(places: seq<Placement>, draws: nat -> Draw, i: nat, n: nat)
    requires i < n <= |places|
    requires places[i].Nested? && FilesPlacedAt(places, places[i].parent)
    requires forall j :: i < j < |places| && places[j].Key() == places[i].parent
               ==> places[j].Nested? && Diverges(places[j].path, places[i].path)
    ensures var files := TrashFiles(places, draws, n);
            && places[i].parent in files
            && Lookup(files[places[i].parent], places[i].path) == Some(Leaf(draws(i)))
    decreases n
  {
    TrashFilesShapedAt(places, draws, n - 1, places[i].parent);
    var files := TrashFiles(places, draws, n - 1);
    if n == i + 1 {
      StepStoresNested(files, places[i], draws(i));
    } else {
      NestedLeafKept(places, draws, i, n - 1);
      var j := n - 1;
      if places[j].Key() == places[i].parent {
        StepKeepsSameRoot(files, places[j], draws(j), places[i].parent, places[i].path, Leaf(draws(i)));
      } else {
        StepKeepsOtherRoot(files, places[j], draws(j), places[i].parent, places[i].path, Leaf(draws(i)));
      }
    }
  }

  /** A nested step whose root value, if any, is shaped stores its leaf along its path under its root key. */
  lemma StepStoresNested(files: map<string, Value>, place: Placement, d: Draw)
    requires place.Nested? && 0 < |place.path| && IsFilesPath(place.path)
    requires place.parent in files ==> Shaped(files[place.parent])
    ensures var after := TrashStep(files, place, d);
            place.parent in after && Lookup(after[place.parent], place.path) == Some(Leaf(d))
  {
    var obj := if place.parent in files && Truthy(files[place.parent]) then files[place.parent] else Obj(map[]);
    ShapedWalkable(obj, place.path);
    CreateNestedObjectStores(obj, place.path, Leaf(d));
  }

  /** A step that writes another root key keeps the value found under `parent`. */
  lemma StepKeepsOtherRoot(files: map<string, Value>, place: Placement, d: Draw,
                           parent: string, path: seq<string>, y: Value)
    requires parent in files && Lookup(files[parent], path) == Some(y)
    requires place.Key() != parent
    ensures var after := TrashStep(files, place, d);
            parent in after && Lookup(after[parent], path) == Some(y)
  {
    TrashStepWritesKey(files, place, d);
  }

  /** A nested step into the same shaped root object keeps the value found along a path that parts from its own. */
  lemma StepKeepsSameRoot(files: map<string, Value>, place: Placement, d: Draw,
                          parent: string, path: seq<string>, y: Value)
    requires parent in files && Shaped(files[parent]) && Lookup(files[parent], path) == Some(y)
    requires place.Nested? && place.parent == parent && 0 < |place.path| && IsFilesPath(place.path)
    requires Diverges(place.path, path)
    ensures var after := TrashStep(files, place, d);
            parent in after && Lookup(after[parent], path) == Some(y)
  {
    var obj := files[parent];
    assert TrashStep(files, place, d) == files[parent := CreateNestedObject(obj, place.path, Leaf(d))];
    ShapedWalkable(obj, place.path);
    CreateNestedObjectKeeps(obj, place.path, Leaf(d), path, y);
  }
}
