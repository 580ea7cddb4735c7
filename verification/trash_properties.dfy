/**
 * Properties of the trash builder (src/patch.ts, `createTrashPatch`) stated
 * about filenames: where line 91's `_files_` trick places a filename, and what
 * the root table `Patch.TrashFiles` that `Patch.BuildTrashPatch` is proved to
 * compute holds for flat and for nested filenames.
 */
module TrashProperties {
  import opened Asar
  import opened JsStrings
  import opened Helpers
  import opened Patch
  import opened TrashTable

  // ---------------------------------------------------------------------------
  // The `_files_` trick
  // ---------------------------------------------------------------------------

  /**
   * The property path of a leaf placed under directories: `files`, then the
   * segment, for every segment (`files.a.files.b.files.c.txt`).
   */
  function FilesPath(segs: seq<string>): seq<string>
    decreases |segs|, 1
  {
    if |segs| == 0 then [] else ["files"] + Interleaved(segs)
  }

  /** The segments with "files" between each two (`a.files.b.files.c.txt`): a `FilesPath` past its head. */
  function Interleaved(segs: seq<string>): seq<string>
    requires 0 < |segs|
    decreases |segs|, 0
  {
    [segs[0]] + FilesPath(segs[1..])
  }

  /** A `FilesPath` is a `files` path. */
  lemma {:induction false} FilesPathIsFilesPath(segs: seq<string>)
    ensures IsFilesPath(FilesPath(segs))
  {
    if |segs| > 0 {
      FilesPathIsFilesPath(segs[1..]);
      assert FilesPath(segs)[2..] == FilesPath(segs[1..]);
    }
  }

  /** True when no segment of the filename contains `_`. */
  predicate PlainSegments(filename: string) {
    forall t :: 0 <= t < |Subdirs(filename)| ==> FreeOf(Subdirs(filename)[t], {'_'})
  }

  /** "files" holds no `_`, and `_files_` is it between two underscores. */
  lemma FilesWord()
    ensures FreeOf("files", {'_'}) && "_files_" == ['_'] + "files" + ['_']
  {
  }

  /** Joining with `_files_` and splitting at `_` gives the segments interleaved with "files". */
  lemma {:induction false} JoinFilesSplit(segs: seq<string>)
    requires 0 < |segs|
    requires forall t :: 0 <= t < |segs| ==> FreeOf(segs[t], {'_'})
    ensures Split(Join(segs, "_files_"), {'_'}) == Interleaved(segs)
  {
    if |segs| == 1 {
      SplitFree(segs[0], {'_'});
    } else {
      var rest := Join(segs[1..], "_files_");
      JoinFilesSplit(segs[1..]);
      JoinFilesUnfold(segs);
      FilesWord();
      SplitFreeHead("files", '_', rest, {'_'});
      SplitFreeHead(segs[0], '_', "files" + ['_'] + rest, {'_'});
    }
  }

  /** The first segment, `_files_`, then the join of the rest. */
  lemma JoinFilesUnfold(segs: seq<string>)
    requires 1 < |segs|
    ensures Join(segs, "_files_") == segs[0] + ['_'] + ("files" + ['_'] + Join(segs[1..], "_files_"))
  {
    var sep := "_files_";
    FilesWord();
    assert Join(segs, sep) == segs[0] + sep + Join(segs[1..], sep);
    Regroup(segs[0], '_', "files", Join(segs[1..], sep));
  }

  /** Moving the separator's word from the left part to the right. */
  lemma Regroup(a: string, c: char, w: string, r: string)
    ensures a + ([c] + w + [c]) + r == a + [c] + (w + [c] + r)
  {
  }

  /**
   * Lines 89-91 for a filename whose segments hold no `_`: the segments
   * `[s1, ..., sk]` become `[s1, "files", s2, ..., "files", sk]`, so the entry
   * goes under the raw first segment (not the `beforeWrite` result), along
   * the property path `files.s2 ... .files.sk` inside it.
   */
  lemma TrickPathOfPlainSegments(filename: string, beforeWrite: string -> string)
    requires IsNested(filename)
    requires PlainSegments(filename)
    ensures TrickPath(filename) == Interleaved(Subdirs(filename))
    ensures Place(filename, beforeWrite) == Nested(Subdirs(filename)[0], FilesPath(Subdirs(filename)[1..]))
  {
    var segs := Subdirs(filename);
    JoinFilesSplit(segs);
    assert Interleaved(segs)[1..] == FilesPath(segs[1..]);
  }

  /**
   * A segment holding `_` is broken further by the split at `_`: the filename
   * `a_b/name` is stored under the root key `a`, at the path `b.files.name`.
   */
  lemma UnderscoreBreaksTrick(a: string, b: string, name: string, beforeWrite: string -> string)
    requires FreeOf(a, Separators + {'_'}) && FreeOf(b, Separators + {'_'}) && FreeOf(name, Separators + {'_'})
    ensures Place(a + ['_'] + b + ['/'] + name, beforeWrite) == Nested(a, [b, "files", name])
  {
    var dir := a + ['_'] + b;
    var filename := dir + ['/'] + name;
    var word := "files";
    UnderscoreDirSubdirs(a, b, name);
    assert IsNested(filename);
    FilesWord();
    assert Join([dir, name], "_files_") == a + ['_'] + (b + ['_'] + (word + ['_'] + name));
    SplitFour(a, b, word, name);
    assert TrickPath(filename) == [a, b, word, name];
  }

  /** `a_b/name` has the two segments `a_b` and `name`. */
  lemma UnderscoreDirSubdirs(a: string, b: string, name: string)
    requires FreeOf(a, Separators) && FreeOf(b, Separators) && FreeOf(name, Separators)
    ensures Subdirs(a + ['_'] + b + ['/'] + name) == [a + ['_'] + b, name]
  {
    var dir := a + ['_'] + b;
    assert FreeOf(dir, Separators) by {
      assert forall t :: 0 <= t < |dir| ==> dir[t] == '_' || dir[t] in a || dir[t] in b;
    }
    SplitAtSeparator(dir, '/', name, Separators);
    SplitFree(dir, Separators);
    SplitFree(name, Separators);
  }

  /** Four `_`-free pieces joined by `_` split back into the four pieces. */
  lemma SplitFour(a: string, b: string, c: string, d: string)
    requires FreeOf(a, {'_'}) && FreeOf(b, {'_'}) && FreeOf(c, {'_'}) && FreeOf(d, {'_'})
    ensures Split(a + ['_'] + (b + ['_'] + (c + ['_'] + d)), {'_'}) == [a, b, c, d]
  {
    SplitAtSeparator(a, '_', b + ['_'] + (c + ['_'] + d), {'_'});
    SplitAtSeparator(b, '_', c + ['_'] + d, {'_'});
    SplitAtSeparator(c, '_', d, {'_'});
    SplitFree(a, {'_'});
    SplitFree(b, {'_'});
    SplitFree(c, {'_'});
    SplitFree(d, {'_'});
  }

  /**
   * What `join('_files_').split('_')` yields for any segments: the `_`-pieces
   * of each segment, with "files" between the pieces of consecutive segments.
   */
  function UnderscorePieces(segs: seq<string>): seq<string>
    requires 0 < |segs|
    decreases |segs|
  {
    if |segs| == 1 then Split(segs[0], {'_'})
    else Split(segs[0], {'_'}) + ["files"] + UnderscorePieces(segs[1..])
  }

  /** Joining with `_files_` and splitting at `_` gives the segments' `_`-pieces separated by "files". */
  lemma {:induction false} JoinFilesSplitPieces(segs: seq<string>)
    requires 0 < |segs|
    ensures Split(Join(segs, "_files_"), {'_'}) == UnderscorePieces(segs)
  {
    if |segs| > 1 {
      var rest := Join(segs[1..], "_files_");
      JoinFilesSplitPieces(segs[1..]);
      JoinFilesUnfold(segs);
      FilesWord();
      SplitAtSeparator(segs[0], '_', "files" + ['_'] + rest, {'_'});
      SplitFreeHead("files", '_', rest, {'_'});
    }
  }

  /**
   * Lines 89-94 for every nested filename: the root key is the first `_`-piece
   * of the first segment, and the property path is the remaining pieces, each
   * later segment contributing "files" followed by its own `_`-pieces.
   */
  lemma TrickPathPieces(filename: string, beforeWrite: string -> string)
    requires IsNested(filename)
    ensures TrickPath(filename) == UnderscorePieces(Subdirs(filename))
    ensures var pieces := UnderscorePieces(Subdirs(filename));
            Place(filename, beforeWrite) == Nested(pieces[0], pieces[1..])
  {
    JoinFilesSplitPieces(Subdirs(filename));
  }

  /**
   * A later segment holding `_` is broken too: `a/b_c` is stored under the
   * root key `a` at the path `files.b.c`, so its leaf is property `c` of the
   * object `b`, outside any `files` table.
   */
  lemma UnderscoreInLaterSegment(a: string, b: string, c: string, beforeWrite: string -> string)
    requires FreeOf(a, Separators + {'_'}) && FreeOf(b, Separators + {'_'}) && FreeOf(c, Separators + {'_'})
    ensures Place(a + ['/'] + (b + ['_'] + c), beforeWrite) == Nested(a, ["files", b, c])
  {
    var name := b + ['_'] + c;
    var filename := a + ['/'] + name;
    assert FreeOf(name, Separators) by {
      assert forall t :: 0 <= t < |name| ==> name[t] == '_' || name[t] in b || name[t] in c;
    }
    SplitAtSeparator(a, '/', name, Separators);
    SplitFree(a, Separators);
    SplitFree(name, Separators);
    assert Subdirs(filename) == [a, name];
    TrickPathPieces(filename, beforeWrite);
    SplitFree(a, {'_'});
    SplitFreeHead(b, '_', c, {'_'});
    SplitFree(c, {'_'});
    assert UnderscorePieces([a, name]) == [a] + ["files"] + [b, c];
  }

  /** For instance `test/my_file.js` goes under the root key "test", at `files.my.file.js`. */
  lemma UnderscoreLaterExample(beforeWrite: string -> string)
    ensures Place("test/my_file.js", beforeWrite) == Nested("test", ["files", "my", "file.js"])
  {
    UnderscoreInLaterSegment("test", "my", "file.js", beforeWrite);
    assert "test" + ['/'] + ("my" + ['_'] + "file.js") == "test/my_file.js";
  }

  /** For instance `my_dir/x.js` lands under the root key "my", at `dir.files.x.js`, not under "my_dir". */
  lemma UnderscoreExample(beforeWrite: string -> string)
    ensures Place("my_dir/x.js", beforeWrite) == Nested("my", ["dir", "files", "x.js"])
  {
    UnderscoreBreaksTrick("my", "dir", "x.js", beforeWrite);
    assert "my" + ['_'] + "dir" + ['/'] + "x.js" == "my_dir/x.js";
  }

  /** A filename without separators is placed flat under its `beforeWrite` name. */
  lemma FlatPlace(name: string, beforeWrite: string -> string)
    requires FreeOf(name, Separators)
    ensures Place(name, beforeWrite) == Flat(beforeWrite(name))
  {
    SplitFree(name, Separators);
  }

  /** `a/b`, with neither part holding a separator or `_`, goes under the root key `a` at `files.b`. */
  lemma TwoSegmentPlace(a: string, b: string, beforeWrite: string -> string)
    requires FreeOf(a, Separators + {'_'}) && FreeOf(b, Separators + {'_'})
    ensures Place(a + ['/'] + b, beforeWrite) == Nested(a, ["files", b])
  {
    var filename := a + ['/'] + b;
    SplitAtSeparator(a, '/', b, Separators);
    SplitFree(a, Separators);
    SplitFree(b, Separators);
    assert Subdirs(filename) == [a, b];
    TrickPathPieces(filename, beforeWrite);
    SplitFree(a, {'_'});
    SplitFree(b, {'_'});
    assert UnderscorePieces([a, b]) == [a] + ["files"] + [b];
  }

  // ---------------------------------------------------------------------------
  // Flat filenames: last write wins
  // ---------------------------------------------------------------------------

  /**
   * Two flat filenames that `beforeWrite` maps to the same name leave one entry,
   * the later one's, silently.
   */
  lemma FlatCollision(a: string, b: string, beforeWrite: string -> string, draws: nat -> Draw)
    requires !IsNested(a) && !IsNested(b)
    requires beforeWrite(a) == beforeWrite(b)
    ensures TrashFiles(Placements([a, b], beforeWrite), draws, 2) == map[beforeWrite(b) := Leaf(draws(1))]
  {
    var places := Placements([a, b], beforeWrite);
    assert places == [Flat(beforeWrite(a)), Flat(beforeWrite(b))];
    assert TrashFiles(places, draws, 1) == map[beforeWrite(a) := Leaf(draws(0))];
  }

  /**
   * Flat filenames whose transformed names are pairwise distinct give exactly
   * one root entry each, holding that filename's size and offset.
   */
  lemma FlatNamesOneEntryEach(names: seq<string>, beforeWrite: string -> string, draws: nat -> Draw)
    requires forall i :: 0 <= i < |names| ==> !IsNested(names[i])
    requires forall i, j :: 0 <= i < j < |names| ==> beforeWrite(names[i]) != beforeWrite(names[j])
    ensures var files := TrashFiles(Placements(names, beforeWrite), draws, |names|);
            && |files| == |names|
            && forall i :: 0 <= i < |names| ==> beforeWrite(names[i]) in files && files[beforeWrite(names[i])] == Leaf(draws(i))
  {
    var places := Placements(names, beforeWrite);
    assert forall i :: 0 <= i < |names| ==> places[i] == Flat(beforeWrite(names[i]));
    var files := TrashFiles(places, draws, |names|);
    TrashFilesKeys(places, draws, |names|);
    FlatKeysCount(places);
    forall i | 0 <= i < |names|
      ensures beforeWrite(names[i]) in files && files[beforeWrite(names[i])] == Leaf(draws(i))
    {
      FlatEntryKept(places, draws, i);
    }
  }

  /** Flat placements under pairwise distinct names have as many root keys as placements. */
  lemma FlatKeysCount(places: seq<Placement>)
    requires forall i, j :: 0 <= i < j < |places| ==> places[i].Key() != places[j].Key()
    ensures |PlaceKeys(places, |places|)| == |places|
  {
    var keys := seq(|places|, i requires 0 <= i < |places| => places[i].Key());
    DistinctNamesCount(keys);
    var roots := PlaceKeys(places, |places|);
    forall k | k in keys ensures k in roots {
      var i :| 0 <= i < |places| && keys[i] == k;
      assert k == places[i].Key();
    }
    forall k | k in roots ensures k in keys {
      var i :| 0 <= i < |places| && k == places[i].Key();
      assert keys[i] == k;
    }
    assert roots == set k | k in keys;
  }

  // ---------------------------------------------------------------------------
  // Nested filenames: the leaf is reachable, and entries accumulate
  // ---------------------------------------------------------------------------

  /**
   * True when every nested filename of the list whose root key is `k` has
   * segments free of `_`. Filenames under other root keys are unconstrained.
   */
  predicate PlainNestedAt(names: seq<string>, beforeWrite: string -> string, k: string) {
    forall j :: 0 <= j < |names| && IsNested(names[j]) && Place(names[j], beforeWrite).Key() == k
      ==> PlainSegments(names[j])
  }

  /** Without `_` in the nested filenames under root key `k`, their placements follow `files` paths. */
  lemma PlainNestedAtFilesPlaced(names: seq<string>, beforeWrite: string -> string, k: string)
    requires PlainNestedAt(names, beforeWrite, k)
    ensures FilesPlacedAt(Placements(names, beforeWrite), k)
  {
    var places := Placements(names, beforeWrite);
    forall j | 0 <= j < |places| && places[j].Nested? && places[j].parent == k
      ensures 0 < |places[j].path| && IsFilesPath(places[j].path)
    {
      TrickPathOfPlainSegments(names[j], beforeWrite);
      FilesPathIsFilesPath(Subdirs(names[j])[1..]);
    }
  }

  /**
   * A filename `s1/.../sk` whose segments hold no `_` ends up at
   * `header.files.s1.files.s2 ... .files.sk`, provided the nested filenames
   * sharing its root key `s1` hold no `_` either, and every later filename
   * writing `s1` is nested along a path that parts from this one. So nested
   * filenames sharing a first segment accumulate in the same root object
   * (line 97 reuses it) instead of replacing each other; filenames under
   * other root keys do not matter.
   */
  lemma NestedEntryReachable(names: seq<string>, beforeWrite: string -> string, draws: nat -> Draw, i: nat)
    requires i < |names|
    requires IsNested(names[i]) && PlainSegments(names[i])
    requires PlainNestedAt(names, beforeWrite, Subdirs(names[i])[0])
    requires forall j :: i < j < |names| && Place(names[j], beforeWrite).Key() == Subdirs(names[i])[0]
               ==> IsNested(names[j]) && Diverges(Subdirs(names[i]), Subdirs(names[j]))
    ensures Lookup(HeaderObject(TrashFiles(Placements(names, beforeWrite), draws, |names|)), FilesPath(Subdirs(names[i])))
         == Some(Leaf(draws(i)))
  {
    var places := Placements(names, beforeWrite);
    var segs := Subdirs(names[i]);
    TrickPathOfPlainSegments(names[i], beforeWrite);
    PlainNestedAtFilesPlaced(names, beforeWrite, segs[0]);
    LaterPlacementsPart(names, beforeWrite, i);
    NestedLeafKept(places, draws, i, |names|);
    LookupUnderHeader(TrashFiles(places, draws, |names|), segs, Leaf(draws(i)));
  }

  /** The filename-level condition of `NestedEntryReachable`, stated on placements. */
  lemma LaterPlacementsPart(names: seq<string>, beforeWrite: string -> string, i: nat)
    requires i < |names|
    requires IsNested(names[i]) && PlainSegments(names[i])
    requires PlainNestedAt(names, beforeWrite, Subdirs(names[i])[0])
    requires forall j :: i < j < |names| && Place(names[j], beforeWrite).Key() == Subdirs(names[i])[0]
               ==> IsNested(names[j]) && Diverges(Subdirs(names[i]), Subdirs(names[j]))
    ensures var places := Placements(names, beforeWrite);
            forall j :: i < j < |places| && places[j].Key() == Subdirs(names[i])[0]
              ==> places[j].Nested? && Diverges(places[j].path, FilesPath(Subdirs(names[i])[1..]))
  {
    var places := Placements(names, beforeWrite);
    var segs := Subdirs(names[i]);
    forall j | i < j < |places| && places[j].Key() == segs[0]
      ensures places[j].Nested? && Diverges(places[j].path, FilesPath(segs[1..]))
    {
      var other := Subdirs(names[j]);
      TrickPathOfPlainSegments(names[j], beforeWrite);
      assert Diverges(other[1..], segs[1..]) by {
        DivergesSymmetric(segs, other);
      }
      FilesPathDiverges(other[1..], segs[1..]);
    }
  }

  /** Looking up `files.s1.files.s2 ...` in a header object goes through the root entry `s1`. */
  lemma LookupUnderHeader(files: map<string, Value>, segs: seq<string>, y: Value)
    requires 0 < |segs|
    requires segs[0] in files && Lookup(files[segs[0]], FilesPath(segs[1..])) == Some(y)
    ensures Lookup(HeaderObject(files), FilesPath(segs)) == Some(y)
  {
    var path := FilesPath(segs);
    assert path[1..] == Interleaved(segs);
    assert path[1..][1..] == FilesPath(segs[1..]);
  }

  /** Segment lists that part give `files` paths that part. */
  lemma {:induction false} FilesPathDiverges(a: seq<string>, b: seq<string>)
    requires Diverges(a, b)
    ensures Diverges(FilesPath(a), FilesPath(b))
    decreases |a|
  {
    var pa, pb := FilesPath(a), FilesPath(b);
    assert pa[1..] == Interleaved(a);
    assert pb[1..] == Interleaved(b);
    if a[0] == b[0] {
      FilesPathDiverges(a[1..], b[1..]);
      assert pa[1..][1..] == FilesPath(a[1..]);
      assert pb[1..][1..] == FilesPath(b[1..]);
    }
  }

  // ---------------------------------------------------------------------------
  // The companion list agrees with the header
  // ---------------------------------------------------------------------------

  /**
   * With `generate` set the companion list holds one record per filename, in
   * order; without it the list is empty.
   */
  lemma {:induction false} CompanionShape(names: seq<string>, beforeWrite: string -> string,
                                          includeData: Option<IncludeData>, draws: nat -> Draw, n: nat)
    requires n <= |names|
    ensures var c := Companion(names, beforeWrite, includeData, draws, n);
            && (!Generate(includeData) ==> c == [])
            && (Generate(includeData) ==> |c| == n)
            && (Generate(includeData) ==>
                  forall i :: 0 <= i < n ==> c[i] == CompanionRecord(names[i], beforeWrite, includeData, draws(i)))
  {
    if n > 0 && Generate(includeData) {
      CompanionShape(names, beforeWrite, includeData, draws, n - 1);
    }
  }

  /**
   * Record `i` of the companion list is named `beforeWrite(names[i])`, and its
   * numeric offset is the number that the header leaf's offset string, written
   * from the same draw, reads back as.
   */
  lemma CompanionMatchesLeaf(names: seq<string>, beforeWrite: string -> string,
                             includeData: Option<IncludeData>, draws: nat -> Draw, i: nat)
    requires Generate(includeData) && i < |names|
    ensures |Companion(names, beforeWrite, includeData, draws, |names|)| == |names|
    ensures var c := Companion(names, beforeWrite, includeData, draws, |names|)[i];
            var offset := Leaf(draws(i)).props["offset"].s;
            && c.name == beforeWrite(names[i])
            && AllDigits(offset)
            && DecimalValue(offset) == c.offset
  {
    CompanionShape(names, beforeWrite, includeData, draws, |names|);
    DecimalRoundTrip(draws(i).offset);
  }
}
