/**
 * The two patch builders of src/patch.ts.
 *
 * Both fill a `files` table step by step and return it as the header of a
 * `Patch`. The random sources they call are injected:
 *  - `crypto.randomBytes(30).toString('hex')` becomes a finite sequence of
 *    candidate names, consumed one per call;
 *  - the per-filename draws of the trash builder (`size`, `offset` and the
 *    payload length) become a stream `draws: nat -> Draw`, entry `i` serving
 *    the `i`-th filename.
 */
module Patch {
  import opened Asar
  import opened JsStrings
  import opened Helpers

  /**
   * `Patch = Partial<Archive> & { files?: ArchiveFile[] }`. The header is kept
   * as the runtime object the builders return (see `Asar.IsEntryObject` for
   * when it reads as a typed `Header`).
   */
  datatype Patch = Patch(headerSize: Option<int>, header: Option<Value>, files: Option<seq<ArchiveFile>>)

  // ---------------------------------------------------------------------------
  // createBloatPatch
  // ---------------------------------------------------------------------------

  /** One gibibyte, the size every bloat entry declares. */
  const GiB: int := 1024 * 1024 * 1024

  /** The default of the `gigabytes` parameter. */
  const DefaultGigabytes: int := 10

  /** The entry every bloat file gets: `{ offset: '0', size: 1 * 1024 * 1024 * 1024 }`. */
  const BloatFile: File := File(GiB, "0")

  /** How many times the loop `for (let i = 0; i < gigabytes; i++)` runs. */
  function BloatCount(gigabytes: Option<int>): nat
  {
    var g := if gigabytes.None? then DefaultGigabytes else gigabytes.value;
    if g < 0 then 0 else g
  }

  /** The distinct elements of `s`, in order of first occurrence. */
  function Distinct(s: seq<string>): seq<string>
    decreases |s|
  {
    if |s| == 0 then []
    else
      var d := Distinct(s[..|s| - 1]);
      if s[|s| - 1] in d then d else d + [s[|s| - 1]]
  }

  /** `Distinct(s)` holds exactly the names of `s`, each once. */
  lemma {:induction false} DistinctSpec(s: seq<string>)
    ensures forall x :: x in Distinct(s) <==> x in s
    ensures forall i, j :: 0 <= i < j < |Distinct(s)| ==> Distinct(s)[i] != Distinct(s)[j]
    decreases |s|
  {
    if |s| > 0 {
      var init := s[..|s| - 1];
      DistinctSpec(init);
      assert s == init + [s[|s| - 1]];
    }
  }

  /** A flat table holding the bloat entry under each of `names`. */
  function BloatFiles(names: seq<string>): map<string, Value>
  {
    map n | n in names :: FileValue(BloatFile)
  }

  /**
   * `createBloatPatch(gigabytes)`. Candidate names are taken from `candidates`
   * in order; a candidate already in the table is dropped and the next one is
   * drawn, so the names inserted are the first `BloatCount(gigabytes)` distinct
   * candidates. The precondition says the candidates hold that many distinct
   * names: it is exactly the condition under which the source's retry loop
   * ends.
   */
  method CreateBloatPatch(gigabytes: Option<int>, candidates: seq<string>) returns (p: Patch)
    requires BloatCount(gigabytes) <= |Distinct(candidates)|
    ensures p.headerSize == None && p.files == None
    ensures p.header == Some(HeaderObject(BloatFiles(Distinct(candidates)[..BloatCount(gigabytes)])))
  {
    var g := if gigabytes.None? then DefaultGigabytes else gigabytes.value;
    var files: map<string, Value> := map[];
    var next := 0;
    ghost var seen: seq<string> := [];
    var i := 0;
    while i < g
      invariant 0 <= i <= BloatCount(gigabytes)
      invariant next <= |candidates|
      invariant seen == Distinct(candidates[..next]) && |seen| == i
      invariant files == BloatFiles(seen)
    {
      DistinctWhole(candidates, next);
      var filename := candidates[next];
      next := next + 1;
      while filename in files
        invariant 0 < next <= |candidates|
        invariant filename == candidates[next - 1]
        invariant Distinct(candidates[..next - 1]) == seen
        decreases |candidates| - next
      {
        DistinctSnoc(candidates, next);
        DistinctWhole(candidates, next);
        filename := candidates[next];
        next := next + 1;
      }
      DistinctSnoc(candidates, next);
      BloatFilesSnoc(seen, filename);
      files := files[filename := FileValue(BloatFile)];
      seen := seen + [filename];
      i := i + 1;
    }
    DistinctPrefix(candidates, next);
    p := Patch(None, Some(HeaderObject(files)), None);
  }

  /** One more name adds its bloat entry. */
  lemma BloatFilesSnoc(names: seq<string>, x: string)
    ensures BloatFiles(names + [x]) == BloatFiles(names)[x := FileValue(BloatFile)]
  {
  }

  /** Extending the prefix by one candidate adds it to the distinct names exactly when it is new. */
  lemma DistinctSnoc(s: seq<string>, k: nat)
    requires 0 < k <= |s|
    ensures Distinct(s[..k]) == if s[k - 1] in Distinct(s[..k - 1]) then Distinct(s[..k - 1])
                                else Distinct(s[..k - 1]) + [s[k - 1]]
  {
    assert s[..k][..k - 1] == s[..k - 1];
  }

  /** The whole sequence, taken as a prefix, has all the distinct names. */
  lemma DistinctWhole(s: seq<string>, k: nat)
    requires k <= |s|
    ensures k == |s| ==> Distinct(s[..k]) == Distinct(s)
  {
    if k == |s| {
      assert s[..k] == s;
    }
  }

  /** The distinct names of a prefix are a prefix of the distinct names of the whole. */
  lemma {:induction false} DistinctPrefix(s: seq<string>, k: nat)
    requires k <= |s|
    ensures |Distinct(s[..k])| <= |Distinct(s)|
    ensures Distinct(s[..k]) == Distinct(s)[..|Distinct(s[..k])|]
    decreases |s| - k
  {
    if k == |s| {
      assert s[..k] == s;
    } else {
      DistinctPrefix(s, k + 1);
      DistinctSnoc(s, k + 1);
    }
  }

  /** Distinct names give a table with exactly one key per name. */
  lemma {:induction false} DistinctNamesCount(names: seq<string>)
    requires forall i, j :: 0 <= i < j < |names| ==> names[i] != names[j]
    ensures |set n | n in names| == |names|
  {
    if |names| > 0 {
      var init := names[..|names| - 1];
      DistinctNamesCount(init);
      assert (set n | n in names) == (set n | n in init) + {names[|names| - 1]};
    }
  }

  /**
   * The header of a bloat patch: exactly `count` entries under pairwise
   * distinct names (one per loop iteration, none overwritten), each declaring
   * one gibibyte at offset "0", the decimal numeral of 0.
   */
  lemma BloatPatchShape(gigabytes: Option<int>, candidates: seq<string>)
    requires BloatCount(gigabytes) <= |Distinct(candidates)|
    ensures var files := BloatFiles(Distinct(candidates)[..BloatCount(gigabytes)]);
      && |files| == BloatCount(gigabytes)
      && (forall n :: n in files ==> files[n] == FileValue(File(1073741824, Decimal(0))))
      && (forall n :: n in files ==> n in candidates)
  {
    var names := Distinct(candidates)[..BloatCount(gigabytes)];
    DistinctSpec(candidates);
    DistinctNamesCount(names);
    assert BloatFiles(names).Keys == set n | n in names;
  }

  /** Without an argument the builder inserts ten entries, not the hundred its comment speaks of. */
  lemma BloatDefaultCount()
    ensures BloatCount(None) == 10
  {
  }

  /** A bloat header reads unambiguously as a typed header of one-gibibyte files. */
  lemma BloatHeaderIsTyped(names: seq<string>)
    ensures IsEntryObject(HeaderObject(BloatFiles(names)))
    ensures AsEntry(HeaderObject(BloatFiles(names)))
         == HeaderEntry(Header(map n | n in names :: FileEntry(BloatFile)))
  {
    var files := BloatFiles(names);
    forall n | n in files
      ensures IsEntryObject(files[n]) && AsEntry(files[n]) == FileEntry(BloatFile)
    {
      AsEntryOfEntryValue(FileEntry(BloatFile));
    }
    HeaderObjectReads(files);
    assert (map k | k in files :: AsEntry(files[k])) == map n | n in names :: FileEntry(BloatFile);
  }

  // ---------------------------------------------------------------------------
  // createTrashPatch: options and their defaults
  // ---------------------------------------------------------------------------

  /** `options.includeData`: both fields optional. */
  datatype IncludeData = IncludeData(generate: Option<bool>, maxFileSize: Option<int>)

  /** The options object of `createTrashPatch`; the builder writes its defaults back into it. */
  class TrashOptions {
    var filenames: Option<seq<string>>
    var beforeWrite: Option<string -> string>
    var includeData: Option<IncludeData>

    constructor (filenames: Option<seq<string>>, beforeWrite: Option<string -> string>, includeData: Option<IncludeData>)
      ensures this.filenames == filenames && this.beforeWrite == beforeWrite && this.includeData == includeData
    {
      this.filenames := filenames;
      this.beforeWrite := beforeWrite;
      this.includeData := includeData;
    }
  }

  /** The filenames used when none (or an empty list) are given. */
  const DefaultFilenames: seq<string> := [
    "license",
    "production",
    "development",
    "staging",
    "secrets",
    "test/test1.js",
    "test/test2.js",
    "test/test3.js"
  ]

  /** The default `beforeWrite`, `(f) => f`. */
  function Identity(f: string): string { f }

  /** The filenames after the default is applied: a missing or empty list is replaced. */
  function EffectiveFilenames(filenames: Option<seq<string>>): (r: seq<string>)
    ensures |r| > 0
    ensures filenames.Some? && filenames.value != [] ==> r == filenames.value
  {
    if filenames.None? || |filenames.value| == 0 then DefaultFilenames else filenames.value
  }

  /** The `beforeWrite` after the default is applied. */
  function EffectiveBeforeWrite(beforeWrite: Option<string -> string>): string -> string
  {
    if beforeWrite.None? then Identity else beforeWrite.value
  }

  /**
   * Lines 61-73: a missing options object becomes a fresh empty one; a missing
   * or empty `filenames` becomes the eight default names, in order; a missing
   * `beforeWrite` becomes the identity. The caller's object is updated in place
   * and `includeData` is left as it was.
   */
  method ApplyTrashDefaults(options: TrashOptions?) returns (o: TrashOptions)
    modifies options
    ensures options != null ==> o == options && o.includeData == old(options.includeData)
    ensures options == null ==> fresh(o) && o.includeData == None
    ensures options == null ==> o.filenames == Some(DefaultFilenames)
    ensures options != null && (old(options.filenames).None? || old(options.filenames) == Some([]))
            ==> o.filenames == Some(DefaultFilenames)
    ensures options != null && old(options.filenames).Some? && old(options.filenames) != Some([])
            ==> o.filenames == old(options.filenames)
    ensures options == null ==> o.beforeWrite == Some(Identity)
    ensures options != null && old(options.beforeWrite).None? ==> o.beforeWrite == Some(Identity)
    ensures options != null && old(options.beforeWrite).Some? ==> o.beforeWrite == old(options.beforeWrite)
  {
    if options == null {
      o := new TrashOptions(None, None, None);
    } else {
      o := options;
    }
    if o.filenames.None? || |o.filenames.value| == 0 {
      o.filenames := Some(DefaultFilenames);
    }
    if o.beforeWrite.None? {
      o.beforeWrite := Some(Identity);
    }
  }

  /** `options.includeData?.generate` is truthy. */
  predicate Generate(includeData: Option<IncludeData>) {
    includeData.Some? && includeData.value.generate == Some(true)
  }

  /** The lower bound handed to `random` for the payload size: `1e5`. */
  const MinFileSize: int := 100000

  /** The upper bound used when `maxFileSize` is missing or 0: `1e6`. */
  const DefaultMaxFileSize: int := 1000000

  /** `options.includeData?.maxFileSize || 1e6`: a missing or zero bound falls back to 1e6. */
  function MaxFileSize(includeData: Option<IncludeData>): (r: int)
    ensures r != 0
    ensures includeData.Some? && includeData.value.maxFileSize.Some? && includeData.value.maxFileSize.value != 0
            ==> r == includeData.value.maxFileSize.value
  {
    if includeData.Some? && includeData.value.maxFileSize.Some? && includeData.value.maxFileSize.value != 0
    then includeData.value.maxFileSize.value
    else DefaultMaxFileSize
  }

  // ---------------------------------------------------------------------------
  // createTrashPatch: the per-filename step
  // ---------------------------------------------------------------------------

  /** `Math.floor(Math.random() * (Math.pow(2, 32) - 1))`: an integer in [0, 2^32 - 2]. */
  type Offset = n: nat | n < 0xFFFF_FFFF

  /**
   * What the random sources yield for one filename: the entry's `size`, its
   * `offset`, and the payload length `random` returns for given bounds.
   */
  datatype Draw = Draw(size: int, offset: Offset, fileSize: (int, int) -> int)

  /** The header entry written for a draw: `{ size, offset: offset.toString() }`. */
  function Leaf(d: Draw): Value
  {
    FileValue(File(d.size, Decimal(d.offset)))
  }

  /** The path separators of `/[/\\]/`. */
  const Separators: set<char> := {'/', '\\'}

  /** Line 89: the segments of a filename, split at every `/` or `\\`. */
  function Subdirs(filename: string): (segs: seq<string>)
    ensures 0 < |segs|
  {
    Split(filename, Separators)
  }

  /** True when the filename contains a separator and is placed in a directory. */
  predicate IsNested(filename: string) {
    1 < |Subdirs(filename)|
  }

  /** Line 91: `subdirs.join('_files_').split('_')`. */
  function TrickPath(filename: string): (path: seq<string>)
    ensures 0 < |path|
  {
    Split(Join(Subdirs(filename), "_files_"), {'_'})
  }

  /**
   * Where one filename's entry goes in the root table: a flat filename under
   * its transformed name; a nested one inside the root object `parent`, along
   * the property path `path`.
   */
  datatype Placement = Flat(name: string) | Nested(parent: string, path: seq<string>)
  {
    /** The key of the root table the entry is written under. */
    function Key(): string {
      if Flat? then name else parent
    }
  }

  /** Lines 89-94 and 112: the placement of a filename. */
  function Place(filename: string, beforeWrite: string -> string): Placement
  {
    if IsNested(filename) then
      var path := TrickPath(filename);
      Nested(path[0], path[1..])
    else
      Flat(beforeWrite(filename))
  }

  /** The placements of all filenames, in order. */
  function Placements(names: seq<string>, beforeWrite: string -> string): (places: seq<Placement>)
    ensures |places| == |names|
  {
    seq(|names|, i requires 0 <= i < |names| => Place(names[i], beforeWrite))
  }

  /**
   * One iteration of the loop of lines 80-121, on the root table. A nested
   * filename reuses the object already under its parent key when that value is
   * truthy (line 97), stores the leaf inside it along its path and writes it
   * back (line 107); a flat one stores the leaf under its transformed name
   * (line 112), replacing whatever was there.
   */
  function TrashStep(files: map<string, Value>, place: Placement, d: Draw): map<string, Value>
  {
    match place
    case Flat(name) => files[name := Leaf(d)]
    case Nested(parent, path) =>
      var obj := if parent in files && Truthy(files[parent]) then files[parent] else Obj(map[]);
      files[parent := CreateNestedObject(obj, path, Leaf(d))]
  }

  /** The root table after the first `n` placements. */
  function TrashFiles(places: seq<Placement>, draws: nat -> Draw, n: nat): map<string, Value>
    requires n <= |places|
  {
    if n == 0 then map[]
    else TrashStep(TrashFiles(places, draws, n - 1), places[n - 1], draws(n - 1))
  }

  /** The companion record of one filename: its transformed name, a payload, and the numeric offset. */
  function CompanionRecord(filename: string, beforeWrite: string -> string, includeData: Option<IncludeData>, d: Draw)
    : ArchiveFile
  {
    ArchiveFile(beforeWrite(filename), RandomBytes(d.fileSize(MinFileSize, MaxFileSize(includeData))), d.offset)
  }

  /** The companion list after the first `n` filenames: one record each when generating, else none. */
  function Companion(names: seq<string>, beforeWrite: string -> string, includeData: Option<IncludeData>,
                     draws: nat -> Draw, n: nat): seq<ArchiveFile>
    requires n <= |names|
  {
    if n == 0 || !Generate(includeData) then []
    else Companion(names, beforeWrite, includeData, draws, n - 1) + [CompanionRecord(names[n - 1], beforeWrite, includeData, draws(n - 1))]
  }

  /**
   * Lines 81-120: the body of the loop for one filename. It writes the leaf
   * into the root table where the filename's placement says, and appends the
   * filename's record to the companion list when generating.
   */
  method TrashEntry(files: map<string, Value>, createableFiles: seq<ArchiveFile>, filename: string,
                    beforeWrite: string -> string, includeData: Option<IncludeData>, d: Draw)
    returns (files': map<string, Value>, createableFiles': seq<ArchiveFile>)
    ensures files' == TrashStep(files, Place(filename, beforeWrite), d)
    ensures createableFiles' == createableFiles
            + (if Generate(includeData) then [CompanionRecord(filename, beforeWrite, includeData, d)] else [])
  {
    var fileName := beforeWrite(filename);
    var size := d.size;
    var offset := d.offset;
    var fileSize := d.fileSize(MinFileSize, MaxFileSize(includeData));
    files' := files;
    createableFiles' := createableFiles;
    var subdirs := Split(filename, Separators);
    if |subdirs| > 1 {
      subdirs := Split(Join(subdirs, "_files_"), {'_'});
      var parent := subdirs[0];
      subdirs := subdirs[1..];
      var obj := if parent in files' && Truthy(files'[parent]) then files'[parent] else Obj(map[]);
      obj := CreateNestedObject(obj, subdirs, FileValue(File(size, Decimal(offset))));
      if Generate(includeData) {
        createableFiles' := createableFiles' + [ArchiveFile(fileName, RandomBytes(fileSize), offset)];
      }
      files' := files'[parent := obj];
    } else {
      files' := files'[fileName := FileValue(File(size, Decimal(offset)))];
      if Generate(includeData) {
        createableFiles' := createableFiles' + [ArchiveFile(fileName, RandomBytes(fileSize), offset)];
      }
    }
  }

  /**
   * Lines 76-126, once the defaults are in place: fill the root table and the
   * companion list filename by filename and return them as the patch.
   */
  method BuildTrashPatch(filenames: seq<string>, beforeWrite: string -> string,
                         includeData: Option<IncludeData>, draws: nat -> Draw) returns (p: Patch)
    ensures p.headerSize == None
    ensures p.header == Some(HeaderObject(TrashFiles(Placements(filenames, beforeWrite), draws, |filenames|)))
    ensures p.files == Some(Companion(filenames, beforeWrite, includeData, draws, |filenames|))
  {
    var files: map<string, Value> := map[];
    var createableFiles: seq<ArchiveFile> := [];
    ghost var places := Placements(filenames, beforeWrite);
    for i := 0 to |filenames|
      invariant files == TrashFiles(places, draws, i)
      invariant createableFiles == Companion(filenames, beforeWrite, includeData, draws, i)
    {
      files, createableFiles := TrashEntry(files, createableFiles, filenames[i], beforeWrite, includeData, draws(i));
    }
    p := Patch(None, Some(HeaderObject(files)), Some(createableFiles));
  }

  /**
   * `createTrashPatch(options)`: apply the defaults to the options object (in
   * place), then build the patch from the completed options.
   */
  method CreateTrashPatch(options: TrashOptions?, draws: nat -> Draw) returns (p: Patch)
    modifies options
    ensures var names := EffectiveFilenames(if options == null then None else old(options.filenames));
            var bw := EffectiveBeforeWrite(if options == null then None else old(options.beforeWrite));
            var incl := if options == null then None else old(options.includeData);
            && p.headerSize == None
            && p.header == Some(HeaderObject(TrashFiles(Placements(names, bw), draws, |names|)))
            && p.files == Some(Companion(names, bw, incl, draws, |names|))
    ensures options != null ==> && options.filenames == Some(EffectiveFilenames(old(options.filenames)))
                                && options.beforeWrite == Some(EffectiveBeforeWrite(old(options.beforeWrite)))
                                && options.includeData == old(options.includeData)
  {
    var o := ApplyTrashDefaults(options);
    p := BuildTrashPatch(o.filenames.value, o.beforeWrite.value, o.includeData, draws);
  }
}
