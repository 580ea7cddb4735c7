# asarmor patch builders in Dafny

asarmor protects Electron `.asar` archives by patching their header, the
JSON table that tells `asar` where each file's bytes live. This project models
the two header-patch builders of `src/patch.ts` over the header data model of
`src/asar.ts`, and proves what the builders produce.

- `createBloatPatch(gigabytes)` draws random names until it has `gigabytes`
  distinct ones. Each gets a flat entry declaring one gibibyte at offset `"0"`.
- `createTrashPatch(options)` first writes defaults into the options object.
  Then it walks the filenames. A filename without a path separator is stored
  flat under `beforeWrite(filename)`. A filename with separators is split into
  segments, which are rewritten by the `join('_files_').split('_')` trick. The
  leaf is stored inside the root object named after the first piece, reusing
  that object when it already exists. When `includeData.generate` is set, it
  also collects a companion list of `(name, data, offset)` records.

Modules, one per file:

- `Asar` (`asar.dfy`): the interfaces `File`, `FileEntries`, `Header`,
  `ArchiveFile` and `Archive` as datatypes. Also `Value`, the runtime
  JavaScript object a builder stores. Writing a typed entry as a runtime
  object and reading it back are proved inverse.
- `JsStrings` (`jsstrings.dfy`): the string built-ins the builders use.
  These are `split` on a one-character class, `join`, and `toString` of a
  non-negative integer. Split/join and print/read round trips are proved.
- `Helpers` (`helpers.dfy`): `createNestedObject` from `src/helpers.ts`. That
  file is not part of this model, so the helper is given one reading on
  values, and its lemmas claim only what the call site relies on.
- `Patch` (`patch.dfy`): both builders as imperative methods, including the
  options class mutated in place. Each method is proved against a
  specification function: `BloatFiles`/`Distinct`, `TrashFiles`/`Companion`.
- `TrashTable` (`trash_table.dfy`) and `TrashProperties`
  (`trash_properties.dfy`): what those specification functions hold. Topics:
  - which keys the table holds;
  - last write wins for flat names;
  - the exact path the `_files_` trick produces, and how `_` breaks it;
  - nested names accumulating in one root object;
  - companion records agreeing with header offsets.

Randomness is injected:

- The bloat builder's `randomBytes(30).toString('hex')` calls become a finite
  sequence of candidate names.
- The trash builder's per-filename draws (`size`, `offset`, payload length)
  become a stream `draws: nat -> Draw`.

Facts of `src/patch.ts` worth stating plainly:

- The default filename list has eight names (src/patch.ts:63-72).
- The lower payload bound is the constant `1e5` (src/patch.ts:85); only the
  upper bound can be configured.
- A nested filename reuses whatever truthy value is already under its parent
  key, a file object included (src/patch.ts:97).
- The default bloat count is 10 (src/patch.ts:14), although the doc comment
  at src/patch.ts:12 speaks of 100 GB. Likewise the "8MB" comment at
  src/patch.ts:84 does not match the `1e6` default upper bound.

## Model

| member | source | states |
|---|---|---|
| Asar.FileObjectReads | src/asar.ts:1-11 | The runtime object `{size, offset}` of a `File` has exactly those two keys, with a number and a string, and reads back as that file. |
| Asar.HeaderObjectReads | src/asar.ts:17-19 | An object `{files: children}` whose children all read as entries reads as a `Header` holding their readings, key for key. |
| Asar.AsEntryOfEntryValue | src/asar.ts:13-19 | Every typed entry (a file or a nested header) written as a runtime object reads back as the same entry. |
| Asar.HeaderValueReads | src/asar.ts:17-19 | The header case of the round trip: a nested header reads back as itself, every child included. |
| Asar.EntryValueOfAsEntry | src/asar.ts:13-19 | Conversely, every runtime object that reads as an entry is exactly the object written for that entry. The typed and runtime views agree. |
| Asar.FileObjectWritesBack | src/asar.ts:1-11 | The file case of the converse: a file object is rebuilt exactly. |
| Asar.HeaderObjectWritesBack | src/asar.ts:13-19 | The header case of the converse: every child is rebuilt exactly, so the names in a directory are kept one to one. |
| Helpers.Truthy | src/patch.ts:97 | JavaScript truthiness of a stored value, deciding whether `files[parent] || {}` reuses it. |
| Helpers.CreateNestedObject | src/patch.ts:98 | The nested store on values. The three lemmas below state what the call site relies on. |
| Helpers.CreateNestedObjectTop | src/patch.ts:97-98 | On an object, the nested store adds the first path name to the top-level keys and keeps every other top-level value. |
| Helpers.CreateNestedObjectStores | src/patch.ts:91-98 | When every node on the walk is an object, the leaf is found along the whole path afterwards. |
| Helpers.CreateNestedObjectKeeps | src/patch.ts:97-98 | A value found along a path that parts from the stored path is still found there afterwards. |
| JsStrings.Split | src/patch.ts:89 | `split` yields one more piece than there are separator characters, and no piece contains a separator. |
| JsStrings.SplitFree | src/patch.ts:89-90 | A string without separators splits into itself alone, so it is not nested. |
| JsStrings.SplitAtSeparator | src/patch.ts:91 | Splitting at a separator character splits the two sides independently. |
| JsStrings.SplitFreeHead | src/patch.ts:91 | A separator-free prefix before a separator becomes the first piece. |
| JsStrings.Join | src/patch.ts:91 | `join`: `JoinSplit` and `SplitJoin` state that it is inverse to `split` on a one-character separator. |
| JsStrings.JoinSplit | src/patch.ts:91 | Joining the pieces of a split with the separator gives the original string. |
| JsStrings.SplitJoin | src/patch.ts:91 | Splitting a join of separator-free parts gives the parts back. |
| JsStrings.DigitChar | src/patch.ts:98 | The character of a digit is in `'0'..'9'` and denotes that digit. |
| JsStrings.Decimal | src/patch.ts:98 | `offset.toString()`. `DecimalIsNumeral`, `DecimalRoundTrip` and `DecimalInjective` state its properties. |
| JsStrings.DecimalIsNumeral | src/patch.ts:98 | `offset.toString()` is a non-empty string of digits with no leading zero. |
| JsStrings.DecimalRoundTrip | src/patch.ts:98 | Reading the decimal string of an offset gives the offset back. |
| JsStrings.DecimalInjective | src/patch.ts:112 | Two offsets have the same decimal string exactly when they are equal. |
| Patch.CreateBloatPatch | src/patch.ts:14-31 | The result sets only `header`. Its table maps each of the first `count` distinct candidate names, in draw order, to the one-gibibyte entry at offset "0". The retry loop drops every candidate already in the table. |
| Patch.Distinct | src/patch.ts:19-21 | The names the retry loop keeps: the candidates in draw order, each repeat dropped. `DistinctSpec` states that they are exactly the candidates, each once, and `DistinctPrefix` that a longer draw only extends them. |
| Patch.DistinctPrefix | src/patch.ts:17-24 | The names kept after part of the draw are a prefix of those kept after all of it. |
| Patch.BloatFiles | src/patch.ts:17-24 | The table of lines 17-24: every kept name maps to the one-gibibyte entry. `BloatPatchShape` states its size and entries, and `BloatHeaderIsTyped` its reading as a typed `Header`. |
| Patch.DistinctSpec | src/patch.ts:19-21 | The names kept by the retry loop are exactly the candidates, each once. |
| Patch.BloatPatchShape | src/patch.ts:17-24 | The bloat table has exactly `count` keys (`gigabytes` when it is a non-negative integer, 10 when absent). All keys are drawn candidates, and every entry is `{size: 1073741824, offset: "0"}`. |
| Patch.BloatDefaultCount | src/patch.ts:12-14 | Without an argument the table gets 10 entries. |
| Patch.BloatHeaderIsTyped | src/patch.ts:23-29 | The bloat header reads as a typed `Header` whose entries are all the one-gibibyte `File`. |
| Patch.TrashOptions.constructor | src/patch.ts:38-60 | A new options object holds the three given optional fields. |
| Patch.EffectiveFilenames | src/patch.ts:62-72 | The filename list after defaults is never empty. A given non-empty list is kept as is. |
| Patch.EffectiveBeforeWrite | src/patch.ts:73 | The `beforeWrite` after defaults: the given function, or `Identity` when none is given. `ApplyTrashDefaults` and `CreateTrashPatch` state that this is what the options object holds afterwards. |
| Patch.Identity | src/patch.ts:73 | The default `(f) => f`. With it, `FlatPlace` puts a flat filename under its own name. |
| Patch.ApplyTrashDefaults | src/patch.ts:61-73 | A missing options object becomes a fresh one. A missing or empty `filenames` becomes the eight defaults, in order. A missing `beforeWrite` becomes the identity. Given values are kept, the caller's object is updated in place, and `includeData` is untouched. |
| Patch.Subdirs | src/patch.ts:89 | A filename splits into at least one segment. |
| Patch.TrickPath | src/patch.ts:91 | The rewritten segment list is never empty, so `shift()` always yields a parent. |
| Patch.Placements | src/patch.ts:80 | There is one placement per filename. |
| Patch.IsNested | src/patch.ts:90 | `subdirs.length > 1`: the filename has a separator. `SplitFree` and `FlatPlace` state that a separator-free name is flat. |
| Patch.Leaf | src/patch.ts:98 | The entry `{ size, offset: offset.toString() }` written for a draw (lines 98 and 112). `CompanionMatchesLeaf` relates its offset string to the companion record. |
| Patch.Place | src/patch.ts:89-112 | Where one filename's entry goes: flat under `beforeWrite(filename)`, or nested under the first piece of the trick along the rest. `TrickPathPieces`, `TrickPathOfPlainSegments` and the underscore lemmas state what it yields. |
| Patch.TrashStep | src/patch.ts:97-112 | One iteration on the root table, including the reuse of a truthy existing parent value. `TrashStepWritesKey`, `StepStoresNested`, `StepKeepsOtherRoot` and `StepKeepsSameRoot` state its effect. |
| Patch.TrashFiles | src/patch.ts:80-121 | The root table after the first `n` filenames. `TrashFilesKeys`, `TrashFilesUntouched`, `FlatEntryKept` and `NestedLeafKept` state what it holds. |
| Patch.CompanionRecord | src/patch.ts:100-104 | The record pushed for one filename: its `beforeWrite` name, a payload drawn with the bounds of line 85, and the numeric offset. `CompanionMatchesLeaf` relates it to the header entry. |
| Patch.Companion | src/patch.ts:99-119 | The companion list after the first `n` filenames. `CompanionShape` states its length and order. |
| Patch.Generate | src/patch.ts:99 | `includeData?.generate` is truthy; it decides whether records are pushed (lines 99 and 113), as `TrashEntry` and `CompanionShape` state. |
| Patch.MaxFileSize | src/patch.ts:85 | `maxFileSize \|\| 1e6` on integers: the contract states that the bound is never 0 and that a non-zero `maxFileSize` is used as given. The `1e6` fallback for a missing or zero value is in the body only. |
| Patch.BloatCount | src/patch.ts:14-17 | How many times the bloat loop runs: `gigabytes`, 10 when absent, none when negative. `BloatDefaultCount` and `BloatPatchShape` state the resulting table size. |
| Patch.TrashEntry | src/patch.ts:81-120 | One loop iteration writes the table its filename's placement calls for. It appends exactly one companion record when `generate` is set and none otherwise. |
| Patch.BuildTrashPatch | src/patch.ts:76-126 | The loop returns the header `{files}`, where `files` is the table built by placing every filename in order, and the companion list of all records; `headerSize` is unset. |
| Patch.CreateTrashPatch | src/patch.ts:38-127 | The patch is the one built from the options after defaults are applied. The caller's options object is left holding the defaulted `filenames` and `beforeWrite`, with `includeData` unchanged. |
| TrashTable.TrashStepWritesKey | src/patch.ts:107-112 | One step writes only its placement's root key and keeps every other root value. |
| TrashTable.TrashFilesKeys | src/patch.ts:80-121 | The root table's keys are exactly the root keys of the placements. Every filename lands, and nothing else appears. |
| TrashTable.TrashFilesUntouched | src/patch.ts:80-121 | Steps writing other root keys leave a root value unchanged. |
| TrashTable.FlatEntryKept | src/patch.ts:110-112 | A flat filename's entry survives when no later filename writes its key. |
| TrashTable.ShapedWalkable | src/patch.ts:97-98 | A `Shaped` object can be walked along a `files` path. `TrashFilesShapedAt` says when the value the loop builds under a root key is `Shaped`. |
| TrashTable.ShapedStore | src/patch.ts:97-98 | Storing a file object along a `files` path keeps that walkability. |
| TrashTable.LeafShaped | src/patch.ts:98 | The stored `{size, offset}` object is walkable in that sense. |
| TrashTable.TrashFilesShapedAt | src/patch.ts:80-121 | When the nested placements under root key `k` follow `files` paths, the value the loop builds under `k` stays walkable, whatever the placements under other keys do. |
| TrashTable.NestedLeafKept | src/patch.ts:97-107 | A nested leaf stays reachable under its root key through later steps. Two conditions: the nested placements under that same key follow `files` paths, and later writes to that key are nested along paths that part from it. Placements under other keys are unconstrained. |
| TrashTable.StepStoresNested | src/patch.ts:97-107 | A nested step stores its leaf along its path inside its root object. |
| TrashTable.StepKeepsOtherRoot | src/patch.ts:107-112 | A step writing another root key keeps what is found under this one. |
| TrashTable.StepKeepsSameRoot | src/patch.ts:97-107 | A nested step into the same root object keeps what is found along a diverging path. |
| TrashProperties.FilesPathIsFilesPath | src/patch.ts:91-94 | The path `files.s1.files.s2...` alternates `files` with segments. |
| TrashProperties.JoinFilesSplit | src/patch.ts:91 | For `_`-free segments, `join('_files_').split('_')` turns `[s1..sk]` into `[s1, files, s2, ..., files, sk]`. |
| TrashProperties.TrickPathOfPlainSegments | src/patch.ts:89-94 | A nested filename with `_`-free segments goes under the raw first segment (not `beforeWrite`'s result), along `files.s2...files.sk`. |
| TrashProperties.JoinFilesSplitPieces | src/patch.ts:91 | For any segments, `join('_files_').split('_')` gives each segment's `_`-pieces, with "files" between consecutive segments. |
| TrashProperties.TrickPathPieces | src/patch.ts:89-94 | Every nested filename goes under the first `_`-piece of its first segment, along the remaining pieces. |
| TrashProperties.UnderscoreInLaterSegment | src/patch.ts:89-94 | A later segment `b_c` is broken too: `a/b_c` goes under root key `a` at path `files.b.c`, so the leaf is not inside a `files` table. |
| TrashProperties.UnderscoreLaterExample | src/patch.ts:91-94 | `test/my_file.js` goes under root key `test` at `files.my.file.js`. |
| TrashProperties.FlatPlace | src/patch.ts:110-112 | A filename without separators is placed flat under its `beforeWrite` name. |
| TrashProperties.TwoSegmentPlace | src/patch.ts:89-107 | `a/b` with `_`-free parts goes under root key `a` at `files.b`. |
| TrashProperties.UnderscoreBreaksTrick | src/patch.ts:89-94 | A first segment `a_b` is broken at `_`: `a_b/name` goes under root key `a` at path `b.files.name`. |
| TrashProperties.UnderscoreExample | src/patch.ts:91-94 | `my_dir/x.js` goes under root key `my` at `dir.files.x.js`. |
| TrashProperties.FlatCollision | src/patch.ts:110-112 | Two flat filenames that `beforeWrite` maps to the same name leave only the later entry. |
| TrashProperties.FlatNamesOneEntryEach | src/patch.ts:80-121 | Flat filenames with distinct transformed names give exactly one entry each, holding that filename's size and offset. |
| TrashProperties.PlainNestedAtFilesPlaced | src/patch.ts:89-94 | When the nested filenames under root key `k` have `_`-free segments, their placements follow non-empty `files` paths. |
| TrashProperties.NestedEntryReachable | src/patch.ts:89-107 | A nested filename `s1/.../sk` with `_`-free segments ends at `header.files.s1.files.s2...files.sk`, holding its size and offset. Two conditions: the other nested filenames under root key `s1` are `_`-free as well, and every later filename writing `s1` is nested along a diverging path. Filenames under other root keys, such as `node_modules/...` under `node`, do not matter. Nested filenames sharing `s1` accumulate in one root object. |
| TrashProperties.FilesPathDiverges | src/patch.ts:91-98 | Segment lists that part give `files` paths that part. |
| TrashProperties.CompanionShape | src/patch.ts:99-105 | The companion list is empty unless `generate` is set. When it is set, the list holds one record per filename, in input order. |
| TrashProperties.CompanionMatchesLeaf | src/patch.ts:98-104 | Record `i` is named `beforeWrite(filename)`. Its numeric offset is the number the header entry's offset string denotes. |

## Left out

- `crypto.randomBytes`, `Math.random` and `random` (from `src/helpers.ts`) are foreign or floating-point calls. Their results are parameters: candidate names, and the `size`, `offset` and payload-length draws. A payload is modelled by its length only (`Payload.RandomBytes`).
- Patch.CreateBloatPatch: requires the candidate sequence to hold enough distinct names, because the source's retry loop (src/patch.ts:20-21) ends only if the random source keeps producing new names.
- Patch.BloatCount: models `gigabytes` as an integer. A fractional JavaScript number, which the `i < gigabytes` loop rounds up, is not modelled.
- Patch.Draw: `size` is an arbitrary integer. It is not the floor of a float up to `Number.MAX_VALUE / 2`, and its precision loss beyond 2^53 is not modelled. The offset is an integer in `[0, 2^32 - 2]`. The payload length is whatever the injected `random` returns, so no bound on it is claimed.
- Helpers.CreateNestedObject: `src/helpers.ts` is not part of this model. Its lemmas say nothing about a walk that meets a number or a string: the body replaces such a node with an empty object, and that is one reading, not a promise.
- TrashProperties.NestedEntryReachable: requires the nested filenames under the same root key to have segments without `_`. Such a filename can leave its leaf outside any `files` table (UnderscoreInLaterSegment), and the shared root object can then block the walk. Filenames under other root keys are not constrained. Where a filename with `_` is placed is stated for any segments by TrickPathPieces, with UnderscoreBreaksTrick and UnderscoreInLaterSegment as instances.
- Side effects of a user-supplied `beforeWrite` are not modelled. It is a pure function `string -> string`.
- JavaScript prototype keys (`__proto__`, `constructor` used as a filename) are not modelled: the root table is a plain map.
- `headerSize`, `Buffer` contents, and reading or writing the on-disk archive are I/O outside these builders. The model only records that neither builder sets `headerSize`.
