/**
 * The asar header data model (src/asar.ts).
 *
 * The TypeScript interfaces describe JavaScript objects structurally. The model
 * keeps two views of them:
 *  - the typed view `File`, `Entry` (`File | Header`), `Header`, `ArchiveFile`,
 *    `Archive`, as the interfaces declare them;
 *  - the runtime view `Value`, the JSON-like object a builder actually stores
 *    (the trash builder writes through an `any`-typed object, so what it stores
 *    need not have either interface's shape).
 * `EntryValue` writes a typed entry as its runtime object and `AsEntry` reads a
 * runtime object back as a typed entry when it has exactly one of the two
 * shapes; the two are proved inverse to each other.
 */
module Asar {

  datatype Option<+T> = None | Some(value: T)

  /** A JavaScript value as it appears in a header: a number, a string or a plain object. */
  datatype Value = Num(n: int) | Str(s: string) | Obj(props: map<string, Value>)

  /** `File`: a size in bytes and the decimal string of the offset into the data blob. */
  datatype File = File(size: int, offset: string)

  /** One value of `FileEntries`: either a `File` or a nested `Header`. */
  datatype Entry = FileEntry(file: File) | HeaderEntry(header: Header)

  /** `Header`: the single field `files`, mapping each name to exactly one entry. */
  datatype Header = Header(files: map<string, Entry>)

  type FileEntries = map<string, Entry>

  /** The payload bytes of a generated file: the result of drawing `length` random bytes. */
  datatype Payload = RandomBytes(length: int)

  /** `ArchiveFile`: a name, its bytes and a NUMERIC offset (unlike `File.offset`). */
  datatype ArchiveFile = ArchiveFile(name: string, data: Payload, offset: int)

  /** `Archive`: the length of the serialized header and the header itself. */
  datatype Archive = Archive(headerSize: int, header: Header)

  /** The runtime object `{ size, offset }` of a file. */
  function FileValue(f: File): Value
  {
    Obj(map["size" := Num(f.size), "offset" := Str(f.offset)])
  }

  /** The runtime object `{ files: { ... } }` of a header whose entries are already runtime values. */
  function HeaderObject(files: map<string, Value>): Value
  {
    Obj(map["files" := Obj(files)])
  }

  /** The runtime object of a typed entry. */
  function EntryValue(e: Entry): Value
    decreases e
  {
    match e
    case FileEntry(f) => FileValue(f)
    case HeaderEntry(h) => HeaderValue(h)
  }

  function HeaderValue(h: Header): Value
    decreases h
  {
    HeaderObject(map k | k in h.files :: EntryValue(h.files[k]))
  }

  /** True when `v` is the runtime object of a `File`: exactly a numeric `size` and a string `offset`. */
  predicate IsFileObject(v: Value) {
    && v.Obj?
    && v.props.Keys == {"size", "offset"}
    && v.props["size"].Num?
    && v.props["offset"].Str?
  }

  /** True when `v` is shaped like a `Header` object: exactly one key, `files`, holding an object. */
  predicate IsHeaderObject(v: Value) {
    && v.Obj?
    && v.props.Keys == {"files"}
    && v.props["files"].Obj?
  }

  /**
   * True when `v` reads unambiguously as an entry: a file object, or a header
   * object all of whose children are entry objects. A primitive, an object with
   * both `size` and `files`, or an object keyed by anything else is not.
   */
  predicate IsEntryObject(v: Value)
    decreases v
  {
    || IsFileObject(v)
    || (&& IsHeaderObject(v)
        && forall k :: k in v.props["files"].props ==> IsEntryObject(v.props["files"].props[k]))
  }

  /** Reads an entry object as the typed entry it describes. */
  function AsEntry(v: Value): Entry
    requires IsEntryObject(v)
    decreases v
  {
    if IsFileObject(v) then
      FileEntry(File(v.props["size"].n, v.props["offset"].s))
    else
      var children := v.props["files"].props;
      HeaderEntry(Header(map k | k in children :: AsEntry(children[k])))
  }

  /** A header object whose children are entry objects reads as the header of their readings. */
  lemma HeaderObjectReads(children: map<string, Value>)
    requires forall k :: k in children ==> IsEntryObject(children[k])
    ensures IsEntryObject(HeaderObject(children))
    ensures AsEntry(HeaderObject(children))
         == HeaderEntry(Header(map k | k in children :: AsEntry(children[k])))
  {
    var v := HeaderObject(children);
    assert "size" !in v.props;
    assert IsHeaderObject(v);
  }

  /** The runtime object of a file reads back as that file. */
  lemma FileObjectReads(f: File)
    ensures IsFileObject(FileValue(f))
    ensures AsEntry(FileValue(f)) == FileEntry(f)
  {
    var v := FileValue(f);
    assert v.props.Keys == {"size", "offset"};
  }

  /** Writing a typed entry as its runtime object and reading it back gives the entry. */
  lemma {:induction false} AsEntryOfEntryValue(e: Entry)
    ensures IsEntryObject(EntryValue(e))
    ensures AsEntry(EntryValue(e)) == e
    decreases e
  {
    match e
    case FileEntry(f) => FileObjectReads(f);
    case HeaderEntry(h) => HeaderValueReads(h);
  }

  /** The header case of `AsEntryOfEntryValue`: each child reads back as itself. */
  lemma {:induction false} HeaderValueReads(h: Header)
    ensures IsEntryObject(HeaderValue(h))
    ensures AsEntry(HeaderValue(h)) == HeaderEntry(h)
    decreases h
  {
    var v := HeaderValue(h);
    var children := v.props["files"].props;
    forall k | k in children
      ensures IsEntryObject(children[k]) && AsEntry(children[k]) == h.files[k]
    {
      AsEntryOfEntryValue(h.files[k]);
    }
    assert "size" !in v.props;
    assert IsHeaderObject(v);
    var read := AsEntry(v).header.files;
    assert read == h.files;
  }

  /** Every entry object is exactly the runtime object of what it reads as. */
  lemma {:induction false} EntryValueOfAsEntry(v: Value)
    requires IsEntryObject(v)
    ensures EntryValue(AsEntry(v)) == v
    decreases v, 1
  {
    if IsFileObject(v) {
      FileObjectWritesBack(v);
    } else {
      HeaderObjectWritesBack(v);
    }
  }

  /** The file case of `EntryValueOfAsEntry`. */
  lemma FileObjectWritesBack(v: Value)
    requires IsFileObject(v)
    ensures EntryValue(AsEntry(v)) == v
  {
    assert FileValue(AsEntry(v).file).props == v.props;
  }

  /** The header case of `EntryValueOfAsEntry`: each child is written back as itself. */
  lemma {:induction false} HeaderObjectWritesBack(v: Value)
    requires IsEntryObject(v) && !IsFileObject(v)
    ensures EntryValue(AsEntry(v)) == v
    decreases v, 0
  {
    var children := v.props["files"].props;
    var h := AsEntry(v).header;
    var written := HeaderValue(h).props["files"].props;
    forall k | k in children
      ensures k in written && written[k] == children[k]
    {
      EntryValueOfAsEntry(children[k]);
    }
    assert written == children;
    assert v.props == HeaderValue(h).props;
  }
}
