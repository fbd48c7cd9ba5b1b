/**
 * The base metadata store: one JSON file per tag id under `/bases`, each
 * holding the four text fields of a `BaseInfo`. The flash file system is a
 * map from path to file content; the JSON codec is a `Json.Codec`.
 */
module Storage {
  import opened Wrappers
  import opened Uint32
  import opened Text
  import opened Json

  // ------------------------------------------------------------- BaseInfo

  /** The four fields of `BaseInfo`. */
  datatype Field = PaintName | RecipeName | RecipeId | Notes

  /** `sizeof` of each field's char array, terminator included. */
  function Capacity(f: Field): nat
  {
    match f
    case PaintName => 32
    case RecipeName => 32
    case RecipeId => 24
    case Notes => 96
  }

  /** The JSON member name under which each field is stored. */
  function Key(f: Field): string
  {
    match f
    case PaintName => "paint_name"
    case RecipeName => "recipe_name"
    case RecipeId => "recipe_id"
    case Notes => "notes"
  }

  /** A string that a char array of `capacity` bytes can hold as a C string. */
  predicate Fits(s: string, capacity: nat)
  {
    |s| < capacity && '\0' !in s
  }

  /** The C string held in each of the four char arrays. */
  datatype BaseInfo = BaseInfo(paintName: string, recipeName: string, recipeId: string, notes: string)
  {
    function Get(f: Field): string
    {
      match f
      case PaintName => paintName
      case RecipeName => recipeName
      case RecipeId => recipeId
      case Notes => notes
    }

    /** Every field fits its array: at most 31, 31, 23 and 95 characters. */
    predicate Valid()
    {
      Fits(paintName, 32) && Fits(recipeName, 32) && Fits(recipeId, 24) && Fits(notes, 96)
    }
  }

  /** The default constructor `BaseInfo()`: every array starts with a terminator. */
  function EmptyInfo(): (b: BaseInfo)
    ensures b.Valid()
    ensures forall f :: b.Get(f) == ""
  {
    BaseInfo("", "", "", "")
  }

  /** `strlcpy(info.<f>, src, sizeof(info.<f>))`: a bounded copy into one field leaves the other three alone. */
  function CopyInto(info: BaseInfo, f: Field, src: string): (r: BaseInfo)
    ensures r.Get(f) == Strlcpy(src, Capacity(f))
    ensures forall g :: g != f ==> r.Get(g) == info.Get(g)
    ensures info.Valid() ==> r.Valid()
  {
    var v := Strlcpy(src, Capacity(f));
    match f
    case PaintName => info.(paintName := v)
    case RecipeName => info.(recipeName := v)
    case RecipeId => info.(recipeId := v)
    case Notes => info.(notes := v)
  }

  /**
   * The four copies that `loadBase` and `handlePutBase` make from a parsed
   * document: each field gets its member's string, or "" when missing, cut to fit.
   */
  function Decode(doc: Doc): (b: BaseInfo)
  {
    var b1 := CopyInto(EmptyInfo(), PaintName, Member(doc, Key(PaintName)));
    var b2 := CopyInto(b1, RecipeName, Member(doc, Key(RecipeName)));
    var b3 := CopyInto(b2, RecipeId, Member(doc, Key(RecipeId)));
    CopyInto(b3, Notes, Member(doc, Key(Notes)))
  }

  /** Whatever the document holds, the decoded record is valid and each field is its member cut to capacity. */
  lemma DecodeFields(doc: Doc)
    ensures Decode(doc).Valid()
    ensures forall f :: Decode(doc).Get(f) == Strlcpy(Member(doc, Key(f)), Capacity(f))
  {
    var b := Decode(doc);
    forall f ensures b.Get(f) == Strlcpy(Member(doc, Key(f)), Capacity(f)) {
      match f
      case PaintName =>
      case RecipeName =>
      case RecipeId =>
      case Notes =>
    }
  }

  /** The four copies overwrite every field, so what the record held before does not matter. */
  lemma CopiesOverwriteAll(prior: BaseInfo, doc: Doc)
    ensures CopyInto(CopyInto(CopyInto(CopyInto(prior, PaintName, Member(doc, Key(PaintName))),
              RecipeName, Member(doc, Key(RecipeName))), RecipeId, Member(doc, Key(RecipeId))),
              Notes, Member(doc, Key(Notes))) == Decode(doc)
  {
  }

  /** The document `saveBase` builds: one string member per field. */
  function Encode(info: BaseInfo): Doc
  {
    map[Key(PaintName) := Str(info.paintName), Key(RecipeName) := Str(info.recipeName),
        Key(RecipeId) := Str(info.recipeId), Key(Notes) := Str(info.notes)]
  }

  /** Decoding what was encoded gives back every valid record. */
  lemma DecodeEncode(info: BaseInfo)
    requires info.Valid()
    ensures Decode(Encode(info)) == info
  {
    var doc := Encode(info);
    forall f ensures Member(doc, Key(f)) == info.Get(f) {
      match f
      case PaintName =>
      case RecipeName =>
      case RecipeId =>
      case Notes =>
    }
    DecodeFields(doc);
  }

  // ----------------------------------------------------------------- paths

  /** `basePath(rfid)`: "/bases/" + `%08X` of the id + ".json". */
  function BasePath(r: U32): (p: string)
    ensures |p| == 20 && p[..7] == "/bases/" && p[15..] == ".json"
    ensures p[7..15] == Format08X(r)
  {
    "/bases/" + Format08X(r) + ".json"
  }

  /** Distinct ids have distinct files. */
  lemma BasePathInjective(a: U32, b: U32)
    requires BasePath(a) == BasePath(b)
    ensures a == b
  {
    assert Format08X(a) == BasePath(a)[7..15] == BasePath(b)[7..15] == Format08X(b);
    Format08XInjective(a, b);
  }

  // ------------------------------------------------------------- the store

  /** The file system: path to content. */
  type Files = map<string, string>

  /** What `loadBase(r, out)` delivers on success, or `None` when it returns false. */
  function Stored(files: Files, codec: Codec, r: U32): Option<BaseInfo>
  {
    if r == 0 || BasePath(r) !in files then None
    else
      match codec.deserialize(files[BasePath(r)])
      case None => None
      case Some(doc) => Some(Decode(doc))
  }

  /** What opening the file with "w" and serializing into it achieved. */
  datatype WriteResult =
    | OpenFailed              // `LittleFS.open(path, "w")` failed; nothing was touched
    | Wrote(accepted: nat)    // the file was truncated and accepted this many bytes of the text

  function Min(a: nat, b: nat): nat
  {
    if a <= b then a else b
  }

  /** The text `saveBase` serializes for `info`. */
  function SavedText(codec: Codec, info: BaseInfo): string
  {
    codec.serialize(Encode(info))
  }

  /** The files after `saveBase(r, info)`: the record's file is truncated and receives what the medium accepted. */
  function AfterSave(files: Files, codec: Codec, r: U32, info: BaseInfo, io: WriteResult): Files
  {
    if r == 0 || io.OpenFailed? then files
    else
      var text := SavedText(codec, info);
      files[BasePath(r) := text[..Min(io.accepted, |text|)]]
  }

  /**
   * The result `saveBase` reports as written: `serializeJson(doc, f) != 0`,
   * which is true as soon as one byte was accepted.
   */
  function SaveReportedAsWritten(codec: Codec, r: U32, info: BaseInfo, io: WriteResult): bool
  {
    r != 0 && io.Wrote? && Min(io.accepted, |SavedText(codec, info)|) != 0
  }

  /** The result `saveBase` evidently intends: the whole serialized text was written. */
  function SaveSucceeded(codec: Codec, r: U32, info: BaseInfo, io: WriteResult): bool
  {
    r != 0 && io.Wrote? && io.accepted >= |SavedText(codec, info)|
  }

  /**
   * As written, a short write is reported as a successful save although the
   * file holds only a prefix of the serialized record.
   */
  lemma ShortWriteReportedAsSaved(files: Files, codec: Codec, r: U32, info: BaseInfo)
    requires r != 0 && |SavedText(codec, info)| >= 2
    ensures SaveReportedAsWritten(codec, r, info, Wrote(1))
    ensures !SaveSucceeded(codec, r, info, Wrote(1))
    ensures AfterSave(files, codec, r, info, Wrote(1))[BasePath(r)] != SavedText(codec, info)
  {
    var text := SavedText(codec, info);
    assert |AfterSave(files, codec, r, info, Wrote(1))[BasePath(r)]| == 1;
  }

  /** A successful save followed by a load returns the same four fields. */
  lemma SaveThenLoad(files: Files, codec: Codec, r: U32, info: BaseInfo, io: WriteResult)
    requires RoundTrips(codec) && info.Valid()
    requires SaveSucceeded(codec, r, info, io)
    ensures Stored(AfterSave(files, codec, r, info, io), codec, r) == Some(info)
  {
    var text := SavedText(codec, info);
    assert AfterSave(files, codec, r, info, io)[BasePath(r)] == text;
    assert codec.deserialize(text) == Some(Encode(info));
    DecodeEncode(info);
  }

  /** Saving one record, successful or not, leaves every other record as it was. */
  lemma SaveKeepsOthers(files: Files, codec: Codec, r: U32, info: BaseInfo, io: WriteResult, other: U32)
    requires other != r
    ensures Stored(AfterSave(files, codec, r, info, io), codec, other) == Stored(files, codec, other)
  {
    if other != 0 && r != 0 && BasePath(other) == BasePath(r) {
      BasePathInjective(other, r);
    }
  }

  /** After a successful delete the record no longer loads; nothing else changes. */
  lemma DeleteThenLoad(files: Files, codec: Codec, r: U32, other: U32)
    requires r != 0
    ensures Stored(files - {BasePath(r)}, codec, r) == None
    ensures other != r ==> Stored(files - {BasePath(r)}, codec, other) == Stored(files, codec, other)
  {
    if other != r && other != 0 && BasePath(other) == BasePath(r) {
      BasePathInjective(other, r);
    }
  }

  /** The flash file system as the store sees it. */
  class Store {
    var files: Files
    const codec: Codec

    constructor (codec: Codec, files: Files)
      ensures this.codec == codec && this.files == files
    {
      this.codec := codec;
      this.files := files;
    }

    /**
     * `loadBase(rfid, out)`: false for id 0, a missing file or text that does
     * not parse, with `out` untouched; otherwise all four fields are copied.
     */
    method LoadBase(r: U32, out: BaseInfo) returns (ok: bool, result: BaseInfo)
      ensures ok <==> r != 0 && BasePath(r) in files && codec.deserialize(files[BasePath(r)]).Some?
      ensures ok ==> result == Decode(codec.deserialize(files[BasePath(r)]).value) && result.Valid()
      ensures !ok ==> result == out
      ensures ok ==> Stored(files, codec, r) == Some(result)
    {
      result := out;
      if r == 0 {
        return false, result;
      }
      var path := BasePath(r);
      if path !in files {
        return false, result;
      }
      var parsed := codec.deserialize(files[path]);
      if parsed.None? {
        return false, result;
      }
      var doc := parsed.value;
      result := CopyInto(result, PaintName, Member(doc, Key(PaintName)));
      result := CopyInto(result, RecipeName, Member(doc, Key(RecipeName)));
      result := CopyInto(result, RecipeId, Member(doc, Key(RecipeId)));
      result := CopyInto(result, Notes, Member(doc, Key(Notes)));
      CopiesOverwriteAll(out, doc);
      DecodeFields(doc);
      ok := true;
    }

    /**
     * `saveBase(rfid, info)`: false for id 0 or when the file cannot be opened;
     * otherwise the single file for the id is overwritten, and the save
     * succeeds when the whole serialized record was written.
     */
    method SaveBase(r: U32, info: BaseInfo, io: WriteResult) returns (ok: bool)
      modifies this
      ensures ok == SaveSucceeded(codec, r, info, io)
      ensures files == AfterSave(old(files), codec, r, info, io)
      ensures r == 0 ==> !ok && files == old(files)
    {
      if r == 0 {
        return false;
      }
      if io.OpenFailed? {
        return false;
      }
      var text := SavedText(codec, info);
      var written := Min(io.accepted, |text|);
      files := files[BasePath(r) := text[..written]];
      ok := written == |text|;
    }

    /** `deleteBase(rfid)`: false for id 0 or a missing file; otherwise the file is removed. */
    method DeleteBase(r: U32) returns (ok: bool)
      modifies this
      ensures ok == (r != 0 && BasePath(r) in old(files))
      ensures files == if ok then old(files) - {BasePath(r)} else old(files)
    {
      if r == 0 {
        return false;
      }
      ok := BasePath(r) in files;
      if ok {
        files := files - {BasePath(r)};
      }
    }
  }

  // ---------------------------------------------------------------- listing

  /** One entry returned by `openNextFile()`. */
  datatype DirEntry = DirEntry(name: string, isDirectory: bool)

  /** What `LittleFS.open("/bases")` returned, with the entries in enumeration order. */
  datatype DirHandle = Missing | NotDirectory | Directory(entries: seq<DirEntry>)

  /** The name after its last '/'. */
  function Basename(name: string): string
  {
    var slash := LastIndexOf(name, '/');
    if slash >= 0 then name[slash + 1..] else name
  }

  /** The id an entry contributes, or 0 when `listBaseIds` skips it. */
  function EntryId(e: DirEntry): U32
  {
    if e.isDirectory then 0
    else
      var name := Basename(e.name);
      if EndsWith(name, ".json") then Strtoul16(name[..|name| - 5]) else 0
  }

  /** The non-zero elements of `ids`, in order. */
  function NonZero(ids: seq<U32>): seq<U32>
  {
    if ids == [] then []
    else NonZero(ids[..|ids| - 1]) + (if ids[|ids| - 1] != 0 then [ids[|ids| - 1]] else [])
  }

  /** `f` applied to each element of `s`, in order. */
  function Map<A, B>(f: A -> B, s: seq<A>): (r: seq<B>)
    ensures |r| == |s|
  {
    if s == [] then [] else Map(f, s[..|s| - 1]) + [f(s[|s| - 1])]
  }

  /** The `i`-th element of a mapped series is `f` of the `i`-th element. */
  lemma {:induction false} MapAt<A, B>(f: A -> B, s: seq<A>, i: nat)
    requires i < |s|
    ensures Map(f, s)[i] == f(s[i])
    decreases |s|
  {
    var init := s[..|s| - 1];
    if i < |init| {
      MapAt(f, init, i);
      assert init[i] == s[i];
    }
  }

  /** The id each entry yields, in enumeration order. */
  function EntryIds(entries: seq<DirEntry>): (ids: seq<U32>)
    ensures |ids| == |entries|
  {
    Map(EntryId, entries)
  }

  /** The `i`-th id is the `i`-th entry's. */
  lemma EntryIdAt(entries: seq<DirEntry>, i: nat)
    requires i < |entries|
    ensures EntryIds(entries)[i] == EntryId(entries[i])
  {
    MapAt(EntryId, entries, i);
  }

  /** Every id is its entry's. */
  lemma EntryIdsAt(entries: seq<DirEntry>)
    ensures forall i :: 0 <= i < |entries| ==> EntryIds(entries)[i] == EntryId(entries[i])
  {
    forall i | 0 <= i < |entries| ensures EntryIds(entries)[i] == EntryId(entries[i]) {
      EntryIdAt(entries, i);
    }
  }

  /** The ids `listBaseIds` would store given unlimited room, in enumeration order. */
  function ParsedIds(entries: seq<DirEntry>): seq<U32>
  {
    NonZero(EntryIds(entries))
  }

  /** The first `n` elements of `s`, or all of them. */
  function Take<T>(s: seq<T>, n: nat): seq<T>
  {
    if |s| <= n then s else s[..n]
  }

  /** One more entry extends the stored prefix by its id exactly when the id is non-zero and there is room. */
  lemma ListStep(ids: seq<U32>, i: nat, max: nat)
    requires i < |ids|
    ensures Take(NonZero(ids[..i + 1]), max) ==
              if ids[i] != 0 && |Take(NonZero(ids[..i]), max)| < max
              then Take(NonZero(ids[..i]), max) + [ids[i]]
              else Take(NonZero(ids[..i]), max)
  {
    assert ids[..i + 1][..i] == ids[..i];
  }

  /** The loop body's parse of one entry: its file name after the last '/', and the hex before ".json". */
  method ParseEntryId(entries: seq<DirEntry>, i: nat) returns (id: U32)
    requires i < |entries|
    ensures id == EntryIds(entries)[i]
  {
    id := EntryId(entries[i]);
    EntryIdAt(entries, i);
  }

  /** Stores `id` at `out[count]` when it is non-zero and there is room. */
  method Keep(out: array<U32>, count: nat, max: nat, id: U32) returns (newCount: nat)
    requires count <= max <= out.Length
    modifies out
    ensures newCount == if id != 0 && count < max then count + 1 else count
    ensures out[..newCount] == if id != 0 && count < max then old(out[..count]) + [id] else old(out[..count])
    ensures forall k :: newCount <= k < out.Length ==> out[k] == old(out[k])
  {
    newCount := count;
    if id != 0 && count < max {
      out[count] := id;
      newCount := count + 1;
      assert out[..newCount] == old(out[..count]) + [id];
    }
  }

  /** The ids stored after visiting the first `n` of `ids`, one at a time. */
  function StoredIds(ids: seq<U32>, n: nat, max: nat): seq<U32>
    requires n <= |ids|
    decreases n
  {
    if n == 0 then []
    else
      var before := StoredIds(ids, n - 1, max);
      if ids[n - 1] != 0 && |before| < max then before + [ids[n - 1]] else before
  }

  /** Storing one id at a time keeps the first `max` non-zero ids seen so far. */
  lemma {:induction false} StoredIdsTake(ids: seq<U32>, n: nat, max: nat)
    requires n <= |ids|
    ensures StoredIds(ids, n, max) == Take(NonZero(ids[..n]), max)
    decreases n
  {
    if n == 0 {
      assert ids[..0] == [];
    } else {
      StoredIdsTake(ids, n - 1, max);
      ListStep(ids, n - 1, max);
    }
  }

  /** Visiting every entry stores the first `max` parsed ids. */
  lemma StoredAll(entries: seq<DirEntry>, max: nat)
    ensures StoredIds(EntryIds(entries), |entries|, max) == Take(ParsedIds(entries), max)
  {
    var ids := EntryIds(entries);
    StoredIdsTake(ids, |ids|, max);
    assert ids[..|ids|] == ids;
  }

  /**
   * `listBaseIds(out, max, count)`: `count` starts at 0; false unless `/bases`
   * is a directory; every entry is visited, and the first `max` non-zero ids
   * parsed from non-directory `*.json` names are stored in order.
   */
  method ListBaseIds(root: DirHandle, out: array<U32>, max: nat) returns (ok: bool, count: nat)
    requires max <= out.Length
    modifies out
    ensures ok == root.Directory?
    ensures !ok ==> count == 0
    ensures ok ==> count <= max && out[..count] == Take(ParsedIds(root.entries), max)
    ensures forall k :: count <= k < out.Length ==> out[k] == old(out[k])
  {
    count := 0;
    if !root.Directory? {
      return false, count;
    }
    var entries := root.entries;
    ghost var ids := EntryIds(entries);
    var i := 0;
    while i < |entries|
      invariant 0 <= i <= |entries|
      invariant count <= max
      invariant out[..count] == StoredIds(ids, i, max)
      invariant forall k :: count <= k < out.Length ==> out[k] == old(out[k])
    {
      var id := ParseEntryId(entries, i);
      count := Keep(out, count, max, id);
      i := i + 1;
    }
    StoredAll(entries, max);
    ok := true;
  }

  /** Filtering keeps exactly the non-zero ids. */
  lemma {:induction false} NonZeroExact(ids: seq<U32>)
    ensures forall x :: x in NonZero(ids) <==> x in ids && x != 0
  {
    if ids != [] {
      var init := ids[..|ids| - 1];
      NonZeroExact(init);
      assert ids == init + [ids[|ids| - 1]];
    }
  }

  /** A prefix holds at most `n` elements, all from `s`, and is all of `s` when `s` fits. */
  lemma TakeWithin<T>(s: seq<T>, n: nat)
    ensures |Take(s, n)| <= n
    ensures forall x :: x in Take(s, n) ==> x in s
    ensures |s| <= n ==> Take(s, n) == s
  {
    if n < |s| {
      forall x | x in s[..n] ensures x in s {
        var k :| 0 <= k < n && s[..n][k] == x;
        assert s[k] == x;
      }
    }
  }

  /**
   * Listing is sound and, room permitting, complete: every id stored is
   * non-zero and is the id of some entry, every entry's non-zero id is among
   * the parsed ids, and at most `max` ids are stored.
   */
  lemma ListedIds(entries: seq<DirEntry>, max: nat)
    ensures |Take(ParsedIds(entries), max)| <= max
    ensures forall x :: x in Take(ParsedIds(entries), max) ==>
              x != 0 && exists i :: 0 <= i < |entries| && EntryId(entries[i]) == x
    ensures forall i :: 0 <= i < |entries| && EntryId(entries[i]) != 0 ==> EntryId(entries[i]) in ParsedIds(entries)
    ensures |ParsedIds(entries)| <= max ==> Take(ParsedIds(entries), max) == ParsedIds(entries)
  {
    var ids := EntryIds(entries);
    EntryIdsAt(entries);
    var parsed := ParsedIds(entries);
    assert parsed == NonZero(ids);
    NonZeroExact(ids);
    TakeWithin(parsed, max);
    forall x | x in Take(parsed, max)
      ensures x != 0 && exists i :: 0 <= i < |entries| && EntryId(entries[i]) == x
    {
      assert x in parsed;
      assert x in ids && x != 0;
      var i :| 0 <= i < |ids| && ids[i] == x;
      assert EntryId(entries[i]) == x;
    }
    forall i | 0 <= i < |entries| && EntryId(entries[i]) != 0
      ensures EntryId(entries[i]) in parsed
    {
      assert ids[i] in ids;
    }
  }

  /** The file name `saveBase` uses for an id has no '/' in it. */
  lemma FileNameHasNoSlash(r: U32)
    ensures '/' !in Format08X(r) + ".json"
  {
    var hex := Format08X(r);
    var name := hex + ".json";
    forall k | 0 <= k < |name| ensures name[k] != '/' {
      if k < 8 { assert name[k] == hex[k] && IsUpperHexDigit(hex[k]); }
    }
  }

  /** The base name of a base's path is its file name. */
  lemma BasenameOfBasePath(r: U32)
    ensures Basename(BasePath(r)) == Format08X(r) + ".json"
  {
    var name := Format08X(r) + ".json";
    FileNameHasNoSlash(r);
    var path := BasePath(r);
    assert path == "/bases" + ['/'] + name;
    assert path[6] == '/' && path[7..] == name;
    assert LastIndexOf(path, '/') == 6;
  }

  /** A file name made of an id's digits and ".json" yields that id. */
  lemma FileNameYieldsId(r: U32)
    ensures EntryId(DirEntry(Format08X(r) + ".json", false)) == r
  {
    var hex := Format08X(r);
    var name := hex + ".json";
    FileNameHasNoSlash(r);
    assert LastIndexOf(name, '/') == -1;
    assert Basename(name) == name;
    assert name[..|name| - 5] == hex + [];
    Strtoul16OfFormatted(r, []);
  }

  /** The file `saveBase` would write for an id yields that id, whether named by path or by file name. */
  lemma SavedFileIsListed(r: U32)
    ensures EntryId(DirEntry(BasePath(r), false)) == r
    ensures EntryId(DirEntry(Format08X(r) + ".json", false)) == r
  {
    BasenameOfBasePath(r);
    FileNameYieldsId(r);
  }

  // ------------------------------------------------- listing over the files

  /** A path directly under `/bases/`: the prefix, then a name without '/'. */
  predicate InBases(p: string)
  {
    |p| > 7 && p[..7] == "/bases/" && '/' !in p[7..]
  }

  /**
   * The file an entry of `/bases` names. Depending on the core version,
   * `File::name()` gives the full path or only the file name; a name that
   * does not start with '/' is taken relative to `/bases/`.
   */
  function EntryPath(name: string): (p: string)
    ensures |name| > 0 && name[0] == '/' ==> p == name
    ensures !(|name| > 0 && name[0] == '/') ==> p == "/bases/" + name
  {
    if |name| > 0 && name[0] == '/' then name else "/bases/" + name
  }

  /**
   * `root` enumerates `/bases` over `files`: every file entry names, by full
   * path or by file name, a file directly under `/bases/`, and every such
   * file appears as an entry, in some order. Sub-directories may appear;
   * `listBaseIds` skips them.
   */
  predicate Lists(files: Files, root: DirHandle)
  {
    root.Directory? &&
    (forall i :: 0 <= i < |root.entries| && !root.entries[i].isDirectory ==>
       InBases(EntryPath(root.entries[i].name)) && EntryPath(root.entries[i].name) in files) &&
    (forall p :: p in files && InBases(p) ==>
       exists i :: 0 <= i < |root.entries| && !root.entries[i].isDirectory && EntryPath(root.entries[i].name) == p)
  }

  /** A directory listing one record by its bare file name lists the file map holding just that record. */
  lemma BareNameLists(r: U32, text: string)
    ensures Lists(map[BasePath(r) := text], Directory([DirEntry(Format08X(r) + ".json", false)]))
  {
    var path := BasePath(r);
    var name := Format08X(r) + ".json";
    BasePathInBases(r);
    assert name[0] == Format08X(r)[0] && IsUpperHexDigit(name[0]);
    assert EntryPath(name) == path;
    var entries := [DirEntry(name, false)];
    forall p | p in map[path := text] && InBases(p)
      ensures exists i :: 0 <= i < |entries| && !entries[i].isDirectory && EntryPath(entries[i].name) == p
    {
      assert EntryPath(entries[0].name) == p;
    }
  }

  /** Every file under `/bases/` carries the name `saveBase` gives some id. */
  predicate Canonical(files: Files)
  {
    forall p :: p in files && InBases(p) ==> exists id: U32 :: p == BasePath(id)
  }

  /** A record's path lies directly under `/bases/`. */
  lemma BasePathInBases(r: U32)
    ensures InBases(BasePath(r))
  {
    var path := BasePath(r);
    FileNameHasNoSlash(r);
    assert path[7..] == Format08X(r) + ".json";
  }

  /** A file entry that names a record's file, by full path or by file name, yields its id. */
  lemma EntryPathYieldsId(e: DirEntry, r: U32)
    requires !e.isDirectory && EntryPath(e.name) == BasePath(r)
    ensures EntryId(e) == r
  {
    SavedFileIsListed(r);
    if !(|e.name| > 0 && e.name[0] == '/') {
      var path := BasePath(r);
      assert path == "/bases/" + e.name;
      assert e.name == path[7..];
      assert path[7..] == Format08X(r) + ".json";
      assert e == DirEntry(Format08X(r) + ".json", false);
    } else {
      assert e == DirEntry(BasePath(r), false);
    }
  }

  /**
   * After a save that opened the file, successful or not, any listing of the
   * new files yields the id: the truncated file is still there.
   */
  lemma SavedIdListed(files: Files, codec: Codec, r: U32, info: BaseInfo, io: WriteResult, root: DirHandle)
    requires r != 0 && io.Wrote?
    requires Lists(AfterSave(files, codec, r, info, io), root)
    ensures r in ParsedIds(root.entries)
  {
    var path := BasePath(r);
    assert path in AfterSave(files, codec, r, info, io);
    BasePathInBases(r);
    var i :| 0 <= i < |root.entries| && !root.entries[i].isDirectory && EntryPath(root.entries[i].name) == path;
    EntryPathYieldsId(root.entries[i], r);
    EntryIdAt(root.entries, i);
    var ids := EntryIds(root.entries);
    assert ids[i] == r;
    NonZeroExact(ids);
  }

  /**
   * After a delete, a listing of the remaining files does not yield the id,
   * provided every file under `/bases/` was named by `saveBase`.
   */
  lemma DeletedIdNotListed(files: Files, r: U32, root: DirHandle)
    requires Canonical(files)
    requires Lists(files - {BasePath(r)}, root)
    ensures r !in ParsedIds(root.entries)
  {
    var entries := root.entries;
    forall i | 0 <= i < |entries|
      ensures EntryId(entries[i]) != r || r == 0
    {
      var e := entries[i];
      if !e.isDirectory {
        var p := EntryPath(e.name);
        assert p in files && InBases(p) && p != BasePath(r);
        var id: U32 :| p == BasePath(id);
        EntryPathYieldsId(e, id);
      }
    }
    var ids := EntryIds(entries);
    EntryIdsAt(entries);
    NonZeroExact(ids);
  }

  /** Saving keeps every file name canonical. */
  lemma SaveKeepsCanonical(files: Files, codec: Codec, r: U32, info: BaseInfo, io: WriteResult)
    requires Canonical(files)
    ensures Canonical(AfterSave(files, codec, r, info, io))
  {
    var after := AfterSave(files, codec, r, info, io);
    forall p | p in after && InBases(p)
      ensures exists id: U32 :: p == BasePath(id)
    {
      if p !in files {
        assert p == BasePath(r);
      }
    }
  }

  /** A file whose name is not canonical can carry an id too: "/bases/1.json" yields 1. */
  lemma NonCanonicalNameListed()
    ensures EntryId(DirEntry("/bases/1.json", false)) == 1
  {
    var name := "/bases/1.json";
    BasenameOfShortName();
    StrtoulOfOne();
    assert Basename(name)[..|Basename(name)| - 5] == "1";
  }

  lemma BasenameOfShortName()
    ensures Basename("/bases/1.json") == "1.json"
  {
    var name := "/bases/1.json";
    assert name == "/bases" + "/" + "1.json";
    assert LastIndexOf(name, '/') == 6 by {
      assert name[6] == '/';
      assert forall k :: 7 <= k < |name| ==> name[k] != '/';
    }
  }

  lemma StrtoulOfOne()
    ensures Strtoul16("1") == 1
  {
    var hex := "1";
    assert hex[..0] == [] && HexValue([]) == 0;
    assert HexValue(hex) == 1;
    assert hex + [] == hex;
    Strtoul16OfDigits(hex, []);
  }

}
