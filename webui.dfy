/**
 * The HTTP interface of the firmware: the routes registered with the web
 * server, the handlers for the base records under `/api/bases` and the
 * current-tag report under `/api/rfid`. A request is a value (method, path
 * and optional body); a response is a status code with a body. The
 * directory listing of `/bases` and the outcome of writing a file are
 * parameters, as they are in the store.
 */
module WebUi {
  import opened Wrappers
  import opened Uint32
  import opened Text
  import opened Json
  import opened Storage

  /** `kMaxBaseList`: the most ids one listing returns. */
  const MaxBaseList: nat := 64

  const RootPath: string := "/"
  const IndexPath: string := "/index.html"
  const BasesPath: string := "/api/bases"
  const RfidPath: string := "/api/rfid"
  /** The prefix of a record's path; the tag id in hex follows it. */
  const ItemPrefix: string := "/api/bases/"

  // -------------------------------------------------------------- parseHex

  /** `parseHex(s, out)`: false for empty text and for text that `strtoul` reads as 0. */
  function ParseHex(s: string): (r: Option<U32>)
    ensures s == [] ==> r == None
    ensures r.Some? ==> r.value != 0 && r.value == Strtoul16(s)
    ensures s != [] && Strtoul16(s) != 0 ==> r.Some?
  {
    if |s| == 0 then None
    else
      var v := Strtoul16(s);
      if v != 0 then Some(v) else None
  }

  /** `toHex` of a non-zero id parses back to it, also when the path goes on after a non-hex character. */
  lemma ParseHexOfToHex(r: U32, rest: string)
    requires r != 0
    requires rest == [] || !IsHexDigit(rest[0])
    ensures ParseHex(Format08X(r) + rest) == Some(r)
  {
    Strtoul16OfFormatted(r, rest);
  }

  /** `toHex(0)` is refused, so id 0 never reaches the store. */
  lemma ParseHexRejectsZero(rest: string)
    requires rest == [] || !IsHexDigit(rest[0])
    ensures ParseHex(Format08X(0) + rest) == None
  {
    Strtoul16OfFormatted(0, rest);
  }

  /** Text that does not start with a hex digit, a sign, `0x` or white space reads as 0 and is refused. */
  lemma ParseHexRejectsNonHex(s: string)
    requires s != [] && !IsHexDigit(s[0]) && !IsSpace(s[0]) && s[0] != '-' && s[0] != '+'
    ensures ParseHex(s) == None
  {
    assert TrimStart(s) == s;
    assert SignSkipped(s) == s && PrefixSkipped(s) == s;
    assert HexRun(s) == [];
  }

  /** "ZZ" is refused. */
  lemma ParseHexRejectsZZ()
    ensures ParseHex("ZZ") == None
  {
    ParseHexRejectsNonHex("ZZ");
  }

  // --------------------------------------------------------------- messages

  datatype HttpMethod = Get | Head | Post | Put | Patch | Delete | Options

  /** A request as the server hands it over: the method, the path, and the `plain` argument if the client sent a body. */
  datatype Request = Request(verb: HttpMethod, uri: string, body: Option<string>)

  /** What a response carries: plain text, the HTML page, or one of the three JSON documents. */
  datatype Body =
    | Plain(text: string)
    | IndexPage
    | BaseList(bases: seq<string>)
    | BaseRecord(rfid: string, paintName: string, recipeName: string, recipeId: string, notes: string)
    | RfidReport(rfid: string)

  datatype Response = Response(status: nat, body: Body)

  const ListFailed: Response := Response(500, Plain("Failed to list bases"))
  const BaseNotFound: Response := Response(404, Plain("Base not found"))
  const MissingBody: Response := Response(400, Plain("Missing body"))
  const InvalidJson: Response := Response(400, Plain("Invalid JSON"))
  const SaveFailed: Response := Response(500, Plain("Save failed"))
  const DeleteFailed: Response := Response(404, Plain("Delete failed"))
  const Done: Response := Response(200, Plain("OK"))
  const MethodNotAllowed: Response := Response(405, Plain("Method not allowed"))
  const NotFound: Response := Response(404, Plain("Not found"))
  const InvalidRfid: Response := Response(400, Plain("Invalid RFID"))

  /** `toHex` of each id, in order. */
  function HexList(ids: seq<U32>): (names: seq<string>)
    ensures |names| == |ids|
    ensures forall k :: 0 <= k < |ids| ==> names[k] == Format08X(ids[k])
  {
    seq(|ids|, k requires 0 <= k < |ids| => Format08X(ids[k]))
  }

  lemma HexListSnoc(ids: seq<U32>, id: U32)
    ensures HexList(ids + [id]) == HexList(ids) + [Format08X(id)]
  {
    var longer := ids + [id];
    forall k | 0 <= k < |longer|
      ensures HexList(longer)[k] == (HexList(ids) + [Format08X(id)])[k]
    {
      if k < |ids| {
        assert longer[k] == ids[k];
      }
    }
  }

  /** The ids a successful listing reports: the first 64 parsed from the directory. */
  function ListedNames(entries: seq<DirEntry>): seq<string>
  {
    HexList(Take(ParsedIds(entries), MaxBaseList))
  }

  /**
   * Every name in a listing is eight hex digits that a later request can
   * use: it parses to a non-zero id that some file name in the directory
   * yields, and there are at most 64 names.
   */
  lemma ListedNamesUsable(entries: seq<DirEntry>)
    ensures |ListedNames(entries)| <= MaxBaseList
    ensures forall k :: 0 <= k < |ListedNames(entries)| ==>
              var name := ListedNames(entries)[k];
              |name| == 8 && ParseHex(name).Some? &&
              exists i :: 0 <= i < |entries| && EntryId(entries[i]) == ParseHex(name).value
  {
    var ids := Take(ParsedIds(entries), MaxBaseList);
    var names := ListedNames(entries);
    ListedIds(entries, MaxBaseList);
    forall k | 0 <= k < |names|
      ensures |names[k]| == 8 && ParseHex(names[k]) == Some(ids[k])
      ensures exists i :: 0 <= i < |entries| && EntryId(entries[i]) == ids[k]
    {
      assert ids[k] in ids;
      assert names[k] == Format08X(ids[k]);
      ParseHexOfName(ids[k]);
    }
  }

  /** `toHex` of a non-zero id on its own parses back to it. */
  lemma ParseHexOfName(r: U32)
    requires r != 0
    ensures ParseHex(Format08X(r)) == Some(r)
  {
    assert Format08X(r) + [] == Format08X(r);
    ParseHexOfToHex(r, []);
  }

  /** The `/api/rfid` value: "" when no tag is latched, else `toHex` of the tag, which parses back to it. */
  function RfidText(r: U32): (s: string)
    ensures s == [] <==> r == 0
    ensures r != 0 ==> |s| == 8 && ParseHex(s) == Some(r)
  {
    if r != 0 then
      ParseHexOfToHex(r, []);
      assert Format08X(r) + [] == Format08X(r);
      Format08X(r)
    else ""
  }

  /** The record body of `handleGetBase`: the id in hex and the four fields. */
  function RecordBody(r: U32, info: BaseInfo): Body
  {
    BaseRecord(Format08X(r), info.paintName, info.recipeName, info.recipeId, info.notes)
  }

  // ---------------------------------------------------------------- routing

  /** The handler a request reaches, with the id when it names a record. */
  datatype Route =
    | ServePage
    | ListBases
    | ListNotAllowed
    | ReportRfid
    | UnknownPath
    | BadId
    | GetItem(rfid: U32)
    | PutItem(rfid: U32)
    | DeleteItem(rfid: U32)
    | ItemNotAllowed

  /** The record handler's choice once the id text has been parsed: a bad id first, then the method. */
  function ItemRouteOf(verb: HttpMethod, id: Option<U32>): Route
  {
    match id
    case None => BadId
    case Some(r) =>
      if verb == Get then GetItem(r)
      else if verb == Put then PutItem(r)
      else if verb == Delete then DeleteItem(r)
      else ItemNotAllowed
  }

  /** The id text of a path under `/api/bases/`. */
  function ItemId(uri: string): string
    requires ItemPrefix <= uri
  {
    uri[|ItemPrefix|..]
  }

  /**
   * The route table: GET on "/" and "/index.html" serves the page, any
   * method on "/api/bases" reaches the list handler, GET on "/api/rfid"
   * the tag report, and everything else falls through to the record
   * handler, which wants the `/api/bases/` prefix and a valid id before it
   * looks at the method.
   */
  function RouteOf(req: Request): Route
  {
    match FixedRoute(req.verb, req.uri)
    case Some(route) => route
    case None =>
      if !(ItemPrefix <= req.uri) then UnknownPath
      else ItemRouteOf(req.verb, ParseHex(ItemId(req.uri)))
  }

  /** The routes registered for fixed paths; `None` falls through to the record handler. */
  function FixedRoute(verb: HttpMethod, uri: string): (r: Option<Route>)
    ensures r.Some? ==> r.value in {ServePage, ListBases, ListNotAllowed, ReportRfid}
  {
    if (uri == RootPath || uri == IndexPath) && verb == Get then Some(ServePage)
    else if uri == BasesPath then Some(if verb == Get then ListBases else ListNotAllowed)
    else if uri == RfidPath && verb == Get then Some(ReportRfid)
    else None
  }

  /** A valid id is never 0. */
  lemma ItemRouteIds(verb: HttpMethod, id: Option<U32>)
    requires id.Some? ==> id.value != 0
    ensures ItemRouteOf(verb, id).GetItem? || ItemRouteOf(verb, id).PutItem? || ItemRouteOf(verb, id).DeleteItem? ==>
              ItemRouteOf(verb, id).rfid != 0
  {
  }

  /** Id 0 never reaches a record handler. */
  lemma RoutedIdsNonZero(req: Request)
    ensures RouteOf(req).GetItem? ==> RouteOf(req).rfid != 0
    ensures RouteOf(req).PutItem? ==> RouteOf(req).rfid != 0
    ensures RouteOf(req).DeleteItem? ==> RouteOf(req).rfid != 0
  {
    if FixedRoute(req.verb, req.uri).None? && ItemPrefix <= req.uri {
      ItemRouteIds(req.verb, ParseHex(ItemId(req.uri)));
    }
  }

  /** A path under `/api/bases/` is none of the fixed routes. */
  lemma ItemPathNotFixed(uri: string)
    requires ItemPrefix <= uri
    ensures uri != RootPath && uri != IndexPath && uri != BasesPath && uri != RfidPath
  {
    assert |ItemPrefix| == 11 && |RootPath| == 1 && |IndexPath| == 11 && |BasesPath| == 10 && |RfidPath| == 9;
    assert uri[10] == ItemPrefix[10] == '/' && IndexPath[10] == 'l';
  }

  /** A path under `/api/bases/` with an invalid id is refused whatever the method. */
  lemma InvalidIdBeforeMethod(verb: HttpMethod, id: string, body: Option<string>)
    requires ParseHex(id) == None
    ensures RouteOf(Request(verb, ItemPrefix + id, body)) == BadId
  {
    var uri := ItemPrefix + id;
    assert ItemPrefix <= uri && ItemId(uri) == id;
    ItemPathNotFixed(uri);
  }

  /**
   * The path a client builds from a listed id, optionally followed by a
   * sub-path starting with a non-hex character, routes to that id: GET, PUT
   * and DELETE reach their handlers, any other method is not allowed.
   */
  lemma ItemRoute(verb: HttpMethod, r: U32, rest: string, body: Option<string>)
    requires r != 0
    requires rest == [] || !IsHexDigit(rest[0])
    ensures RouteOf(Request(verb, ItemPrefix + Format08X(r) + rest, body)) == ItemRouteOf(verb, Some(r))
  {
    var id := Format08X(r) + rest;
    var uri := ItemPrefix + id;
    assert ItemPrefix + Format08X(r) + rest == uri;
    assert ItemPrefix <= uri && ItemId(uri) == id;
    ItemPathNotFixed(uri);
    ParseHexOfToHex(r, rest);
  }

  /** A path outside the table and without the `/api/bases/` prefix is not found, whatever the method. */
  lemma UnknownPathNotFound(req: Request)
    requires req.uri != RootPath && req.uri != IndexPath && req.uri != BasesPath && req.uri != RfidPath
    requires !(ItemPrefix <= req.uri)
    ensures RouteOf(req) == UnknownPath
  {
  }

  /** Only GET reaches the list; any other method on `/api/bases` is not allowed. */
  lemma ListOnlyByGet(verb: HttpMethod, body: Option<string>)
    ensures RouteOf(Request(verb, BasesPath, body)) == if verb == Get then ListBases else ListNotAllowed
  {
  }

  // --------------------------------------------------------------- the server

  /** The loop of `handleListBases`: `toHex` of each of the first `count` ids, appended in order. */
  method HexNames(ids: array<U32>, count: nat) returns (names: seq<string>)
    requires count <= ids.Length
    ensures names == HexList(ids[..count])
  {
    names := [];
    var i := 0;
    assert ids[..0] == [];
    while i < count
      invariant 0 <= i <= count
      invariant names == HexList(ids[..i])
    {
      assert ids[..i + 1] == ids[..i] + [ids[i]];
      HexListSnoc(ids[..i], ids[i]);
      names := names + [Format08X(ids[i])];
      i := i + 1;
    }
  }

  /**
   * What serving `req` does, by the route it takes: the fixed routes answer
   * without touching the files, a bad path or id is refused, and a record
   * request has the effect `ItemEffect` gives it. `before` and `after` are
   * the files around the request and `rfid` the tag the web UI reports.
   */
  ghost predicate Served(req: Request, root: DirHandle, io: WriteResult, rfid: U32, codec: Codec,
                         before: Files, after: Files, resp: Response)
  {
    var route := RouteOf(req);
    (route == ServePage ==> resp == Response(200, IndexPage)) &&
    (route == ListBases ==>
       resp == (if root.Directory? then Response(200, BaseList(ListedNames(root.entries))) else ListFailed)) &&
    (route == ListNotAllowed || route == ItemNotAllowed ==> resp == MethodNotAllowed) &&
    (route == ReportRfid ==> resp == Response(200, RfidReport(RfidText(rfid)))) &&
    (route == UnknownPath ==> resp == NotFound) &&
    (route == BadId ==> resp == InvalidRfid) &&
    (route.GetItem? || route.PutItem? || route.DeleteItem? ==>
       ItemEffect(req.verb, route.rfid, req.body, io, before, codec, after, resp)) &&
    (!(route.PutItem? || route.DeleteItem?) ==> after == before)
  }

  /** A request that no fixed path takes is served as `handleApiBaseItem` answers it. */
  lemma ItemRequestServed(req: Request, root: DirHandle, io: WriteResult, rfid: U32, codec: Codec,
                          before: Files, after: Files, resp: Response)
    requires FixedRoute(req.verb, req.uri).None?
    requires !(ItemPrefix <= req.uri) ==> resp == NotFound && after == before
    requires ItemPrefix <= req.uri && ParseHex(ItemId(req.uri)).None? ==> resp == InvalidRfid && after == before
    requires ItemPrefix <= req.uri && ParseHex(ItemId(req.uri)).Some? ==>
               ItemEffect(req.verb, ParseHex(ItemId(req.uri)).value, req.body, io, before, codec, after, resp)
    ensures Served(req, root, io, rfid, codec, before, after, resp)
  {
    if ItemPrefix <= req.uri {
      var id := ParseHex(ItemId(req.uri));
      assert RouteOf(req) == ItemRouteOf(req.verb, id);
      if id.Some? && !(req.verb == Put || req.verb == Delete) {
        assert after == before;
      }
    }
  }

  /** The web UI: the tag last pushed by the main loop and the store it serves. */
  class WebUi {
    var currentRfid: U32
    const store: Store

    /** `g_currentRfid = 0` at start. */
    constructor (store: Store)
      ensures this.store == store && currentRfid == 0
    {
      this.store := store;
      currentRfid := 0;
    }

    /** `setCurrentRfid(rfid)` */
    method SetCurrentRfid(r: U32)
      modifies this
      ensures currentRfid == r
    {
      currentRfid := r;
    }

    /** `handleRfid()`: 200 with the current tag in hex, or "" when none is latched. */
    method HandleRfid() returns (resp: Response)
      ensures resp == Response(200, RfidReport(RfidText(currentRfid)))
    {
      if currentRfid != 0 {
        resp := Response(200, RfidReport(RfidText(currentRfid)));
      } else {
        resp := Response(200, RfidReport(""));
      }
    }

    /** `handleListBases()`: 500 when `/bases` cannot be listed, else 200 with the first 64 ids in hex. */
    method HandleListBases(root: DirHandle) returns (resp: Response)
      ensures !root.Directory? ==> resp == ListFailed
      ensures root.Directory? ==> resp == Response(200, BaseList(ListedNames(root.entries)))
    {
      var ids := new U32[MaxBaseList];
      var ok, count := ListBaseIds(root, ids, MaxBaseList);
      if !ok {
        return ListFailed;
      }
      var names := HexNames(ids, count);
      resp := Response(200, BaseList(names));
    }

    /** `handleGetBase(rfid)`: 404 unless the record loads; else 200 with the id and the four stored fields. */
    method HandleGetBase(r: U32) returns (resp: Response)
      ensures Stored(store.files, store.codec, r).None? ==> resp == BaseNotFound
      ensures Stored(store.files, store.codec, r).Some? ==>
                resp == Response(200, RecordBody(r, Stored(store.files, store.codec, r).value))
    {
      var ok, info := store.LoadBase(r, EmptyInfo());
      if !ok {
        return BaseNotFound;
      }
      resp := Response(200, BaseRecord(Format08X(r), info.paintName, info.recipeName, info.recipeId, info.notes));
    }

    /**
     * `handlePutBase(rfid)`: 400 for a missing body or text that does not
     * parse, leaving the files alone; otherwise each field is taken from
     * the body (or "" when absent or not a string), truncated to its array,
     * and saved: 500 when the save fails, 200 "OK" when it succeeds.
     */
    method HandlePutBase(r: U32, body: Option<string>, io: WriteResult) returns (resp: Response)
      modifies store
      ensures body.None? ==> resp == MissingBody && store.files == old(store.files)
      ensures body.Some? && store.codec.deserialize(body.value).None? ==>
                resp == InvalidJson && store.files == old(store.files)
      ensures body.Some? && store.codec.deserialize(body.value).Some? ==>
                var info := Decode(store.codec.deserialize(body.value).value);
                store.files == AfterSave(old(store.files), store.codec, r, info, io) &&
                resp == (if SaveSucceeded(store.codec, r, info, io) then Done else SaveFailed)
    {
      if body.None? {
        return MissingBody;
      }
      var parsed := store.codec.deserialize(body.value);
      if parsed.None? {
        return InvalidJson;
      }
      var info := Decode(parsed.value);
      var ok := store.SaveBase(r, info, io);
      if !ok {
        return SaveFailed;
      }
      resp := Done;
    }

    /** `handleDeleteBase(rfid)`: 404 unless the record's file existed and was removed; else 200 "OK". */
    method HandleDeleteBase(r: U32) returns (resp: Response)
      modifies store
      ensures resp == (if r != 0 && BasePath(r) in old(store.files) then Done else DeleteFailed)
      ensures store.files == if r != 0 then old(store.files) - {BasePath(r)} else old(store.files)
    {
      var ok := store.DeleteBase(r);
      if !ok {
        return DeleteFailed;
      }
      resp := Done;
    }

    /** `handleApiBases()`: GET lists, any other method is refused with 405. */
    method HandleApiBases(verb: HttpMethod, root: DirHandle) returns (resp: Response)
      ensures verb != Get ==> resp == MethodNotAllowed
      ensures verb == Get && !root.Directory? ==> resp == ListFailed
      ensures verb == Get && root.Directory? ==> resp == Response(200, BaseList(ListedNames(root.entries)))
    {
      if verb == Get {
        resp := HandleListBases(root);
        return;
      }
      resp := MethodNotAllowed;
    }

    /**
     * `handleApiBaseItem()`: 404 without the `/api/bases/` prefix, 400 for
     * an invalid id, then GET, PUT and DELETE go to their handlers and any
     * other method is refused with 405.
     */
    method HandleApiBaseItem(req: Request, io: WriteResult) returns (resp: Response)
      modifies store
      ensures !(ItemPrefix <= req.uri) ==> resp == NotFound && store.files == old(store.files)
      ensures ItemPrefix <= req.uri && ParseHex(ItemId(req.uri)).None? ==>
                resp == InvalidRfid && store.files == old(store.files)
      ensures ItemPrefix <= req.uri && ParseHex(ItemId(req.uri)).Some? ==>
                var r := ParseHex(ItemId(req.uri)).value;
                ItemEffect(req.verb, r, req.body, io, old(store.files), store.codec, store.files, resp)
    {
      if !(ItemPrefix <= req.uri) {
        return NotFound;
      }
      var parsed := ParseHex(ItemId(req.uri));
      if parsed.None? {
        return InvalidRfid;
      }
      resp := DispatchItem(req.verb, parsed.value, req.body, io);
    }

    /** The method switch of `handleApiBaseItem` once the id is valid. */
    method DispatchItem(verb: HttpMethod, r: U32, body: Option<string>, io: WriteResult) returns (resp: Response)
      modifies store
      ensures ItemEffect(verb, r, body, io, old(store.files), store.codec, store.files, resp)
    {
      if verb == Get {
        resp := HandleGetBase(r);
      } else if verb == Put {
        resp := HandlePutBase(r, body, io);
      } else if verb == Delete {
        resp := HandleDeleteBase(r);
      } else {
        resp := MethodNotAllowed;
      }
    }

    /**
     * One request through the route table. The listing of `/bases` and the
     * outcome of a file write are the environment's.
     */
    method Serve(req: Request, root: DirHandle, io: WriteResult) returns (resp: Response)
      modifies store
      ensures Served(req, root, io, currentRfid, store.codec, old(store.files), store.files, resp)
    {
      var fixed := FixedRoute(req.verb, req.uri);
      if fixed == Some(ServePage) {
        return Response(200, IndexPage);
      }
      if fixed == Some(ListBases) || fixed == Some(ListNotAllowed) {
        resp := HandleApiBases(req.verb, root);
        return;
      }
      if fixed == Some(ReportRfid) {
        resp := HandleRfid();
        return;
      }
      resp := HandleApiBaseItem(req, io);
      ItemRequestServed(req, root, io, currentRfid, store.codec, old(store.files), store.files, resp);
    }
  }

  /**
   * What a record request with a valid id `r` does: GET answers from the
   * files, PUT saves the decoded body, DELETE removes the file, any other
   * method is refused; `before` and `after` are the files around it.
   */
  ghost predicate ItemEffect(verb: HttpMethod, r: U32, body: Option<string>, io: WriteResult,
                             before: Files, codec: Codec, after: Files, resp: Response)
  {
    match verb
    case Get =>
      after == before &&
      resp == (if Stored(before, codec, r).Some? then Response(200, RecordBody(r, Stored(before, codec, r).value))
               else BaseNotFound)
    case Put =>
      if body.None? then resp == MissingBody && after == before
      else if codec.deserialize(body.value).None? then resp == InvalidJson && after == before
      else
        var info := Decode(codec.deserialize(body.value).value);
        after == AfterSave(before, codec, r, info, io) &&
        resp == (if SaveSucceeded(codec, r, info, io) then Done else SaveFailed)
    case Delete =>
      after == (if r != 0 then before - {BasePath(r)} else before) &&
      resp == (if r != 0 && BasePath(r) in before then Done else DeleteFailed)
    case _ => after == before && resp == MethodNotAllowed
  }

  /**
   * A successful PUT of a body followed by a GET of the same id finds the
   * record the body decodes to (whose fields `DecodeFields` describes),
   * provided the codec reads back what it writes.
   */
  lemma PutThenGet(before: Files, codec: Codec, r: U32, body: string, io: WriteResult, mid: Files, putResp: Response)
    requires RoundTrips(codec)
    requires ItemEffect(Put, r, Some(body), io, before, codec, mid, putResp) && putResp == Done
    ensures codec.deserialize(body).Some?
    ensures Stored(mid, codec, r) == Some(Decode(codec.deserialize(body).value))
  {
    SaveThenLoad(before, codec, r, Decode(codec.deserialize(body).value), io);
  }

  /**
   * The answer `handlePutBase` gives as written: 200 "OK" whenever `saveBase`
   * reports success, which it does for a write of any non-zero length.
   */
  function PutResponseAsWritten(codec: Codec, r: U32, body: Option<string>, io: WriteResult): Response
  {
    if body.None? then MissingBody
    else if codec.deserialize(body.value).None? then InvalidJson
    else if SaveReportedAsWritten(codec, r, Decode(codec.deserialize(body.value).value), io) then Done
    else SaveFailed
  }

  /**
   * A PUT whose write stops after one byte of a longer record `info`: as
   * written it is answered 200 "OK", the corrected handler answers 500, and
   * either way the file holds only the record's first character.
   */
  lemma ShortWritePutAnsweredOk(before: Files, codec: Codec, r: U32, body: string, info: BaseInfo, after: Files, resp: Response)
    requires r != 0 && codec.deserialize(body).Some? && info == Decode(codec.deserialize(body).value)
    requires |SavedText(codec, info)| >= 2
    requires ItemEffect(Put, r, Some(body), Wrote(1), before, codec, after, resp)
    ensures PutResponseAsWritten(codec, r, Some(body), Wrote(1)) == Done
    ensures resp == SaveFailed
    ensures after == before[BasePath(r) := SavedText(codec, info)[..1]]
  {
    ShortWriteReportedAsSaved(before, codec, r, info);
  }
}
