/**
 * The pixmap client's session state (src/api/pixmap.ts): the account and
 * canvas list, the selected canvas, the tile cache, the local overlay of
 * pixels the bot has written, and the placements awaiting an
 * acknowledgement. In the source these are module-level variables that
 * the exported functions update in place; here they are the fields of one
 * `Session` object.
 */
module Pixmap {
  import opened Wrappers
  import opened Types
  import opened Coords
  import opened CacheOrder
  import opened Protocol
  import Palette

  /** Identifier of one pending placement (a time stamp and a random number in the source). */
  type RequestId = nat

  /** One entry of the account's `canvases` record, keyed by its numeric id. */
  datatype CanvasEntry = CanvasEntry(key: nat, canvas: CanvasInfo)

  /** `Object.keys` enumerates integer keys in ascending order. */
  predicate AscendingKeys(entries: seq<CanvasEntry>)
  {
    forall i, j :: 0 <= i < j < |entries| ==> entries[i].key < entries[j].key
  }

  /** `canvases[String(id)]`. */
  function Lookup(entries: seq<CanvasEntry>, id: int): (r: Option<CanvasInfo>)
    ensures r.None? <==> forall i :: 0 <= i < |entries| ==> entries[i].key != id
    ensures r.Some? ==> exists i :: 0 <= i < |entries| && entries[i] == CanvasEntry(id, r.value)
  {
    if entries == [] then None
    else if entries[0].key == id then Some(entries[0].canvas)
    else Lookup(entries[1..], id)
  }

  /** The canvas `getMainCanvas` returns and the canvas id it leaves behind. */
  datatype Selection = Selection(canvas: Option<CanvasInfo>, canvasId: int)

  /**
   * `getMainCanvas`: the cached canvas if any; otherwise the canvas with
   * the current id; otherwise the first canvas listed, whose id becomes
   * the current one; otherwise none.
   */
  function SelectCanvas(me: Option<seq<CanvasEntry>>, cached: Option<CanvasInfo>, id: int): Selection
  {
    if cached.Some? then Selection(cached, id)
    else if me.None? then Selection(None, id)
    else if Lookup(me.value, id).Some? then Selection(Lookup(me.value, id), id)
    else if |me.value| > 0 then Selection(Some(me.value[0].canvas), me.value[0].key)
    else Selection(None, id)
  }

  /**
   * Without a cached canvas, the canvas with the current id is chosen when
   * listed, else the one with the smallest id; no canvas is chosen only
   * when the list is missing or empty. Selecting again from the state a
   * selection leaves behind changes nothing.
   */
  lemma SelectCanvasMeaning(me: Option<seq<CanvasEntry>>, id: int)
    requires me.Some? ==> AscendingKeys(me.value)
    ensures var s := SelectCanvas(me, None, id);
      && (s.canvas.None? <==> me.None? || |me.value| == 0)
      && (me.Some? && (exists i :: 0 <= i < |me.value| && me.value[i].key == id) ==>
            s.canvasId == id && Lookup(me.value, id) == s.canvas)
      && (me.Some? && s.canvas.Some? ==> exists i :: 0 <= i < |me.value| && me.value[i] == CanvasEntry(s.canvasId, s.canvas.value))
      && (me.Some? && s.canvas.Some? && s.canvasId != id ==>
            forall i :: 0 <= i < |me.value| ==> s.canvasId <= me.value[i].key)
      && SelectCanvas(me, s.canvas, s.canvasId) == s
  {
    var s := SelectCanvas(me, None, id);
    if me.Some? && s.canvas.Some? && s.canvasId != id {
      assert Lookup(me.value, id).None?;
      forall i | 0 <= i < |me.value|
        ensures s.canvasId <= me.value[i].key
      {
        if i > 0 {
          assert me.value[0].key < me.value[i].key;
        }
      }
    }
  }

  /** How a tile request ends: an HTTP status with its body, or a thrown error. */
  datatype FetchOutcome = Response(status: int, body: seq<byte>) | NetworkError

  /** `fetchChunk` caches a tile on 404 (as all zeros) and on any 2xx status. */
  predicate Cached(outcome: FetchOutcome)
  {
    outcome.Response? && (outcome.status == 404 || 200 <= outcome.status < 300)
  }

  /** The bytes cached for a successful request. */
  function FetchedBytes(outcome: FetchOutcome): (b: seq<byte>)
    requires Cached(outcome)
    ensures outcome.status == 404 ==> |b| == TILE_PIXELS && forall i :: 0 <= i < |b| ==> b[i] == 0
    ensures outcome.status != 404 ==> b == outcome.body
  {
    if outcome.status == 404 then seq(TILE_PIXELS, _ => 0) else outcome.body
  }

  /** A WebSocket message: binary frames are handled, anything else is ignored. */
  datatype Message = Binary(bytes: seq<byte>) | Other

  /** How `placePixelViaWebSocket` proceeds: resolved at once, or a frame sent and awaited. */
  datatype PlaceStart = Resolved(result: PlaceResult) | Sent(frame: seq<byte>, requestId: RequestId)

  /** One entry of `batchCheckPixelColors`'s answer. */
  datatype PixelCheck = PixelCheck(index: nat, needsUpdate: bool)

  /** Tile contents after `updateChunkPixel`: one byte written if the tile is cached and long enough. */
  function WritePixel(contents: map<TileKey, seq<byte>>, canvas: Option<CanvasInfo>,
                      canvasId: int, x: int, y: int, color: int): map<TileKey, seq<byte>>
  {
    if canvas.None? then contents
    else
      var key := PixelToChunk(canvasId, x, y, canvas.value.size);
      var i := LocalIndex(x, y, canvas.value.size);
      var b: byte := Uint8(color);
      if key in contents && i < |contents[key]| then
        var tile: seq<byte> := contents[key][i := b];
        contents[key := tile]
      else contents
  }

  /**
   * After a write the pixel reads back as the colour's low byte, and every
   * other pixel of every tile reads as before.
   */
  lemma WritePixelThenRead(contents: map<TileKey, seq<byte>>, canvas: CanvasInfo, canvasId: int,
                           x: int, y: int, color: int, x': int, y': int)
    requires PixelToChunk(canvasId, x, y, canvas.size) in contents
    requires LocalIndex(x, y, canvas.size) < |contents[PixelToChunk(canvasId, x, y, canvas.size)]|
    ensures var after := WritePixel(contents, Some(canvas), canvasId, x, y, color);
      && after.Keys == contents.Keys
      && PixelFromTile(after[PixelToChunk(canvasId, x, y, canvas.size)], x, y, canvas.size) == Uint8(color)
      && ((x', y') != (x, y) && PixelToChunk(canvasId, x', y', canvas.size) in contents ==>
            PixelFromTile(after[PixelToChunk(canvasId, x', y', canvas.size)], x', y', canvas.size)
            == PixelFromTile(contents[PixelToChunk(canvasId, x', y', canvas.size)], x', y', canvas.size))
  {
    var size := canvas.size;
    if (x', y') != (x, y) && PixelToChunk(canvasId, x', y', size) == PixelToChunk(canvasId, x, y, size)
       && LocalIndex(x', y', size) == LocalIndex(x, y, size) {
      LocalIndexInjective(x, y, x', y', size);
    }
  }

  /** Tile bytes after the handler writes `recs` in order; records past the end are skipped. */
  function PatchTile(t: seq<byte>, recs: seq<DeltaRecord>): (r: seq<byte>)
    ensures |r| == |t|
  {
    if recs == [] then t
    else
      var p := PatchTile(t, recs[..|recs| - 1]);
      var rec := recs[|recs| - 1];
      if rec.offset < |p| then p[rec.offset := rec.color] else p
  }

  /** The colour of the last record written at `i`, or `dflt` when none is. */
  function LastWriteAt(recs: seq<DeltaRecord>, i: nat, dflt: byte): byte
  {
    if recs == [] then dflt
    else if recs[|recs| - 1].offset == i then recs[|recs| - 1].color
    else LastWriteAt(recs[..|recs| - 1], i, dflt)
  }

  /** Every byte of the patched tile holds the last colour written to it, or its old value. */
  lemma {:induction false} PatchTileLastWriteWins(t: seq<byte>, recs: seq<DeltaRecord>, i: nat)
    requires i < |t|
    ensures PatchTile(t, recs)[i] == LastWriteAt(recs, i, t[i])
    decreases |recs|
  {
    if recs != [] {
      PatchTileLastWriteWins(t, recs[..|recs| - 1], i);
    }
  }

  /**
   * Overlay after the handler's records: for each record, in order, the
   * pixel it names (in canvas `cId`, tile `(ci, cj)`) takes the record's
   * colour if, and only if, the overlay already has an entry for it.
   */
  function PatchOverlay(ov: map<PixelKey, int>, cId: int, ci: int, cj: int,
                        canvas: Option<CanvasInfo>, recs: seq<DeltaRecord>): map<PixelKey, int>
  {
    if recs == [] || canvas.None? then ov
    else
      var o := PatchOverlay(ov, cId, ci, cj, canvas, recs[..|recs| - 1]);
      var rec := recs[|recs| - 1];
      var size := canvas.value.size;
      var k := PixelKey(cId, DeltaWorldX(ci, rec.offset, size), DeltaWorldY(cj, rec.offset, size));
      if k in o then o[k := rec.color] else o
  }

  /**
   * Server updates only refresh pixels the bot already tracks: the
   * overlay's keys never change, and an entry changes only to a colour
   * some record carries.
   */
  lemma {:induction false} PatchOverlayKeepsKeys(ov: map<PixelKey, int>, cId: int, ci: int, cj: int,
                                                 canvas: Option<CanvasInfo>, recs: seq<DeltaRecord>)
    ensures PatchOverlay(ov, cId, ci, cj, canvas, recs).Keys == ov.Keys
    ensures forall k :: k in ov ==>
      PatchOverlay(ov, cId, ci, cj, canvas, recs)[k] == ov[k]
      || exists n :: 0 <= n < |recs| && PatchOverlay(ov, cId, ci, cj, canvas, recs)[k] == recs[n].color
    decreases |recs|
  {
    if recs != [] && canvas.Some? {
      var init := recs[..|recs| - 1];
      PatchOverlayKeepsKeys(ov, cId, ci, cj, canvas, init);
      forall k | k in ov
        ensures PatchOverlay(ov, cId, ci, cj, canvas, recs)[k] == ov[k]
          || exists n :: 0 <= n < |recs| && PatchOverlay(ov, cId, ci, cj, canvas, recs)[k] == recs[n].color
      {
        var o := PatchOverlay(ov, cId, ci, cj, canvas, init);
        if PatchOverlay(ov, cId, ci, cj, canvas, recs)[k] != o[k] {
          assert PatchOverlay(ov, cId, ci, cj, canvas, recs)[k] == recs[|recs| - 1].color;
        } else if o[k] != ov[k] {
          var n :| 0 <= n < |init| && o[k] == init[n].color;
          assert recs[n] == init[n];
        }
      }
    }
  }

  /** `Map.set` on the pending placements: a new id goes last, a known one keeps its place. */
  function AddId(pending: seq<RequestId>, id: RequestId): (r: seq<RequestId>)
    ensures forall x :: x in r <==> x in pending || x == id
    ensures UniqueIds(pending) ==> UniqueIds(r)
  {
    if id in pending then pending else pending + [id]
  }

  /** `Map.delete` on the pending placements. */
  function RemoveId(pending: seq<RequestId>, id: RequestId): (r: seq<RequestId>)
    ensures forall x :: x in r <==> x in pending && x != id
    ensures UniqueIds(pending) ==> UniqueIds(r)
    ensures id !in pending ==> r == pending
  {
    if pending == [] then []
    else if pending[0] == id then RemoveId(pending[1..], id)
    else
      var rest := RemoveId(pending[1..], id);
      assert UniqueIds(pending) ==> pending[0] !in pending[1..] && UniqueIds(pending[1..]);
      [pending[0]] + rest
  }

  predicate UniqueIds(s: seq<RequestId>)
  {
    forall i, j :: 0 <= i < j < |s| ==> s[i] != s[j]
  }

  /** Dropping an id that was just appended gives the sequence without it. */
  lemma {:induction false} RemoveIdAppended(pending: seq<RequestId>, id: RequestId)
    ensures RemoveId(pending + [id], id) == RemoveId(pending, id)
    decreases |pending|
  {
    if pending != [] {
      assert (pending + [id])[1..] == pending[1..] + [id];
      RemoveIdAppended(pending[1..], id);
    } else {
      assert [id][1..] == [];
    }
  }

  function Min(a: int, b: int): int
  {
    if a < b then a else b
  }

  /** One more record patches the tile as the handler's loop body does. */
  lemma PatchTileSnoc(t: seq<byte>, recs: seq<DeltaRecord>, rec: DeltaRecord)
    ensures PatchTile(t, recs + [rec])
      == (var p := PatchTile(t, recs); if rec.offset < |p| then p[rec.offset := rec.color] else p)
  {
    assert (recs + [rec])[..|recs|] == recs;
  }

  /** One more record refreshes the overlay as the handler's loop body does. */
  lemma PatchOverlaySnoc(ov: map<PixelKey, int>, cId: int, ci: int, cj: int,
                         canvas: Option<CanvasInfo>, recs: seq<DeltaRecord>, rec: DeltaRecord)
    requires canvas.Some?
    ensures PatchOverlay(ov, cId, ci, cj, canvas, recs + [rec])
      == (var o := PatchOverlay(ov, cId, ci, cj, canvas, recs);
          var size := canvas.value.size;
          var k := PixelKey(cId, DeltaWorldX(ci, rec.offset, size), DeltaWorldY(cj, rec.offset, size));
          if k in o then o[k := rec.color] else o)
  {
    assert (recs + [rec])[..|recs|] == recs;
  }

  lemma PatchOverlayNone(ov: map<PixelKey, int>, cId: int, ci: int, cj: int, recs: seq<DeltaRecord>)
    ensures PatchOverlay(ov, cId, ci, cj, None, recs) == ov
  {
  }

  /** Reading one more record moves it from the unread part to the read part. */
  lemma RecordsStep(b: seq<byte>, off: nat, done: seq<DeltaRecord>)
    requires 4 <= off <= |b|
    ensures done + RecordsFrom(b, off) == (done + [RecordEndingAt(b, off)]) + RecordsFrom(b, off - 4)
  {
  }

  /**
   * The loop of the pixel-update branch: reads the frame's records from
   * the end backwards, writes each into the tile (when there is one and the
   * offset is inside it) and refreshes the overlay entry of the pixel it
   * names (when a canvas is selected and the entry exists).
   */
  method ApplyRecords(b: seq<byte>, chunkData: array?<byte>, cId: int, ci: int, cj: int,
                      canvas: Option<CanvasInfo>, ov: map<PixelKey, int>) returns (ov': map<PixelKey, int>)
    requires IsDeltaFrame(b)
    modifies chunkData
    ensures chunkData != null ==> chunkData[..] == PatchTile(old(chunkData[..]), DeltaRecords(b))
    ensures ov' == PatchOverlay(ov, cId, ci, cj, canvas, DeltaRecords(b))
  {
    ghost var tile0 := if chunkData != null then chunkData[..] else [];
    ov' := ov;
    ghost var done: seq<DeltaRecord> := [];
    var off := |b|;
    while off > 3
      invariant 0 <= off <= |b|
      invariant done + RecordsFrom(b, off) == DeltaRecords(b)
      invariant chunkData != null ==> chunkData[..] == PatchTile(tile0, done)
      invariant ov' == PatchOverlay(ov, cId, ci, cj, canvas, done)
      decreases off
    {
      RecordsStep(b, off, done);
      off := off - 1;
      var color := b[off];
      off := off - 2;
      var offsetL := U16At(b, off);
      off := off - 1;
      var offsetH := (b[off] as int) * 0x1_0000;
      var offset: nat := offsetH + offsetL;
      ghost var rec := DeltaRecord(offset, color);
      assert RecordEndingAt(b, off + 4) == rec;
      if chunkData != null {
        PatchTileSnoc(tile0, done, rec);
        if offset < chunkData.Length {
          chunkData[offset] := color;
        }
      }
      if canvas.Some? {
        PatchOverlaySnoc(ov, cId, ci, cj, canvas, done, rec);
        var size := canvas.value.size;
        var overlayKey := PixelKey(cId, DeltaWorldX(ci, offset, size), DeltaWorldY(cj, offset, size));
        if overlayKey in ov' {
          ov' := ov'[overlayKey := color];
        }
      } else {
        PatchOverlayNone(ov, cId, ci, cj, done + [rec]);
      }
      done := done + [rec];
    }
    assert RecordsFrom(b, off) == [];
    assert done == DeltaRecords(b);
  }

  /**
   * Progress of a prefetch over `list`, on the cache state `order`/`tiles`:
   * see `Session.FetchedUpTo`.
   */
  ghost predicate Fetched(order: seq<TileKey>, tiles: map<TileKey, array<byte>>,
                          tiles0: map<TileKey, array<byte>>, n0: int, list: seq<TileKey>, b: nat,
                          net: TileKey -> FetchOutcome)
  {
    && b <= |list|
    && |order| <= n0 + b
    && (forall k :: k in tiles ==> k in tiles0 || k in list[..b])
    && (forall k :: k in tiles0 && k in tiles ==> tiles[k] == tiles0[k])
    && (n0 + |list| <= CHUNK_CACHE_MAX_SIZE ==>
          && (forall k :: k in tiles0 ==> k in tiles)
          && (forall j :: 0 <= j < b && Cached(net(list[j])) ==> list[j] in tiles))
  }

  /** A request that does not cache its tile leaves the cache as it was. */
  lemma FetchedSkip(order: seq<TileKey>, tiles: map<TileKey, array<byte>>,
                    tiles0: map<TileKey, array<byte>>, n0: int, list: seq<TileKey>, b: nat,
                    net: TileKey -> FetchOutcome)
    requires b < |list| && !Cached(net(list[b]))
    requires Fetched(order, tiles, tiles0, n0, list, b, net)
    ensures Fetched(order, tiles, tiles0, n0, list, b + 1, net)
  {
    assert list[..b + 1] == list[..b] + [list[b]];
  }

  /** A request that caches its new tile adds it, evicting a tile only when the cache is full. */
  lemma FetchedAdd(order: seq<TileKey>, tiles: map<TileKey, array<byte>>,
                   tiles0: map<TileKey, array<byte>>, n0: int, list: seq<TileKey>, b: nat,
                   net: TileKey -> FetchOutcome, data: array<byte>)
    requires b < |list| && list[b] !in tiles && list[b] !in tiles0
    requires Distinct(order) && |order| <= CHUNK_CACHE_MAX_SIZE
    requires forall k :: k in order <==> k in tiles
    requires Fetched(order, tiles, tiles0, n0, list, b, net)
    ensures Fetched(Touch(order, list[b]), (tiles - Evicted(order, list[b]))[list[b] := data],
                    tiles0, n0, list, b + 1, net)
  {
    var key := list[b];
    TouchInvariant(order, key);
    assert list[..b + 1] == list[..b] + [key];
    var tiles' := (tiles - Evicted(order, key))[key := data];
    if n0 + |list| <= CHUNK_CACHE_MAX_SIZE {
      assert Evicted(order, key) == {};
      assert forall k :: k in tiles ==> k in tiles';
    }
  }

  /**
   * The palette `getCanvasColors` returns once `canvas` is the selected
   * canvas: the fixed palette on the pixmap site, else the canvas's own
   * colours, and none without a canvas.
   */
  function CanvasColors(pixmapSite: bool, canvas: Option<CanvasInfo>): seq<Rgb>
  {
    if pixmapSite then Palette.PIXMAP_PALETTE
    else if canvas.Some? then canvas.value.colors
    else []
  }

  class Session {
    /** The account's canvas list (`cachedMe.canvases`); None before it is fetched. */
    var me: Option<seq<CanvasEntry>>
    var cachedCanvas: Option<CanvasInfo>
    var cachedCanvasId: int
    /** Keys of the tile cache in the order the `Map` iterates them (oldest first). */
    var order: seq<TileKey>
    var tiles: map<TileKey, array<byte>>
    /** Colours the bot believes it has written, by pixel. */
    var overlay: map<PixelKey, int>
    /** Placements awaiting an acknowledgement, oldest first. */
    var pending: seq<RequestId>

    ghost predicate Valid()
      reads this`me, this`order, this`tiles, this`pending
    {
      && (me.Some? ==> AscendingKeys(me.value))
      && Distinct(order)
      && |order| <= CHUNK_CACHE_MAX_SIZE
      && (forall k :: k in order <==> k in tiles)
      && (forall k1, k2 :: k1 in tiles && k2 in tiles && k1 != k2 ==> tiles[k1] != tiles[k2])
      && UniqueIds(pending)
    }

    /** The cached tiles' current bytes. */
    ghost function TileContents(): map<TileKey, seq<byte>>
      reads this`tiles, tiles.Values
    {
      map k | k in tiles :: tiles[k][..]
    }

    constructor ()
      ensures Valid()
      ensures me.None? && cachedCanvas.None? && cachedCanvasId == 0
      ensures order == [] && tiles == map[] && overlay == map[] && pending == []
    {
      me := None;
      cachedCanvas := None;
      cachedCanvasId := 0;
      order := [];
      tiles := map[];
      overlay := map[];
      pending := [];
    }

    /**
     * `fetchMe`: when both requests succeed the canvas list is replaced
     * (the cached canvas stays selected); when either fails nothing changes.
     */
    method FetchMe(response: Option<seq<CanvasEntry>>) returns (ok: bool)
      requires Valid()
      requires response.Some? ==> AscendingKeys(response.value)
      modifies this`me
      ensures Valid()
      ensures ok <==> response.Some?
      ensures me == (if ok then response else old(me))
    {
      if response.None? {
        return false;
      }
      me := response;
      return true;
    }

    /** `getMainCanvas`. */
    method GetMainCanvas() returns (c: Option<CanvasInfo>)
      requires Valid()
      modifies this`cachedCanvas, this`cachedCanvasId
      ensures Valid()
      ensures Selection(c, cachedCanvasId) == SelectCanvas(me, old(cachedCanvas), old(cachedCanvasId))
      ensures cachedCanvas == c
    {
      if cachedCanvas.Some? {
        return cachedCanvas;
      }
      if me.None? {
        return None;
      }
      var found := Lookup(me.value, cachedCanvasId);
      if found.Some? {
        cachedCanvas := found;
        return found;
      }
      if |me.value| > 0 {
        cachedCanvasId := me.value[0].key;
        cachedCanvas := Some(me.value[0].canvas);
        return cachedCanvas;
      }
      return None;
    }

    /** `setCanvasId`: a different id drops the cached canvas. */
    method SetCanvasId(id: int)
      requires Valid()
      modifies this`cachedCanvasId, this`cachedCanvas
      ensures Valid()
      ensures cachedCanvasId == id
      ensures cachedCanvas == if id == old(cachedCanvasId) then old(cachedCanvas) else None
    {
      if cachedCanvasId != id {
        cachedCanvasId := id;
        cachedCanvas := None;
      }
    }

    /** `getCanvasColors`: the fixed palette on the pixmap site, else the selected canvas's colours. */
    method GetCanvasColors(pixmapSite: bool) returns (colors: seq<Rgb>)
      requires Valid()
      modifies this`cachedCanvas, this`cachedCanvasId
      ensures Valid()
      ensures pixmapSite ==> colors == Palette.PIXMAP_PALETTE && unchanged(this)
      ensures !pixmapSite ==>
        var s := SelectCanvas(me, old(cachedCanvas), old(cachedCanvasId));
        && Selection(cachedCanvas, cachedCanvasId) == s
        && colors == (if s.canvas.Some? then s.canvas.value.colors else [])
      ensures colors == CanvasColors(pixmapSite, cachedCanvas)
    {
      if pixmapSite {
        return Palette.PIXMAP_PALETTE;
      }
      var canvas := GetMainCanvas();
      if canvas.None? {
        return [];
      }
      return canvas.value.colors;
    }

    // ------------------------------------------------------------ overlay

    /** `getLocalPixel`. */
    function GetLocalPixel(canvasId: int, x: int, y: int): (r: Option<int>)
      reads this`overlay
      ensures r.Some? <==> PixelKey(canvasId, x, y) in overlay
      ensures r.Some? ==> r.value == overlay[PixelKey(canvasId, x, y)]
    {
      var key := PixelKey(canvasId, x, y);
      if key in overlay then Some(overlay[key]) else None
    }

    /** `clearLocalPixelOverlay`. */
    method ClearLocalPixelOverlay()
      modifies this`overlay
      ensures overlay == map[]
    {
      overlay := map[];
    }

    // ------------------------------------------------------------ tile cache

    /** `touchChunkCache`: (re)insert a tile as the newest entry, evicting the oldest when full. */
    method TouchChunkCache(key: TileKey, data: array<byte>)
      requires Valid()
      requires forall k :: k in tiles ==> tiles[k] != data
      modifies this`order, this`tiles
      ensures Valid()
      ensures order == Touch(old(order), key)
      ensures tiles == (old(tiles) - Evicted(old(order), key))[key := data]
    {
      TouchInvariant(order, key);
      if key in tiles {
        order := Remove(order, key) + [key];
      } else if |order| >= CHUNK_CACHE_MAX_SIZE {
        var oldest := order[0];
        tiles := tiles - {oldest};
        order := order[1..] + [key];
      } else {
        order := order + [key];
      }
      tiles := tiles[key := data];
    }

    /**
     * `fetchChunk`. A cached tile is returned as is, without moving it in
     * the cache order. Otherwise the request's outcome decides: 404 caches
     * and returns a zero tile, a 2xx status caches and returns the body,
     * anything else returns null and changes nothing.
     */
    method FetchChunk(canvasId: int, cx: int, cy: int, outcome: FetchOutcome) returns (data: array?<byte>)
      requires Valid()
      modifies this`order, this`tiles
      ensures Valid()
      ensures var key := TileKey(canvasId, cx, cy);
        if key in old(tiles) then data == old(tiles)[key] && order == old(order) && tiles == old(tiles)
        else if !Cached(outcome) then data == null && order == old(order) && tiles == old(tiles)
        else
          && data != null && fresh(data) && data[..] == FetchedBytes(outcome)
          && order == Touch(old(order), key)
          && tiles == (old(tiles) - Evicted(old(order), key))[key := data]
    {
      var key := TileKey(canvasId, cx, cy);
      if key in tiles {
        return tiles[key];
      }
      if outcome.NetworkError? {
        return null;
      }
      if outcome.status == 404 {
        var empty := new byte[TILE_PIXELS](_ => 0);
        TouchChunkCache(key, empty);
        return empty;
      }
      if !(200 <= outcome.status < 300) {
        return null;
      }
      var body := outcome.body;
      data := new byte[|body|](i requires 0 <= i < |body| => body[i]);
      TouchChunkCache(key, data);
    }

    /** `invalidateChunkCache`. */
    method InvalidateChunkCache(cx: int, cy: int, canvasId: int)
      requires Valid()
      modifies this`order, this`tiles
      ensures Valid()
      ensures order == Remove(old(order), TileKey(canvasId, cx, cy))
      ensures tiles == old(tiles) - {TileKey(canvasId, cx, cy)}
    {
      var key := TileKey(canvasId, cx, cy);
      order := Remove(order, key);
      tiles := tiles - {key};
    }

    /** `clearChunkCache`. */
    method ClearChunkCache()
      requires Valid()
      modifies this`order, this`tiles
      ensures Valid()
      ensures order == [] && tiles == map[]
    {
      order := [];
      tiles := map[];
    }

    /**
     * `getPixelColorSync`: the overlay's colour if the bot wrote this
     * pixel, else the cached tile's byte, else nothing.
     */
    function GetPixelColorSync(canvasId: int, x: int, y: int, size: CanvasSize): (r: Option<int>)
      reads this`overlay, this`tiles, tiles.Values
      ensures PixelKey(canvasId, x, y) in overlay ==> r == Some(overlay[PixelKey(canvasId, x, y)])
      ensures PixelKey(canvasId, x, y) !in overlay ==>
        (r.Some? <==> PixelToChunk(canvasId, x, y, size) in tiles)
      ensures PixelKey(canvasId, x, y) !in overlay && r.Some? ==> 0 <= r.value < 256
    {
      var local := GetLocalPixel(canvasId, x, y);
      if local.Some? then local
      else
        var key := PixelToChunk(canvasId, x, y, size);
        if key in tiles then Some(PixelFromTile(tiles[key][..], x, y, size) as int) else None
    }

    /**
     * `getFreshPixelColor`: the overlay's colour if the bot wrote this
     * pixel; otherwise the tile is dropped from the cache and fetched again,
     * so the answer comes from the new response and never from a stale tile.
     */
    method GetFreshPixelColor(canvasId: int, x: int, y: int, size: CanvasSize, outcome: FetchOutcome)
      returns (color: Option<int>)
      requires Valid()
      modifies this`order, this`tiles
      ensures Valid()
      ensures PixelKey(canvasId, x, y) in overlay ==>
        color == Some(overlay[PixelKey(canvasId, x, y)]) && order == old(order) && tiles == old(tiles)
      ensures PixelKey(canvasId, x, y) !in overlay ==>
        var key := PixelToChunk(canvasId, x, y, size);
        var dropped := Remove(old(order), key);
        if Cached(outcome) then
          && color == Some(PixelFromTile(FetchedBytes(outcome), x, y, size) as int)
          && key in tiles && tiles[key][..] == FetchedBytes(outcome)
          && order == Touch(dropped, key)
          && tiles == (old(tiles) - {key} - Evicted(dropped, key))[key := tiles[key]]
        else color.None? && order == dropped && tiles == old(tiles) - {key}
    {
      var local := GetLocalPixel(canvasId, x, y);
      if local.Some? {
        return local;
      }
      var key := PixelToChunk(canvasId, x, y, size);
      InvalidateChunkCache(key.cx, key.cy, canvasId);
      var data := FetchChunk(canvasId, key.cx, key.cy, outcome);
      if data == null {
        return None;
      }
      return Some(PixelFromTile(data[..], x, y, size) as int);
    }

    // ------------------------------------------------------------ writes

    /**
     * `updateChunkPixel`: writes the colour's low byte into the cached tile
     * of the selected canvas, if that tile is cached and long enough.
     */
    method UpdateChunkPixel(canvasId: int, x: int, y: int, color: int)
      requires Valid()
      modifies this`cachedCanvas, this`cachedCanvasId, tiles.Values
      ensures Valid()
      ensures var s := SelectCanvas(me, old(cachedCanvas), old(cachedCanvasId));
        && Selection(cachedCanvas, cachedCanvasId) == s
        && TileContents() == WritePixel(old(TileContents()), s.canvas, canvasId, x, y, color)
    {
      ghost var before := TileContents();
      var canvas := GetMainCanvas();
      assert TileContents() == before;
      if canvas.None? {
        return;
      }
      var size := canvas.value.size;
      var key := PixelToChunk(canvasId, x, y, size);
      if key !in tiles {
        return;
      }
      var chunk := tiles[key];
      var index := LocalIndex(x, y, size);
      if index < chunk.Length {
        ghost var tile0: seq<byte> := chunk[..];
        chunk[index] := Uint8(color);
        forall k | k in tiles && k != key
          ensures tiles[k][..] == before[k]
        {
          assert tiles[k] != chunk;
        }
        TilesAfterOneWrite(before, key, chunk);
        assert chunk[..] == tile0[index := Uint8(color)];
      }
    }

    /**
     * `setLocalPixel`: records the colour in the overlay and in the cached
     * tile; from then on a synchronous read of that pixel returns the colour,
     * whatever the canvas size.
     */
    method SetLocalPixel(canvasId: int, x: int, y: int, color: int)
      requires Valid()
      modifies this`overlay, this`cachedCanvas, this`cachedCanvasId, tiles.Values
      ensures Valid()
      ensures overlay == old(overlay)[PixelKey(canvasId, x, y) := color]
      ensures var s := SelectCanvas(me, old(cachedCanvas), old(cachedCanvasId));
        && Selection(cachedCanvas, cachedCanvasId) == s
        && TileContents() == WritePixel(old(TileContents()), s.canvas, canvasId, x, y, color)
      ensures forall size: CanvasSize :: GetPixelColorSync(canvasId, x, y, size) == Some(color)
    {
      overlay := overlay[PixelKey(canvasId, x, y) := color];
      UpdateChunkPixel(canvasId, x, y, color);
    }

    // ------------------------------------------------------------ prefetch

    /**
     * The first loop of `prefetchChunksForPixels`: the distinct tiles of the
     * given pixels that are not cached, in order of first appearance.
     */
    method ChunksToFetch(canvasId: int, pixels: seq<PixelData>, size: CanvasSize) returns (list: seq<TileKey>)
      ensures Distinct(list) && |list| <= |pixels|
      ensures forall k :: k in list ==> k !in tiles && k.canvasId == canvasId
      ensures forall k :: k in list ==>
        (exists i :: 0 <= i < |pixels| && PixelToChunk(canvasId, pixels[i].x, pixels[i].y, size) == k)
      ensures forall i :: 0 <= i < |pixels| && PixelToChunk(canvasId, pixels[i].x, pixels[i].y, size) !in tiles ==>
        PixelToChunk(canvasId, pixels[i].x, pixels[i].y, size) in list
    {
      list := [];
      for n := 0 to |pixels|
        invariant Distinct(list) && |list| <= n
        invariant forall k :: k in list ==> k !in tiles
        invariant forall k :: k in list ==>
          (exists i :: 0 <= i < n && PixelToChunk(canvasId, pixels[i].x, pixels[i].y, size) == k)
        invariant forall i :: 0 <= i < n && PixelToChunk(canvasId, pixels[i].x, pixels[i].y, size) !in tiles ==>
          PixelToChunk(canvasId, pixels[i].x, pixels[i].y, size) in list
      {
        var key := PixelToChunk(canvasId, pixels[n].x, pixels[n].y, size);
        if key !in tiles && key !in list {
          DistinctAppend(list, [key]);
          list := list + [key];
        }
      }
    }

    /**
     * `prefetchChunksForPixels`: fetches every missing tile of the pixels,
     * `net` giving each request's outcome. Tiles cached before keep their
     * buffers unless evicted; as long as the cache does not overflow, every
     * pixel whose tile request succeeds ends with its tile cached.
     */
    method PrefetchChunksForPixels(canvasId: int, pixels: seq<PixelData>, size: CanvasSize,
                                   net: TileKey -> FetchOutcome)
      requires Valid()
      modifies this`order, this`tiles
      ensures Valid()
      ensures forall k :: k in old(tiles) && k in tiles ==> tiles[k] == old(tiles[k])
      ensures |old(order)| + |pixels| <= CHUNK_CACHE_MAX_SIZE ==>
        forall i :: 0 <= i < |pixels| && Cached(net(PixelToChunk(canvasId, pixels[i].x, pixels[i].y, size)))
          ==> PixelToChunk(canvasId, pixels[i].x, pixels[i].y, size) in tiles
    {
      var list := ChunksToFetch(canvasId, pixels, size);
      if |list| == 0 {
        return;
      }
      ghost var tiles0 := tiles;
      ghost var n0 := |order|;
      var i := 0;
      while i < |list|
        invariant 0 <= i
        invariant Valid()
        invariant FetchedUpTo(tiles0, n0, list, Min(i, |list|), net)
        decreases |list| - i
      {
        var batchEnd := if i + 6 < |list| then i + 6 else |list|;
        FetchRange(canvasId, list, i, batchEnd, net, tiles0, n0);
        i := i + 6;
      }
    }

    /**
     * Progress of a prefetch over `list`, whose tiles were all missing from
     * `tiles0` when it began with `n0` cached tiles: the first `b` have been
     * requested.
     */
    ghost predicate FetchedUpTo(tiles0: map<TileKey, array<byte>>, n0: int, list: seq<TileKey>, b: nat,
                                net: TileKey -> FetchOutcome)
      reads this`order, this`tiles
    {
      Fetched(order, tiles, tiles0, n0, list, b, net)
    }

    /** One batch of a prefetch: the tiles `list[lo..hi]`, requested one after another. */
    method FetchRange(canvasId: int, list: seq<TileKey>, lo: nat, hi: nat, net: TileKey -> FetchOutcome,
                      ghost tiles0: map<TileKey, array<byte>>, ghost n0: int)
      requires Valid()
      requires lo <= hi <= |list| && Distinct(list)
      requires forall k :: k in list ==> k !in tiles0 && k.canvasId == canvasId
      requires FetchedUpTo(tiles0, n0, list, lo, net)
      modifies this`order, this`tiles
      ensures Valid()
      ensures FetchedUpTo(tiles0, n0, list, hi, net)
    {
      var b := lo;
      while b < hi
        invariant lo <= b <= hi
        invariant Valid()
        invariant FetchedUpTo(tiles0, n0, list, b, net)
      {
        var key := list[b];
        assert key !in tiles && key !in tiles0 by {
          assert key !in list[..b];
        }
        ghost var order1, tiles1 := order, tiles;
        var data := FetchChunk(canvasId, key.cx, key.cy, net(key));
        if Cached(net(key)) {
          FetchedAdd(order1, tiles1, tiles0, n0, list, b, net, data);
        } else {
          FetchedSkip(order1, tiles1, tiles0, n0, list, b, net);
        }
        b := b + 1;
      }
    }

    /**
     * `batchCheckPixelColors`: after prefetching, each pixel needs an update
     * exactly when its synchronous colour is not its target colour.
     */
    method BatchCheckPixelColors(canvasId: int, pixels: seq<PixelData>, size: CanvasSize,
                                 net: TileKey -> FetchOutcome) returns (results: seq<PixelCheck>)
      requires Valid()
      modifies this`order, this`tiles
      ensures Valid()
      ensures |results| == |pixels|
      ensures forall i :: 0 <= i < |pixels| ==> results[i] == PixelCheck(i,
        GetPixelColorSync(canvasId, pixels[i].x, pixels[i].y, size) != Some(pixels[i].color))
    {
      PrefetchChunksForPixels(canvasId, pixels, size, net);
      results := [];
      for i := 0 to |pixels|
        invariant |results| == i
        invariant forall j :: 0 <= j < i ==> results[j] == PixelCheck(j,
          GetPixelColorSync(canvasId, pixels[j].x, pixels[j].y, size) != Some(pixels[j].color))
      {
        var current := GetPixelColorSync(canvasId, pixels[i].x, pixels[i].y, size);
        results := results + [PixelCheck(i, current != Some(pixels[i].color))];
      }
    }

    // ------------------------------------------------------------ placement

    /**
     * `placePixelViaWebSocket`: without a canvas or an open socket the
     * placement fails at once; otherwise the placement frame is sent and
     * the request waits among the pending ones, unless sending throws, in
     * which case it is dropped again and fails with the error's text.
     * `Map.set` on an id already pending keeps its place.
     */
    method PlacePixel(x: int, y: int, colorIndex: int, connected: bool, requestId: RequestId,
                      sendError: Option<string>) returns (out: PlaceStart)
      requires Valid()
      modifies this`cachedCanvas, this`cachedCanvasId, this`pending
      ensures Valid()
      ensures var s := SelectCanvas(me, old(cachedCanvas), old(cachedCanvasId));
        && Selection(cachedCanvas, cachedCanvasId) == s
        && (s.canvas.None? ==> out == Resolved(Failure("No canvas info")) && pending == old(pending))
        && (s.canvas.Some? && !connected ==>
              out == Resolved(Failure("WebSocket not connected. Please refresh the page."))
              && pending == old(pending))
        && (s.canvas.Some? && connected && sendError.Some? ==>
              out == Resolved(Failure("Send error: " + sendError.value))
              && pending == RemoveId(old(pending), requestId))
        && (s.canvas.Some? && connected && sendError.None? ==>
              out == Sent(PlacePixelFrame(x, y, colorIndex, s.canvas.value.size), requestId)
              && pending == AddId(old(pending), requestId))
    {
      var canvas := GetMainCanvas();
      if canvas.None? {
        return Resolved(Failure("No canvas info"));
      }
      if !connected {
        return Resolved(Failure("WebSocket not connected. Please refresh the page."));
      }
      var frame := PlacePixelFrame(x, y, colorIndex, canvas.value.size);
      pending := AddId(pending, requestId);
      if sendError.Some? {
        RemoveIdAppended(old(pending), requestId);
        pending := RemoveId(pending, requestId);
        return Resolved(Failure("Send error: " + sendError.value));
      }
      return Sent(frame, requestId);
    }

    /** The 20-second timer of a placement: a still-pending request is dropped and fails. */
    method Timeout(requestId: RequestId) returns (result: Option<PlaceResult>)
      requires Valid()
      modifies this`pending
      ensures Valid()
      ensures requestId in old(pending) ==>
        result == Some(Failure("Timeout waiting for response")) && pending == RemoveId(old(pending), requestId)
      ensures requestId !in old(pending) ==> result.None? && pending == old(pending)
    {
      if requestId in pending {
        pending := RemoveId(pending, requestId);
        return Some(Failure("Timeout waiting for response"));
      }
      return None;
    }

    // ------------------------------------------------------------ incoming frames

    /**
     * `handleWebSocketMessage`: binary pixel-update frames patch the cached
     * tile and the overlay; an acknowledgement resolves the oldest pending
     * placement. Non-binary messages, binary frames of any other opcode or
     * too short for theirs, and acknowledgements with nothing pending
     * change nothing. On an empty frame the source's read of the opcode
     * throws a `RangeError` out of the listener before anything changes;
     * here that is a call that resolves nothing and changes nothing.
     */
    method HandleMessage(m: Message) returns (resolved: Option<(RequestId, PlaceResult)>)
      requires Valid()
      modifies this`cachedCanvas, this`cachedCanvasId, this`overlay, this`pending, tiles.Values
      ensures Valid()
      ensures m.Other? || |m.bytes| == 0 ==> resolved.None? && unchanged(this) && TileContents() == old(TileContents())
      ensures m.Binary? && IsDeltaFrame(m.bytes) ==>
        var b := m.bytes;
        var s := SelectCanvas(me, old(cachedCanvas), old(cachedCanvasId));
        var key := TileKey(old(cachedCanvasId), b[1], b[2]);
        && resolved.None? && pending == old(pending)
        && Selection(cachedCanvas, cachedCanvasId) == s
        && TileContents() == (if key in old(TileContents())
                              then old(TileContents())[key := PatchTile(old(TileContents())[key], DeltaRecords(b))]
                              else old(TileContents()))
        && overlay == PatchOverlay(old(overlay), old(cachedCanvasId), b[1], b[2], s.canvas, DeltaRecords(b))
      ensures m.Binary? && |m.bytes| > 0 && !IsDeltaFrame(m.bytes) && DecodeAck(m.bytes).None? ==>
        resolved.None? && unchanged(this) && TileContents() == old(TileContents())
      ensures m.Binary? && DecodeAck(m.bytes).Some? ==>
        && TileContents() == old(TileContents()) && overlay == old(overlay)
        && cachedCanvas == old(cachedCanvas) && cachedCanvasId == old(cachedCanvasId)
        && (if |old(pending)| > 0
            then resolved == Some((old(pending)[0], AckResult(DecodeAck(m.bytes).value))) && pending == old(pending)[1..]
            else resolved.None? && pending == old(pending))
    {
      resolved := None;
      if m.Other? || |m.bytes| == 0 {
        return;
      }
      var b := m.bytes;
      if b[0] == OP_PIXEL_UPDATE && |b| >= 7 {
        ApplyPixelUpdate(b);
      }
      if b[0] == OP_PLACE_ACK && |b| >= 10 && |pending| > 0 {
        resolved := ResolveAck(b);
      }
    }

    /** The pixel-update branch of the handler. */
    method ApplyPixelUpdate(b: seq<byte>)
      requires Valid() && IsDeltaFrame(b)
      modifies this`cachedCanvas, this`cachedCanvasId, this`overlay, tiles.Values
      ensures Valid()
      ensures var s := SelectCanvas(me, old(cachedCanvas), old(cachedCanvasId));
        var key := TileKey(old(cachedCanvasId), b[1], b[2]);
        && Selection(cachedCanvas, cachedCanvasId) == s
        && TileContents() == (if key in old(TileContents())
                              then old(TileContents())[key := PatchTile(old(TileContents())[key], DeltaRecords(b))]
                              else old(TileContents()))
        && overlay == PatchOverlay(old(overlay), old(cachedCanvasId), b[1], b[2], s.canvas, DeltaRecords(b))
    {
      var ci := b[1];
      var cj := b[2];
      var cId := cachedCanvasId;
      var key := TileKey(cId, ci, cj);
      var chunkData: array?<byte> := if key in tiles then tiles[key] else null;
      var canvas := GetMainCanvas();
      assert TileContents() == old(TileContents()) && overlay == old(overlay);
      PatchChunk(b, key, chunkData, cId, canvas);
    }

    /** The record loop of the pixel-update branch, on the tile `chunkData` cached under `key` (null when none is). */
    method PatchChunk(b: seq<byte>, key: TileKey, chunkData: array?<byte>, cId: int, canvas: Option<CanvasInfo>)
      requires Valid() && IsDeltaFrame(b) && key == TileKey(cId, b[1], b[2])
      requires chunkData == (if key in tiles then tiles[key] else null)
      modifies this`overlay, tiles.Values
      ensures Valid()
      ensures TileContents() == (if key in old(TileContents())
                                 then old(TileContents())[key := PatchTile(old(TileContents())[key], DeltaRecords(b))]
                                 else old(TileContents()))
      ensures overlay == PatchOverlay(old(overlay), cId, b[1], b[2], canvas, DeltaRecords(b))
    {
      ghost var before := TileContents();
      ghost var tile0 := if chunkData != null then chunkData[..] else [];
      var ov := ApplyRecords(b, chunkData, cId, b[1], b[2], canvas, overlay);
      overlay := ov;
      if chunkData != null {
        forall k | k in tiles && k != key
          ensures tiles[k][..] == before[k]
        {
          assert tiles[k] != chunkData;
        }
        TilesAfterOneWrite(before, key, chunkData);
        assert tile0 == before[key];
      } else {
        assert key !in before;
      }
    }

    /** Only the tile `key`, held in `chunk`, changed since `before` was taken. */
    lemma TilesAfterOneWrite(before: map<TileKey, seq<byte>>, key: TileKey, chunk: array<byte>)
      requires Valid() && key in tiles && tiles[key] == chunk && key in before
      requires before.Keys == tiles.Keys
      requires forall k :: k in tiles && k != key ==> tiles[k][..] == before[k]
      ensures TileContents() == before[key := chunk[..]]
    {
    }

    /** The acknowledgement branch of the handler: the oldest pending placement is resolved. */
    method ResolveAck(b: seq<byte>) returns (resolved: Option<(RequestId, PlaceResult)>)
      requires Valid() && DecodeAck(b).Some? && |pending| > 0
      modifies this`pending
      ensures Valid()
      ensures resolved == Some((old(pending)[0], AckResult(DecodeAck(b).value)))
      ensures pending == old(pending)[1..]
    {
      var ack := Ack(b[1], U32At(b, 2), I16At(b, 6), b[8]);
      var id := pending[0];
      pending := pending[1..];
      return Some((id, AckResult(ack)));
    }
  }
}
