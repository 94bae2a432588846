# ppf-bot core, modelled in Dafny

ppf-bot is a browser userscript that draws an image onto a collaborative
pixel canvas (pixmap-style sites). This project models its sequential core
and proves properties of that model:

- **The pixmap client session** (`pixmap.dfy`, `coords.dfy`,
  `cache_order.dfy`, `protocol.dfy`, `palette.dfy`), from
  `src/api/pixmap.ts`. The module-level state of that file becomes the
  fields of one `Pixmap.Session` object: the account's canvas list, the
  selected canvas and its id, and a tile cache of 256 x 256 byte tiles
  capped at 512 entries, kept in `Map` insertion order. It also holds
  the overlay of pixels the bot has written and the placements that still
  await an acknowledgement. Tiles are `array<byte>` values written in
  place. The model covers:
  - world-to-tile coordinates;
  - the binary frames: register canvas, place pixel, pixel updates and
    placement acknowledgements;
  - the nearest-palette-colour search.
- **Image processing** (`image_processor.dfy`, `ordering.dfy`,
  `sorting.dfy`, `seqs.dfy`), from `src/bot/imageProcessor.ts`.
  `processImage` quantises an RGBA image to the palette and drops
  transparent pixels. The deterministic strategies then order the pixels:
  - the four line orders;
  - circle in/out and center-out;
  - the diagonals;
  - edges first;
  - checkerboard;
  - snake and zigzag;
  - the text-draw flood fill.

  Every strategy but text-draw is proved to return a permutation of its
  input in the promised order. Text-draw is proved to emit one input pixel
  per input position, each once, starting at the least (x, y) seed. Each
  later pixel is next to an earlier one, or it starts the next 8-connected
  component at the least unemitted pixel, once every earlier component is
  complete. On pixels with distinct positions, as `processImage` produces,
  that is a permutation too. The comparator sorts are one stable insertion sort,
  keyed by integer triples.
- **The placement loop** (`controller.dfy`), from `src/bot/controller.ts`.
  The `BotController` class covers configuration updates, coordinate
  parsing, `start` with its guards and resume index, `stop`,
  `saveProgress`, the captcha and cooldown waits, and `runLoop`. Anything
  the loop learns from outside comes in as one `Observation` per
  iteration:
  - whether a captcha shows;
  - the cached colour of the pixel;
  - the placement result;
  - whether stop was pressed while the placement was in flight;
  - the timer ids.

  One iteration is the function `LoopStep`, and a run is `Run` over a
  sequence of observations. The imperative methods are proved against
  both.
- **The text rasteriser** (`text_generator.dfy`), from
  `src/bot/textGenerator.ts`. It holds the stroke font, the thick-pen
  Bresenham line with its de-duplicating `addPoint`, and
  `generateTextMask`.

Shared pieces:

- `types.dfy` mirrors the records of `src/types/index.ts`.
- `wrappers.dfy` holds `Option`.
- `strings.dfy` holds `includes`, decimal rendering and parsing.
- `arith.dfy` holds a few arithmetic facts.

JavaScript semantics are written out where they differ from Dafny's:

- `%` truncates toward zero;
- `Math.floor` of a quotient is Euclidean division;
- `Math.round` of a percentage is taken over the exact ratio, in
  integers (see `Controller.Progress` under "Left out");
- `>>>`, `&` and `<<` on bytes become division and modulo;
- an `Int16` read is sign-extended.

## Model

| member | source | states |
|---|---|---|
| Coords.JsRem | src/api/pixmap.ts:262-263 | JavaScript's `%` is strictly inside (-n, n) and takes the sign of the dividend |
| Coords.LocalCoord | src/api/pixmap.ts:262-263 | the double remainder `((a % 256) + 256) % 256` is always in [0, 256) |
| Coords.LocalIndex | src/api/pixmap.ts:264 | a pixel's byte index `localY * 256 + localX` lies inside a 256 x 256 tile |
| Coords.PixelFromTile | src/api/pixmap.ts:255-266 | `getPixelFromChunk` gives the byte at the pixel's index, and 0 when the buffer is shorter than that index |
| Coords.LocalCoordIsFloorMod | src/api/pixmap.ts:262-263 | the double JavaScript remainder equals the floor modulo 256, for negative coordinates too |
| Coords.TileDecomposition | src/api/pixmap.ts:216-221 | `cx * 256 + local - size/2 == x` for every integer x: the tile number and the in-tile coordinate give back the world coordinate |
| Coords.TileInCanvas | src/api/pixmap.ts:216-221 | for -size/2 <= x < size/2 the tile number is non-negative and the tile's origin lies inside the canvas |
| Coords.DeltaWorldInverse | src/api/pixmap.ts:673-676 | the update handler's world coordinates, computed from a tile number and a byte offset, name again the pixel stored at that byte |
| Coords.LocalIndexInjective | src/api/pixmap.ts:264 | two pixels of the same tile never share a byte |
| CacheOrder.Remove | src/api/pixmap.ts:120-121 | `Map.delete` on the key order: exactly the other keys remain, duplicate-freedom is kept, and an absent key changes nothing |
| CacheOrder.TouchInvariant | src/api/pixmap.ts:119-127 | after `touchChunkCache` the keys stay duplicate-free and at most 512, the touched key is newest, the size grows by at most one, nothing is evicted below capacity, and the keys are the old ones minus the evicted one plus the touched one |
| CacheOrder.TouchPresent | src/api/pixmap.ts:120-121 | re-touching a present key evicts nothing, keeps the size and keeps the other keys in their order |
| CacheOrder.TouchFullEvictsOldest | src/api/pixmap.ts:122-124 | a new key on a full cache evicts exactly the oldest key and appends the new one |
| Palette.Square | src/api/pixmap.ts:387-390 | a squared channel difference is non-negative and zero only for equal channels |
| Palette.Dist | src/api/pixmap.ts:386-390 | the squared RGB distance is non-negative and zero exactly when the entry is the colour itself |
| Palette.ClosestBelow | src/api/pixmap.ts:383-395 | the winner of the scan over the first n entries is one of the searched indices |
| Palette.ClosestBelowIsFirstMinimum | src/api/pixmap.ts:385-395 | the scan's winner has minimal distance among the searched entries, and every earlier searched entry is strictly farther (the strict `<` keeps the lowest index on ties) |
| Palette.NearestIndexMeaning | src/api/pixmap.ts:380-398 | an empty palette gives 1 and a one-entry palette gives 0; otherwise the result is in [1, len), has minimal distance among entries 1.., and is the first such index, so entry 0 is never chosen |
| Palette.ExactColourFound | src/api/pixmap.ts:380-398 | an exact match at index i >= 1 with no exact match between 1 and i is the result |
| Palette.FindClosestColorIndex | src/api/pixmap.ts:380-398 | the minimum-tracking loop returns the first nearest index described by `NearestIndex` |
| Protocol.Uint16Bytes | src/api/pixmap.ts:780 | `setUint16` writes exactly two bytes |
| Protocol.RegisterCanvasFrameNamesCanvas | src/api/pixmap.ts:488-497 | the RegisterCanvas frame is two bytes, `[0xA0, id]`, carries the id itself exactly when 0 <= id < 256, and ids 256 apart give the same frame |
| Protocol.PlacePixelFrameFields | src/api/pixmap.ts:762-781 | for a pixel at or beyond the canvas's top-left corner the placement frame is exactly `[0x91, i, j, 0, index / 256, index % 256, color]` with the pixel's tile and in-tile index |
| Protocol.RecordsFromShape | src/api/pixmap.ts:661-666 | the handler's backwards loop reads floor(off / 4) records, record k being the four bytes ending 4k bytes before `off` |
| Protocol.MisalignedFrameReadsHeader | src/api/pixmap.ts:654-666 | an 8-byte update frame yields two records, the second one read over the opcode and tile bytes |
| Protocol.RecordsBytes | src/api/pixmap.ts:654-666 | N records occupy exactly 4N bytes of an update frame |
| Protocol.RecordsFromEncoded | src/api/pixmap.ts:661-666 | after a 3-byte header, the records of a frame are read back last one first |
| Protocol.RecordsFromPrefix | src/api/pixmap.ts:661-666 | reading records up to `off` only looks at the bytes before `off` |
| Protocol.DeltaRoundTrip | src/api/pixmap.ts:654-666 | an encoded update frame of N >= 1 records passes the handler's guard and decodes to exactly its records, in reverse order |
| Protocol.PlacementReadsBackAsUpdate | src/api/pixmap.ts:654-676 | a placement frame read as an update frame names the same tile and one record whose offset the handler maps back to the same world pixel, with the colour's low byte |
| Protocol.Uint32Bytes | src/api/pixmap.ts:687 | a 32-bit number is written as exactly four bytes |
| Protocol.Uint32RoundTrip | src/api/pixmap.ts:687 | `getUint32` reads back the number written big-endian |
| Protocol.Int16RoundTrip | src/api/pixmap.ts:688 | `getInt16` reads back every 16-bit two's complement number |
| Protocol.AckRoundTrip | src/api/pixmap.ts:685-689 | every well-formed acknowledgement decodes back to its return code, wait, cooldown seconds and pixel count |
| Protocol.AckResultMeaning | src/api/pixmap.ts:696-727 | the result succeeds, and has no message, exactly for code 0; only code 10 raises the captcha flag; wait, cooldown (seconds times 1000) and pixel count are copied; a code without a message of its own yields "Unknown error code: N", whose number parses back to the code |
| Pixmap.Lookup | src/api/pixmap.ts:163-164 | `canvases[String(id)]` is missing exactly when no entry has that id, and otherwise is that entry's canvas |
| Pixmap.SelectCanvasMeaning | src/api/pixmap.ts:159-176 | without a cached canvas, the canvas with the current id is chosen when listed, else the one with the smallest id (whose id becomes current); none is chosen only for a missing or empty list; selecting again from the resulting state changes nothing |
| Pixmap.FetchedBytes | src/api/pixmap.ts:236-248 | a 404 caches 256 x 256 zero bytes; a 2xx status caches the response body |
| Pixmap.WritePixelThenRead | src/api/pixmap.ts:356-369 | after `updateChunkPixel` on a cached tile the pixel reads back as the colour's low byte, every other pixel reads as before, and no tile appears or disappears |
| Pixmap.PatchTile | src/api/pixmap.ts:667-669 | patching a tile never changes its length |
| Pixmap.PatchTileLastWriteWins | src/api/pixmap.ts:662-669 | after an update frame every byte of the tile holds the colour of the last record written to it, or its old value when none was |
| Pixmap.PatchOverlayKeepsKeys | src/api/pixmap.ts:670-681 | an update frame never adds or removes overlay entries, and an entry changes only to a colour one of the records carries |
| Pixmap.AddId | src/api/pixmap.ts:792-795 | `Map.set` on the pending placements adds exactly the new id and keeps ids unique |
| Pixmap.RemoveId | src/api/pixmap.ts:786-787 | `Map.delete` on the pending placements removes exactly that id, keeps ids unique and leaves an absent id's map unchanged |
| Pixmap.RemoveIdAppended | src/api/pixmap.ts:792-800 | dropping the id a failed send has just added restores the pending placements without it |
| Pixmap.ApplyRecords | src/api/pixmap.ts:661-682 | the record loop leaves the tile equal to `PatchTile` of its old bytes with the frame's records and the overlay equal to `PatchOverlay` of the old overlay |
| Pixmap.FetchedSkip | src/api/pixmap.ts:311-314 | a request whose tile is not cached keeps the prefetch's progress facts one tile further on |
| Pixmap.FetchedAdd | src/api/pixmap.ts:311-314 | a request that caches a new tile keeps the prefetch's progress facts: no earlier tile loses its buffer, and below capacity nothing is evicted and the new tile is cached |
| Pixmap.Session.constructor | src/api/pixmap.ts:94-99 | the session starts with no account, no canvas, canvas id 0, and an empty cache, overlay and pending map |
| Pixmap.Session.FetchMe | src/api/pixmap.ts:131-153 | the canvas list is replaced exactly when both requests succeed, and is kept otherwise |
| Pixmap.Session.GetMainCanvas | src/api/pixmap.ts:159-176 | the returned canvas and the id left behind are those of `SelectCanvas`, and the returned canvas becomes the cached one |
| Pixmap.Session.SetCanvasId | src/api/pixmap.ts:202-207 | the id is set, and the cached canvas is dropped exactly when the id changes |
| Pixmap.Session.GetCanvasColors | src/api/pixmap.ts:209-214 | the pixmap site gets the fixed palette with no state change; otherwise the selected canvas's colours, or none without a canvas |
| Pixmap.Session.GetLocalPixel | src/api/pixmap.ts:110-113 | a colour is returned exactly when the overlay has the pixel, and it is the overlay's value |
| Pixmap.Session.ClearLocalPixelOverlay | src/api/pixmap.ts:115-117 | the overlay is emptied |
| Pixmap.Session.TouchChunkCache | src/api/pixmap.ts:119-127 | the key order becomes `Touch` of the old one, the tile map loses the evicted key and maps the key to the new buffer, and the cache invariant (at most 512 distinct keys, matching the map) is kept |
| Pixmap.Session.FetchChunk | src/api/pixmap.ts:227-253 | a cached tile is returned without a request and without reordering; a 404 or 2xx response caches a fresh buffer with `FetchedBytes` as newest; any other outcome returns null and changes nothing |
| Pixmap.Session.InvalidateChunkCache | src/api/pixmap.ts:371-374 | exactly that tile leaves the cache and its key order |
| Pixmap.Session.ClearChunkCache | src/api/pixmap.ts:376-378 | the cache is emptied |
| Pixmap.Session.GetPixelColorSync | src/api/pixmap.ts:320-333 | the overlay's colour when the bot wrote the pixel; otherwise a byte value exactly when the pixel's tile is cached |
| Pixmap.Session.GetFreshPixelColor | src/api/pixmap.ts:275-283 | the overlay's colour without touching the cache; otherwise the tile is dropped and fetched again. On success the answer is the new response's byte, the tile moves to the newest position and other tiles keep their buffers unless evicted. On failure the answer is none, the tile is gone and every other tile is kept |
| Pixmap.Session.UpdateChunkPixel | src/api/pixmap.ts:356-369 | the selected canvas is resolved as `getMainCanvas` does, and the tiles' contents become `WritePixel` of the old contents |
| Pixmap.Session.SetLocalPixel | src/api/pixmap.ts:105-108 | the overlay maps the pixel to the colour, the tiles change as `updateChunkPixel` writes them, and a synchronous read of the pixel returns the colour for every canvas size |
| Pixmap.Session.ChunksToFetch | src/api/pixmap.ts:290-303 | the tiles to fetch are distinct, uncached, each the tile of some pixel, and include the tile of every pixel whose tile is uncached |
| Pixmap.Session.PrefetchChunksForPixels | src/api/pixmap.ts:285-318 | tiles cached before keep their buffers unless evicted, and when the cache cannot overflow every pixel whose tile request succeeds has its tile cached afterwards |
| Pixmap.Session.FetchRange | src/api/pixmap.ts:311-314 | one batch of requests carries the prefetch's progress facts from `lo` to `hi` |
| Pixmap.Session.BatchCheckPixelColors | src/api/pixmap.ts:335-354 | one answer per pixel, in order, saying whether its synchronous colour after the prefetch differs from its target colour |
| Pixmap.Session.PlacePixel | src/api/pixmap.ts:742-805 | no canvas or no open socket resolves at once with the fixed message and no pending change; a failed send resolves with "Send error: ..." and the id removed; otherwise the placement frame is sent and the id is pending |
| Pixmap.Session.Timeout | src/api/pixmap.ts:785-790 | a still-pending placement is dropped and fails with the timeout message; otherwise nothing happens |
| Pixmap.Session.HandleMessage | src/api/pixmap.ts:648-730 | non-binary messages, empty frames and frames of other opcodes or too short to decode change nothing; an update frame patches the cached tile `(cId, ci, cj)` and the overlay as `PatchTile` and `PatchOverlay` say; an acknowledgement resolves the oldest pending placement with `AckResult` and drops it, and with nothing pending changes nothing |
| Pixmap.Session.ApplyPixelUpdate | src/api/pixmap.ts:654-683 | the pixel-update branch: canvas selection as `getMainCanvas`, the tile and overlay patched by the frame's records |
| Pixmap.Session.PatchChunk | src/api/pixmap.ts:659-682 | the record loop on the cached tile changes that tile alone, to `PatchTile` of its old bytes, and the overlay to `PatchOverlay` |
| Pixmap.Session.ResolveAck | src/api/pixmap.ts:685-729 | the oldest pending placement is resolved with `AckResult` and removed |
| ImageProcessor.Offset | src/bot/imageProcessor.ts:30-34 | the four channels of pixel (x, y) at `(y * width + x) * 4` lie inside the image data |
| ImageProcessor.CellShape | src/bot/imageProcessor.ts:30-43 | one source pixel contributes at most one entry, at (startX + x, startY + y), taken from the source |
| ImageProcessor.RowPrefixShape | src/bot/imageProcessor.ts:29-44 | the first n pixels of row y give entries in row-major order, all in row startY + y, left of startX + n, and from the source |
| ImageProcessor.RowsAppend | src/bot/imageProcessor.ts:28-45 | a new row's entries appended after the rows above it keep row-major order |
| ImageProcessor.RowsUpToShape | src/bot/imageProcessor.ts:28-45 | the first m rows give entries in row-major order, all above row startY + m, and from the source |
| ImageProcessor.RowPrefixComplete | src/bot/imageProcessor.ts:29-44 | every opaque pixel among the first n of a row has its entry in that row's output |
| ImageProcessor.RowsUpToComplete | src/bot/imageProcessor.ts:28-45 | every opaque pixel in the first m rows has its entry in the output |
| ImageProcessor.QuantizedMeaning | src/bot/imageProcessor.ts:28-45 | before ordering, the pixels are in strict row-major order, each comes from an opaque source pixel with alpha >= 128 at its offset in its nearest colour, and every such source pixel is present |
| ImageProcessor.ProcessImage | src/bot/imageProcessor.ts:12-51 | an empty palette yields `{0, 0, []}`; otherwise the width and height are the image's and the pixels are the quantised pixels ordered by the chosen strategy, a permutation of them under every strategy, text-draw included |
| Seqs.Reverse | src/bot/imageProcessor.ts:472 | `reverse` keeps the length and puts element i at position len - 1 - i |
| Seqs.ReverseMultiset | src/bot/imageProcessor.ts:472 | reversing keeps every element |
| Sorting.Insert | src/bot/imageProcessor.ts:66-69 | inserting into the sorted prefix adds exactly one element |
| Sorting.InsertPermutes | src/bot/imageProcessor.ts:66-69 | insertion adds the element and keeps every other one |
| Sorting.SortBy | src/bot/imageProcessor.ts:62-66 | the comparator sort keeps the length |
| Sorting.InsertSorted | src/bot/imageProcessor.ts:66-69 | inserting into a sorted sequence keeps it sorted |
| Sorting.SortByCorrect | src/bot/imageProcessor.ts:62-91 | the sort is a permutation of its input, ordered by the comparator's key |
| Sorting.WithKeyAppend | src/bot/imageProcessor.ts:62-91 | the elements with one key, in order, of a concatenation are those of each part, concatenated |
| Sorting.InsertStable | src/bot/imageProcessor.ts:62-91 | an inserted element goes behind every element with the same key |
| Sorting.SortByStable | src/bot/imageProcessor.ts:62-91 | the sort is stable: elements with equal keys keep their input order, as `Array.prototype.sort` guarantees |
| Sorting.SortBySameKeys | src/bot/imageProcessor.ts:62-91 | two comparators with the same key on every pixel sort identically |
| Ordering.CentreDistance | src/bot/imageProcessor.ts:95-98 | the integer stand-in for the distance from the box centre is non-negative |
| Ordering.SortedPair | src/bot/imageProcessor.ts:62-147 | any two pixels of a comparator strategy's result are in the comparator's order |
| Ordering.SortedPermutation | src/bot/imageProcessor.ts:62 | a comparator strategy's result is a permutation of the copy it sorts |
| Ordering.LineLtrOrder | src/bot/imageProcessor.ts:65-70 | line-ltr returns a permutation in ascending x, then ascending y |
| Ordering.LineRtlOrder | src/bot/imageProcessor.ts:72-77 | line-rtl returns a permutation in descending x, then ascending y |
| Ordering.LineUtbOrder | src/bot/imageProcessor.ts:79-84 | line-utb returns a permutation in ascending y, then ascending x |
| Ordering.LineBtuOrder | src/bot/imageProcessor.ts:86-91 | line-btu returns a permutation in descending y, then ascending x |
| Ordering.CircleInOrder | src/bot/imageProcessor.ts:93-101 | circle-in (and center-out, which sorts identically) returns a permutation nearest the centre first |
| Ordering.CircleOutOrder | src/bot/imageProcessor.ts:103-111 | circle-out returns a permutation farthest from the centre first |
| Ordering.DiagonalOrder | src/bot/imageProcessor.ts:113-147 | each diagonal strategy returns a permutation sweeping anti-diagonals away from its corner; ties go by ascending x for the left corners and descending x for the right ones |
| Ordering.EdgesFirstOrder | src/bot/imageProcessor.ts:192-202 | edges-first returns a permutation with every border pixel before every interior pixel, each group in (y, x) order |
| Ordering.Filter | src/bot/imageProcessor.ts:217-223 | each checkerboard group holds only pixels of its parity |
| Ordering.FilterPartition | src/bot/imageProcessor.ts:217-223 | the even and odd groups together hold exactly the input pixels |
| Ordering.RowPair | src/bot/imageProcessor.ts:224-225 | two pixels of a row-sorted group are in (y, x) order |
| Ordering.CheckerboardGroup | src/bot/imageProcessor.ts:224-225 | a sorted group is a permutation of its parity class, in (y, x) order |
| Ordering.CheckerboardOrdered | src/bot/imageProcessor.ts:214-226 | checkerboard returns a permutation with every even-sum pixel before every odd-sum one, each group in (y, x) order |
| Ordering.Alternate | src/bot/imageProcessor.ts:471-474 | reversing odd rows keeps the number of rows |
| Ordering.Interleave | src/bot/imageProcessor.ts:491-501 | reordering each row keeps the number of rows |
| Ordering.FlattenPush | src/bot/imageProcessor.ts:464-469 | adding a pixel to the rows adds it at the end of their concatenation |
| Ordering.GroupRowsFlatten | src/bot/imageProcessor.ts:464-469 | grouping into rows loses and reorders nothing |
| Ordering.GroupRowsMembers | src/bot/imageProcessor.ts:464-469 | every pixel of every row is an input pixel |
| Ordering.PushOrdered | src/bot/imageProcessor.ts:464-469 | adding a pixel not before any grouped pixel in (y, x) order keeps the rows non-empty, one y each, ascending x and strictly ascending y |
| Ordering.PushNewRow | src/bot/imageProcessor.ts:465-466 | a pixel on a new y opens a new row and keeps the rows ordered |
| Ordering.PushSameRow | src/bot/imageProcessor.ts:468 | a pixel on the last row's y extends that row and keeps the rows ordered |
| Ordering.GroupRowsOfSorted | src/bot/imageProcessor.ts:460-469 | the rows of a (y, x)-sorted copy are non-empty, each of one y in ascending x, with strictly ascending y |
| Ordering.FlattenPermutation | src/bot/imageProcessor.ts:471-474 | rearranging within rows rearranges the concatenation |
| Ordering.AlternatePermutation | src/bot/imageProcessor.ts:471-474 | reversing a row keeps its pixels |
| Ordering.StrideSplit | src/bot/imageProcessor.ts:495-500 | the even-position and odd-position passes over a row together emit exactly its pixels |
| Ordering.EvensThenOddsPermutation | src/bot/imageProcessor.ts:495-500 | a zigzag row is a permutation of the row |
| Ordering.AlternateOrdered | src/bot/imageProcessor.ts:471-474 | reversing the odd rows keeps each row's y; even-indexed rows run by ascending x and odd-indexed ones by descending x |
| Ordering.ReversedRow | src/bot/imageProcessor.ts:472 | a reversed row keeps its y and runs by descending x |
| Ordering.SnakePermutation | src/bot/imageProcessor.ts:457-475 | snake returns a permutation of its input |
| Ordering.SnakeOrdered | src/bot/imageProcessor.ts:457-475 | snake returns a permutation and walks rows by strictly ascending y, even-indexed rows by ascending x, odd-indexed rows by descending x |
| Ordering.ZigzagOrdered | src/bot/imageProcessor.ts:477-502 | zigzag returns a permutation, walks the same rows as snake, and emits each row's elements at even positions in order, then those at odd positions in order |
| Ordering.StrideAt | src/bot/imageProcessor.ts:495-500 | the stride loop from `i` visits one element per second position, in order, ceil((n - i) / 2) of them |
| Ordering.EvensThenOddsAt | src/bot/imageProcessor.ts:495-500 | a zigzag row holds row[2i] at place i for the first ceil(n/2) places and row[2j + 1] after them |
| Ordering.GroupIntoRows | src/bot/imageProcessor.ts:462-469 | the row-building loop computes `GroupRows` |
| Ordering.FlattenStep | src/bot/imageProcessor.ts:471-474 | appending a row's pixels extends the concatenation by that row |
| Ordering.SnakeWalk | src/bot/imageProcessor.ts:457-475 | the snake branch computes `SnakeOrder` |
| Ordering.PushStride | src/bot/imageProcessor.ts:495-500 | one stride loop appends the pixels at start, start + 2, ... |
| Ordering.ZigzagWalk | src/bot/imageProcessor.ts:477-502 | the zigzag branch computes `ZigzagOrder`, with the direction flag alternating per row |
| Ordering.EmitRow | src/bot/imageProcessor.ts:495-500 | the two stride loops of a row append its even positions, then its odd positions |
| Ordering.PositionsAppend | src/bot/imageProcessor.ts:508 | the positions of a concatenation are the union of the parts' positions |
| Ordering.ByPosition | src/bot/imageProcessor.ts:509-510 | the pixel map is keyed by exactly the input positions and maps each to an input pixel at that position |
| Ordering.ByPositionLastWins | src/bot/imageProcessor.ts:510 | the map holds the last input pixel given at each position |
| Ordering.BuildPixelMap | src/bot/imageProcessor.ts:510 | the map-filling loop computes `ByPosition` |
| Ordering.DirsAreNeighbours | src/bot/imageProcessor.ts:514 | each of the eight directions leads to an adjacent cell |
| Ordering.Neighbours | src/bot/imageProcessor.ts:512-522 | `getNeighbors` returns the mapped unvisited cells in direction order, up first and then clockwise (`NeighbourList`): at most eight, each adjacent, and the mapped unvisited pixel of every direction |
| Ordering.AdjacentDir | src/bot/imageProcessor.ts:514 | every cell next to a pixel lies in one of the eight directions |
| Ordering.VisitStep | src/bot/imageProcessor.ts:527-531 | emitting an unvisited mapped pixel keeps "visited is exactly the emitted positions, each once, all from the input" and shrinks the unvisited part of the map |
| Ordering.VisitingIntro | src/bot/imageProcessor.ts:505-531 | the flood-fill bookkeeping facts together establish the visiting invariant |
| Ordering.PositionsSnoc | src/bot/imageProcessor.ts:530-531 | emitting a pixel adds its position to the emitted positions |
| Ordering.NotInPositions | src/bot/imageProcessor.ts:529 | an unvisited position is not that of any emitted pixel |
| Ordering.OrderedNeighbours | src/bot/imageProcessor.ts:533-539 | the pushed neighbours are the direction-ordered list sorted stably by Manhattan distance, nearest first; each is a mapped input pixel next to the current one, and every unvisited input pixel next to it is pushed |
| Ordering.FillSkip | src/bot/imageProcessor.ts:527-529 | popping a visited pixel keeps the fill state |
| Ordering.FillVisit | src/bot/imageProcessor.ts:527-539 | popping an unvisited pixel emits it, marks it visited, pushes its neighbours and keeps the fill state |
| Ordering.FillingIntro | src/bot/imageProcessor.ts:524-541 | the loop-state facts together establish the fill invariant |
| Ordering.EmitKeepsSeed | src/bot/imageProcessor.ts:525-531 | the output so far stays a prefix, with the seed emitted first |
| Ordering.PushedStack | src/bot/imageProcessor.ts:527-539 | after a pop and a push the stack holds only mapped input pixels |
| Ordering.FillStep | src/bot/imageProcessor.ts:526-540 | one turn of the fill loop keeps the fill state, the component order and the frontier, and either visits a new position or shrinks the stack, so the loop terminates |
| Ordering.FloodFill | src/bot/imageProcessor.ts:524-541 | a fill from the least unvisited seed of a complete walk keeps the visiting invariant and the component order, only adds visited positions, appends output that starts with the seed, and leaves every input pixel next to an emitted one visited |
| Ordering.WalkingOrdered | src/bot/imageProcessor.ts:524-549 | the walk's invariant gives the component order of its output |
| Ordering.TouchesSnoc | src/bot/imageProcessor.ts:531 | a pixel next to the output stays so as the output grows, and a pixel next to the newly emitted one is next to the output |
| Ordering.WalkEmit | src/bot/imageProcessor.ts:527-531 | emitting an unvisited pixel that is next to the output, or that precedes every unvisited pixel while none of them is next to the output, keeps the component order |
| Ordering.SeededSnoc | src/bot/imageProcessor.ts:527-531 | a pixel that started a component still does after a later unvisited pixel is emitted |
| Ordering.FrontierEmit | src/bot/imageProcessor.ts:527-531 | the popped pixel is next to the output, or it is the seed, which precedes every unvisited pixel while none of them is next to the output |
| Ordering.FrontierSkip | src/bot/imageProcessor.ts:527-529 | popping a visited pixel keeps every pending neighbour on the stack |
| Ordering.FrontierVisit | src/bot/imageProcessor.ts:527-539 | after emitting the popped pixel and pushing its neighbours, every stacked pixel is next to the output and every unvisited pixel next to this fill's output is stacked |
| Ordering.FrontierClosed | src/bot/imageProcessor.ts:526-541 | when the stack runs empty, every input pixel next to the output has been visited |
| Ordering.SeedLeast | src/bot/imageProcessor.ts:543-546 | the first seed in column order whose position is unvisited precedes every unvisited input pixel |
| Ordering.TextDrawWalk | src/bot/imageProcessor.ts:504-552 | text-draw emits one input pixel per input position, each position exactly once, starting with the least pixel in (x, y) order; each later pixel is next to an earlier one or starts a component (`DrawOrdered`) |
| Ordering.ColumnFirstIsLeast | src/bot/imageProcessor.ts:543 | the first seed is an input pixel with the least x, then the least y |
| Ordering.SortPixelsByStrategy | src/bot/imageProcessor.ts:54-556 | every deterministic strategy returns what its branch makes of the copy (`Arranged`; for text-draw, `TextDrawn`: one pixel per position, from the least seed, components whole and in seed order); every strategy returns a permutation of the input, text-draw when no two input pixels share a position |
| Ordering.TextDrawnComponents | src/bot/imageProcessor.ts:524-549 | in text-draw's output each pixel is a new position from the input, and it is next to an earlier pixel, or it is the least input pixel in (x, y) order whose position is not yet emitted and none of those is next to an earlier pixel |
| Ordering.UniqueCount | src/bot/imageProcessor.ts:504-551 | in a sequence without repeats each pixel occurs once or not at all |
| Ordering.SameElementsPermutation | src/bot/imageProcessor.ts:504-551 | two sequences without repeats that hold the same pixels are permutations of each other |
| Ordering.TextDrawnPermutation | src/bot/imageProcessor.ts:504-551 | when no two input pixels share a position, text-draw's one pixel per position, each once, is a permutation of the input |
| TextGenerator.FontKeys | src/bot/textGenerator.ts:15-61 | every key of the stroke font is an ASCII capital, digit or punctuation mark no greater than '_' |
| TextGenerator.StrokeLookup | src/bot/textGenerator.ts:63-66 | lookup ignores case: upper-casing is idempotent, a character draws as its upper case, and a lower-case ASCII letter draws as its capital |
| TextGenerator.FontLookup | src/bot/textGenerator.ts:63-66 | a character of the font draws its own strokes; one neither in the font nor upper-cased into it draws nothing |
| TextGenerator.NoOvershoot | src/bot/textGenerator.ts:94-97 | once the pen is on the last column the error term never moves it further right, and likewise on the last row |
| TextGenerator.StepOnTrack | src/bot/textGenerator.ts:95-97 | one step short of the end keeps the error term within its bounds, moves at most one unit on each axis, never stands still and always moves along the longer axis |
| TextGenerator.Walk | src/bot/textGenerator.ts:88-98 | the walk starts at its given state and ends exactly at the far end (dx, dy) |
| TextGenerator.WalkBounds | src/bot/textGenerator.ts:88-98 | every state of the walk lies between its start and the far end |
| TextGenerator.WalkSteps | src/bot/textGenerator.ts:95-97 | consecutive states differ by zero or one on each axis and are never equal |
| TextGenerator.WalkLength | src/bot/textGenerator.ts:88-98 | the walk has one state per unit of the longer axis, plus the start |
| TextGenerator.Placed | src/bot/textGenerator.ts:82-87 | a walk placed on the canvas has one point per state |
| TextGenerator.PlacedAppend | src/bot/textGenerator.ts:82-87 | placing a walk distributes over concatenation |
| TextGenerator.CentresEnds | src/bot/textGenerator.ts:86-98 | the pen centres start at (x1, y1), stop at (x2, y2), and number max(dx, dy) + 1 |
| TextGenerator.CentresPath | src/bot/textGenerator.ts:88-98 | consecutive centres are distinct neighbours and every centre lies in the rectangle spanned by the two ends |
| TextGenerator.Column | src/bot/textGenerator.ts:90-92 | the inner loop's cells are column `tx` of the pen square, top to bottom |
| TextGenerator.ColumnsMeaning | src/bot/textGenerator.ts:89-93 | the pen square holds exactly the cells within `t` to the right of and below its corner |
| TextGenerator.StampsMeaning | src/bot/textGenerator.ts:88-98 | a cell is stamped exactly when some centre's pen covers it |
| TextGenerator.BlocksMeaning | src/bot/textGenerator.ts:88-98 | a cell is in the concatenated pen squares exactly when one of the centres' squares holds it |
| TextGenerator.AddAllAppend | src/bot/textGenerator.ts:72-78 | adding two batches of points one after the other is adding their concatenation |
| TextGenerator.AddAllMeaning | src/bot/textGenerator.ts:72-78 | `addPoint` keeps the key set equal to the pushed points with no point twice, keeps earlier points as a prefix, and ends holding exactly the old and the new points |
| TextGenerator.ThickLineDistinct | src/bot/textGenerator.ts:68-100 | the thick line lists no point twice |
| TextGenerator.ThickLineCells | src/bot/textGenerator.ts:68-100 | a point is on the thick line exactly when the pen square at some centre covers it |
| TextGenerator.ThickLineStart | src/bot/textGenerator.ts:84-93 | with a pen of positive width the first point drawn is (x1, y1) |
| TextGenerator.ThickLineInSpan | src/bot/textGenerator.ts:68-100 | every point lies in the rectangle of the two ends widened by the pen |
| TextGenerator.FirstCellFirst | src/bot/textGenerator.ts:89-93 | drawing a pen square from scratch puts its corner first |
| TextGenerator.StampColumn | src/bot/textGenerator.ts:90-92 | the inner `for` loop adds the cells of column `tx` of the pen square, de-duplicated |
| TextGenerator.Stamp | src/bot/textGenerator.ts:89-93 | the nested `for` loops add the cells of the pen square column by column, de-duplicated |
| TextGenerator.WalkChain | src/bot/textGenerator.ts:94-97 | every state of the walk but the last is followed by one loop step, and none of them is the end |
| TextGenerator.AlongEnd | src/bot/textGenerator.ts:82-83 | a coordinate stepped towards the far end reaches it exactly after the full distance, one unit per step in the direction `sx` or `sy` |
| TextGenerator.WalkAt | src/bot/textGenerator.ts:94-97 | the pen is at (x2, y2) exactly at the last state of the walk, so the loop breaks there and nowhere earlier |
| TextGenerator.StampNext | src/bot/textGenerator.ts:88-93 | stamping the next centre's square extends the drawing by that centre |
| TextGenerator.Advance | src/bot/textGenerator.ts:95-97 | one step of the error-term logic takes the pen from a walk state to the state that follows it |
| TextGenerator.DrawThickLine | src/bot/textGenerator.ts:68-100 | `drawThickLine` returns the pen squares along the Bresenham centres, each point kept the first time it appears |
| TextGenerator.FloorSqrtMeaning | src/bot/textGenerator.ts:105-107 | the integer square root is the largest `r` with `r * r <= n` |
| TextGenerator.SlantFloorMeaning | src/bot/textGenerator.ts:126-127 | the horizontal slant of a stroke end is h tan 15° rounded down |
| TextGenerator.SlantCeilMeaning | src/bot/textGenerator.ts:109 | the extra width for the slant is h tan 15° rounded up |
| TextGenerator.CeilRootCases | src/bot/textGenerator.ts:105-109 | the ceiling of h sqrt 3 follows from the integer square root of 3h², for either sign of h |
| TextGenerator.FloorRootCases | src/bot/textGenerator.ts:105-109 | the floor of h sqrt 3 follows from the integer square root of 3h², for either sign of h |
| TextGenerator.Root3Unique | src/bot/textGenerator.ts:105-109 | the floor and the ceiling of h sqrt 3 are each a single integer, so the slant is fully determined |
| TextGenerator.Tag | src/bot/textGenerator.ts:137-145 | tagging keeps one pixel per point |
| TextGenerator.StrokeLines | src/bot/textGenerator.ts:120-135 | one thick line per stroke of the character |
| TextGenerator.CharPixels | src/bot/textGenerator.ts:120-146 | a character's pixels are numbered consecutively from the running order and carry its index and a stroke index below the stroke count |
| TextGenerator.TextPixels | src/bot/textGenerator.ts:117-149 | the pixels' `order` fields are 0, 1, 2, … and every character index is one of the text's |
| TextGenerator.CharPixelsOnLines | src/bot/textGenerator.ts:120-146 | each pixel of a character lies on the stroke line it is tagged with |
| TextGenerator.CharPixelsOrdered | src/bot/textGenerator.ts:120-146 | a character's pixels come stroke by stroke |
| TextGenerator.CharPixelsComplete | src/bot/textGenerator.ts:120-146 | every point of every stroke line appears among the character's pixels under its stroke's index |
| TextGenerator.TextPixelsOnLines | src/bot/textGenerator.ts:117-149 | each pixel lies on the stroke line of the character and stroke it is tagged with |
| TextGenerator.TextPixelsOrdered | src/bot/textGenerator.ts:117-149 | pixels come character by character and, within a character, stroke by stroke |
| TextGenerator.TextPixelsComplete | src/bot/textGenerator.ts:117-149 | every point of every stroke line of every character is among the pixels with its tags |
| TextGenerator.GlyphLinesAt | src/bot/textGenerator.ts:114-148 | character `c` is drawn at cursor 5 + c × charWidth, each stroke sheared by the slant and lowered by the margin |
| TextGenerator.MaskOnStrokes | src/bot/textGenerator.ts:102-152 | every pixel of the mask lies on the thick line of the stroke it is tagged with, placed at its character's cursor |
| TextGenerator.MaskSkipsBlank | src/bot/textGenerator.ts:121-123 | a character without strokes (a space or one the font does not know) contributes no pixel, though it still advances the cursor |
| TextGenerator.MaskOrdered | src/bot/textGenerator.ts:102-152 | the mask lists pixels character by character and stroke by stroke |
| TextGenerator.MaskComplete | src/bot/textGenerator.ts:102-152 | every point of every stroke's thick line is in the mask with its character and stroke tags |
| TextGenerator.PushPoints | src/bot/textGenerator.ts:137-145 | the `points.forEach` push appends the tagged points numbered from the running order, and the order counter ends at the pixel count |
| TextGenerator.DrawStroke | src/bot/textGenerator.ts:124-135 | a stroke's ends are scaled, lowered by the margin and sheared by the rounded-down slant before the thick line is drawn |
| TextGenerator.DrawStrokes | src/bot/textGenerator.ts:122-135 | every stroke of a character is drawn in turn |
| TextGenerator.PushLines | src/bot/textGenerator.ts:122-146 | a character's stroke lines are pushed stroke by stroke with consecutive order numbers |
| TextGenerator.DrawText | src/bot/textGenerator.ts:117-149 | the character loop yields exactly the mask pixels: every stroke line of every character, tagged and numbered in drawing order |
| TextGenerator.GenerateTextMask | src/bot/textGenerator.ts:102-152 | `generateTextMask`, with scale 3 by default, returns width = UTF-16 length × charWidth + 10 + ceil(h tan 15°) + 5, height = 5 × scale + 10, and the pixels of every code unit's strokes |
| TextGenerator.CharUnits | src/bot/textGenerator.ts:110 | a character below U+10000 is one code unit, equal to it and not a surrogate; any other is a high surrogate followed by a low one |
| TextGenerator.Utf16RoundTrip | src/bot/textGenerator.ts:110 | decoding the code units of a string gives the string back |
| TextGenerator.Utf16Append | src/bot/textGenerator.ts:110 | the code units of a concatenation are the concatenated code units |
| TextGenerator.Utf16Bmp | src/bot/textGenerator.ts:110 | text below U+10000 has one code unit per character, equal to it |
| TextGenerator.GlyphsBmp | src/bot/textGenerator.ts:117-118 | for text below U+10000 the loop visits each character once and looks up its own strokes |
| TextGenerator.GlyphsAstral | src/bot/textGenerator.ts:117-118 | a character beyond U+FFFF takes two blank slots, so the text after it draws two character widths further on and at a character index two higher |
| Strings.NatToStringRoundTrip | src/bot/controller.ts:117 | reading the decimal digits of a natural number back gives the number |
| Strings.IntToStringRoundTrip | src/bot/controller.ts:117 | the decimal text of any integer, with a leading `-` when negative, matches `-?\d+` and `parseInt` gives the integer back |
| Controller.FirstSeparator | src/bot/controller.ts:113 | the result is the first position at or after `i` holding `_` or `,`, or the end of the string |
| Controller.MatchIsAtFirstSeparator | src/bot/controller.ts:113 | the pattern `^(-?\d+)[_,](-?\d+)$` can only match with its separator at the first `_` or `,` |
| Controller.ParseCoordinatesMeaning | src/bot/controller.ts:112-118 | parsing succeeds exactly when the whole string matches the pattern, and then yields the two signed decimals around the separator |
| Controller.CoordinatesRoundTrip | src/bot/controller.ts:112-118 | writing a position as `x_y` or `x,y` and parsing it gives the position back, negative coordinates included |
| Controller.MergeProperties | src/bot/controller.ts:88-93 | `updateConfig` overrides exactly the fields the patch holds: applying a patch twice equals applying it once, and an empty patch changes nothing |
| Controller.ProgressMeaning | src/bot/controller.ts:172 | the progress percentage runs from 0 to 100, is 0 at the start and 100 at the end, and never decreases as the index grows; the model's `Progress` is the nearest integer to the exact percentage, halves rounded up, which the source's double arithmetic can miss by one (see "Left out") |
| Controller.ResumeIndex | src/bot/controller.ts:155-162 | the start index is the saved index exactly when the saved progress names the same image and coordinates and lies inside the image; otherwise it is 0 |
| Controller.ClassifyResult | src/bot/controller.ts:277-328 | a placement result is never a colour-match skip; success, captcha, cooldown, already-correct and other failures are checked in that order |
| Controller.BackoffSchedule | src/bot/controller.ts:323-327 | the failure backoff starts at 500 ms, doubles per failure, is one of 500 … 16000 ms, and stays at 16 s from the sixth failure on |
| Controller.StepEffect | src/bot/controller.ts:233-334 | one loop iteration advances the cursor exactly when the pixel was found in its colour, placed, or reported already correct; it counts a placement only on success and an error only on a plain failure; and it keeps the counters consistent |
| Controller.ReactEffect | src/bot/controller.ts:277-328 | each reaction to a result moves the counters as the outcome says and keeps placed + skipped equal to the cursor |
| Controller.StepKeepsRunning | src/bot/controller.ts:330-333 | an iteration leaves a running bot running unless the user pressed stop, and a stop during a placement always ends the loop |
| Controller.StopDuringCaptchaShowsRunning | src/bot/controller.ts:302-307 | a stop that lands while a captcha-rejected placement is in flight leaves the bot stopped yet showing status "running" |
| Controller.RunKeepsConsistent | src/bot/controller.ts:233-342 | a run keeps the counters consistent, never moves the cursor back and never lowers the error count |
| Controller.IdleOnlyWhenDone | src/bot/controller.ts:338-342 | the bot turns idle only by finishing: every pixel done, not running, progress 100 |
| Controller.SmoothRunCompletes | src/bot/controller.ts:233-342 | with enough successful placements and no stop, a running bot finishes idle, with placed + skipped equal to the pixel count and no new error |
| Controller.PlainMessage | src/api/pixmap.ts:696-725 | no failure message of a known ack code contains "Captcha", "Cooldown" or "already correct color" |
| Controller.UnknownCodeMessage | src/api/pixmap.ts:726 | the message for an unknown ack code contains none of the three keywords, whatever the code |
| Controller.AckOutcome | src/bot/controller.ts:277-328 | when the cache did not show the colour, ack code 0 counts as placed, 10 waits for the captcha, 9 waits out the cooldown (2 minutes if the server gave no wait), and every other code backs off |
| Controller.CooldownAck | src/bot/controller.ts:308-312 | a cooldown ack (code 9) waits for the server's wait, or 120000 ms when it is 0 |
| Controller.FailedAck | src/bot/controller.ts:321-328 | an ack with a code other than 0, 9 or 10, a protected pixel included, backs off and retries the same pixel |
| Controller.TransportMessageNeutral | src/api/pixmap.ts:751-788 | the messages for no canvas, no socket and a timeout contain none of the three keywords |
| Controller.TransportFailureBacksOff | src/bot/controller.ts:321-328 | a placement that fails before reaching the server backs off and retries |
| Controller.BotController.constructor | src/bot/controller.ts:30-63 | a new controller has the default settings (coordinates "0_0", strategy line-ltr, brush 1x1, colour check on), is idle with zero counters, has no image or canvas and no timers |
| Controller.BotController.UpdateConfig | src/bot/controller.ts:88-93 | the configuration becomes the old one overridden by the patch |
| Controller.BotController.ParseCoordinates | src/bot/controller.ts:112-118 | the method's result is the specified parse of the configured coordinates |
| Controller.BotController.SaveProgress | src/bot/controller.ts:195-214 | progress is stored only with an image, an image name and existing stored settings, and then holds the cursor, the name and the coordinates |
| Controller.BotController.Stop | src/bot/controller.ts:182-193 | stop clears the running flag and every timer, sets status stopped and cooldown 0, and saves progress |
| Controller.BotController.WaitForCaptchaResolution | src/bot/controller.ts:379-390 | the check timer is registered and removed again once the wait resolves |
| Controller.BotController.WaitCooldown | src/bot/controller.ts:345-377 | a non-positive wait changes nothing; otherwise the wait ends with cooldown 0 and its interval removed. The timeout is removed too, except after a stop when it is due no earlier than the interval's first 500 ms tick: then the tick ends the wait and the timeout stays registered |
| Controller.CooldownSettleTimers | src/bot/controller.ts:345-377 | a positive wait always removes its interval, touches no other timer, leaves its timeout registered exactly when the bot is stopped and the wait is at least 500 ms, and changes nothing but the cooldown |
| Controller.BotController.Iterate | src/bot/controller.ts:234-333 | one iteration of the loop body leaves exactly the state of `LoopStep`, whose effect on the counters `StepEffect` states |
| Controller.BotController.Respond | src/bot/controller.ts:277-328 | the reaction to a placement's result is the specified reaction to its classified outcome, and the backoff sleep it returns is `BackoffMs` of the new error count for a plain failure and 0 otherwise |
| Controller.BotController.RunLoop | src/bot/controller.ts:216-343 | without running, an image or a canvas nothing changes; otherwise the loop leaves the state of the specified run |
| Controller.BotController.Initialize | src/bot/controller.ts:95-110 | without an account response nothing changes and it fails; otherwise the session keeps the response, selects its main canvas, and it succeeds exactly when a canvas was found |
| Controller.BotController.Start | src/bot/controller.ts:120-180 | start does nothing while running, without an image or with malformed coordinates. Without a canvas it stops with the cache and image untouched. With a canvas it clears the tile cache and processes the image against the session's palette (the fixed palette on the pixmap site, else the canvas's colours); it runs exactly when pixels remain, and then its counters are those of a fresh launch at the resume index. With no pixels it keeps the counters and holds the empty result |
| Controller.BotController.Prepare | src/bot/controller.ts:141-176 | after the guards, the tile cache is empty and the processed image is `processImage` of the configured image at the parsed coordinates against the session's palette. The bot runs exactly when that image has pixels, and then its counters are `Launch` at the resume index; otherwise the counters are unchanged |
| Controller.ProcessConfigured | src/bot/controller.ts:143-148 | the processed image is `processImage` of the configured image at the parsed coordinates with the given palette: empty for an empty palette, else of the image's size with its quantised pixels arranged by the configured strategy |
| Controller.LaunchConsistent | src/bot/controller.ts:165-176 | the counters of a launch at an index inside the image are consistent and the progress lies between 0 and 100 |

## Left out

- The user interface, styles, hotkeys, logging and bootstrapping
  (`src/ui`, `src/main.ts`, `src/utils`) are not part of this model.
  - The anti-detection patches and the captcha solver are left out as well.
  - Whether a captcha is on screen is an input to each loop iteration.
- Network and browser I/O are inputs, not behaviour:
  - the `/api/me` and canvas requests of `fetchMe` are a response that is
    present or absent;
  - each tile request is a `FetchOutcome` (a status with a body, or an
    exception);
  - opening the socket is a `connected` flag;
  - `ws.send` failing is an optional error text;
  - request ids and timer ids are given values.
- WebSocket discovery and hooking are not modelled, and neither is
  `detectCanvasIdFromHash`: they read browser globals.
- The 20-second placement timeout is the method `Pixmap.Session.Timeout`,
  called when the timer fires. Waiting itself takes no time in the model.
- `Pixmap.Session.PrefetchChunksForPixels`: the six parallel requests per
  batch are issued one after another. Tile writes do not depend on the
  order in which responses arrive, but interleavings in which a response
  evicts a tile fetched by a sibling request are not modelled.
- `Pixmap.Session.PrefetchChunksForPixels`: states that every successfully
  fetched tile ends up cached only when the old cache size plus the
  number of pixels is at most 512. This
  is weaker than "every pixel's tile is cached", because a prefetch of more
  than 512 new tiles evicts its own early tiles.
- Placement acknowledgements carry no request id. The pending placements
  are a queue, and an acknowledgement resolves the oldest one, as the
  `Map` iteration order does.
- `Ordering.TextDrawWalk`: within one component, the depth-first pop order
  is stated one step at a time. `OrderedNeighbours` states which
  neighbours are pushed and in what order. The walk's own contract states
  only that each pixel is next to an earlier one or starts the next
  component. `SortPixelsByStrategy` inherits this through `TextDrawn`.
- The strategies that draw on randomness or on floating-point functions
  are not modelled: random, scatter, cluster, human, organic, spiral in
  and out, and wave.
  - circle-in, circle-out and center-out compare squared distances from
    the doubled centre in integers. This gives the same order as the `sqrt` distance
    whenever floating point resolves ties exactly.
- `loadImageFromFile`, `loadImageFromUrl` and `generateTextImage` are not
  modelled: they use the DOM and the canvas API.
- Timing in the controller is not modelled:
  - the start time, pixels per second and ETA;
  - `getPlacementDelay` (a Gaussian delay);
  - `maybeHumanBreak`, `moveCamera`;
  - the state-change callback;
  - the 500 ms countdown updates of `cooldown` during a wait.
- The stored settings are a flag saying whether the item exists, plus the
  progress it holds. JSON parsing and `localStorage` are not modelled.
- `Controller.BotController.Iterate`: a `stop()` can only land while the
  placement is awaited. The other awaits of an iteration (the placement
  delay, the human break, the captcha and cooldown waits) run with no
  interleaving, so a stop that lands there is not modelled.
- A saved progress index is a natural number. A negative index from
  hand-edited storage is not modelled.
- `TextGenerator.SlantFloorMeaning`: `tan 15°` is taken as the exact real
  number 2 - sqrt 3, with floors and ceilings computed from the integer
  square root of 3h². Where floating point rounds across an integer
  boundary, the source may differ by one.
- `TextGenerator.GenerateTextMask`: looks up every character's strokes
  before drawing, and draws a character's stroke lines before pushing
  their points. The source interleaves these steps, but they share no
  state, so the result is the same.
- `Controller.Progress`: the source computes `Math.round((i / total) * 100)`
  in doubles, and the product can land just below a half and round down.
  For example 23 / 40 * 100 is 57.49999999999999, so the source shows 57
  where the model, rounding the exact 57.5, gives 58.
- `Strings.IntToStringRoundTrip` and `Controller.CoordinatesRoundTrip`:
  `parseInt` returns a double, so the source reads coordinates exactly
  only up to 2^53 in magnitude. The model's integers are unbounded.
- `Pixmap.Session.PatchChunk`: the record loop of the pixel-update handler
  is split out into its own method. Its behaviour is unchanged.

Where the repository's description and its code differ, the model follows
the code:

- a cache hit in `fetchChunk` does not move the tile to the newest
  position;
- `errorCount` is never reset by a success;
- a protected pixel is retried with backoff like any other failure;
- `stopOnCaptcha` is never read;
- `start` clears the tile cache but not the overlay;
- repair mode turns the colour check off, like `skipColorCheck`;
- a cooldown with no wait time falls back to 120000 ms.
