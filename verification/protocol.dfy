/**
 * Binary WebSocket frames exchanged with the pixmap server
 * (src/api/pixmap.ts): the RegisterCanvas frame, the placement frame the
 * client sends, the pixel-update (delta) frame the server pushes, and the
 * placement acknowledgement. Multi-byte fields are big-endian, as
 * `DataView` reads and writes them by default.
 */
module Protocol {
  import opened Wrappers
  import opened Types
  import opened Strings
  import opened Coords
  import opened Seqs

  const OP_REGISTER_CANVAS: byte := 0xA0
  /** Opcode of both the client's placement frame and the server's pixel-update frame. */
  const OP_PIXEL_UPDATE: byte := 0x91
  const OP_PLACE_ACK: byte := 0xC3

  /** `DataView.setUint8` / `setInt8`: keeps the low eight bits of an integer. */
  function Uint8(v: int): byte
  {
    v % 256
  }

  /** `setUint16` big-endian: the two bytes of the low sixteen bits. */
  function Uint16Bytes(v: int): (b: seq<byte>)
    ensures |b| == 2
  {
    var u := v % 0x1_0000;
    [u / 256, u % 256]
  }

  function U16At(b: seq<byte>, i: nat): int
    requires i + 2 <= |b|
  {
    (b[i] as int) * 256 + b[i + 1]
  }

  function U32At(b: seq<byte>, i: nat): int
    requires i + 4 <= |b|
  {
    (b[i] as int) * 0x100_0000 + (b[i + 1] as int) * 0x1_0000 + (b[i + 2] as int) * 0x100 + b[i + 3]
  }

  /** `getInt16`: the sixteen bits read as a two's complement number. */
  function I16At(b: seq<byte>, i: nat): int
    requires i + 2 <= |b|
  {
    var u := U16At(b, i);
    if u >= 0x8000 then u - 0x1_0000 else u
  }

  // ---------------------------------------------------------------- RegisterCanvas

  /** `sendRegisterCanvas`: opcode 0xA0 followed by the canvas id's low byte. */
  function RegisterCanvasFrame(canvasId: int): seq<byte>
  {
    [OP_REGISTER_CANVAS, Uint8(canvasId)]
  }

  /**
   * The frame names the canvas exactly when its id fits in a byte; ids
   * that differ by a multiple of 256 produce the same frame.
   */
  lemma RegisterCanvasFrameNamesCanvas(canvasId: int)
    ensures |RegisterCanvasFrame(canvasId)| == 2
    ensures RegisterCanvasFrame(canvasId)[0] == OP_REGISTER_CANVAS
    ensures RegisterCanvasFrame(canvasId)[1] == canvasId <==> 0 <= canvasId < 256
    ensures RegisterCanvasFrame(canvasId) == RegisterCanvasFrame(canvasId + 256)
  {
  }

  // ---------------------------------------------------------------- placement frame

  /**
   * `placePixelViaWebSocket`'s 7-byte frame: opcode, tile column and row,
   * then the in-tile offset as one high byte and a 16-bit big-endian low
   * part, then the colour. The in-tile coordinates use a single JavaScript
   * remainder (no correction for negative values).
   */
  function PlacePixelFrame(x: int, y: int, color: int, size: CanvasSize): seq<byte>
  {
    var half := size / 2;
    var absX := x + half;
    var absY := y + half;
    var i := absX / CHUNK_SIZE;
    var j := absY / CHUNK_SIZE;
    var offset := JsRem(absX, CHUNK_SIZE) + JsRem(absY, CHUNK_SIZE) * CHUNK_SIZE;
    [OP_PIXEL_UPDATE, Uint8(i), Uint8(j), Uint8((offset % 0x1_0000_0000) / 0x1_0000)]
      + Uint16Bytes(offset) + [Uint8(color)]
  }

  /**
   * For a pixel at or right of and below the canvas's top-left corner, the
   * frame carries the pixel's tile (mod 256), its in-tile index and the
   * colour's low byte; the index's high byte is zero.
   */
  lemma PlacePixelFrameFields(x: int, y: int, color: int, size: CanvasSize)
    requires x + size / 2 >= 0 && y + size / 2 >= 0
    ensures PlacePixelFrame(x, y, color, size)
         == [OP_PIXEL_UPDATE, Uint8(TileOf(x, size)), Uint8(TileOf(y, size)), 0,
             LocalIndex(x, y, size) / 256, LocalIndex(x, y, size) % 256, Uint8(color)]
  {
    LocalCoordIsFloorMod(x + size / 2);
    LocalCoordIsFloorMod(y + size / 2);
  }

  // ---------------------------------------------------------------- pixel-update frame

  /** One record of a pixel-update frame: an in-tile offset and the colour written there. */
  datatype DeltaRecord = DeltaRecord(offset: nat, color: byte)

  /** A pixel-update frame: opcode 0x91 and at least seven bytes. */
  predicate IsDeltaFrame(b: seq<byte>)
  {
    |b| >= 7 && b[0] == OP_PIXEL_UPDATE
  }

  /** The 4-byte record ending at `off`: offset high byte, offset low 16 bits, colour. */
  function RecordEndingAt(b: seq<byte>, off: nat): DeltaRecord
    requires 4 <= off <= |b|
  {
    DeltaRecord((b[off - 4] as int) * 0x1_0000 + U16At(b, off - 3), b[off - 1])
  }

  /**
   * The records the handler's loop reads, in the order it reads them: from
   * the end of the frame backwards, four bytes at a time, while more than
   * three bytes are left.
   */
  function RecordsFrom(b: seq<byte>, off: nat): seq<DeltaRecord>
    requires off <= |b|
    decreases off
  {
    if off <= 3 then []
    else [RecordEndingAt(b, off)] + RecordsFrom(b, off - 4)
  }

  function DeltaRecords(b: seq<byte>): seq<DeltaRecord>
  {
    RecordsFrom(b, |b|)
  }

  /** The handler reads floor(off / 4) records; record `k` ends `4k` bytes before `off`. */
  lemma {:induction false} RecordsFromShape(b: seq<byte>, off: nat)
    requires off <= |b|
    ensures |RecordsFrom(b, off)| == off / 4
    ensures forall k :: 0 <= k < off / 4 ==> RecordsFrom(b, off)[k] == RecordEndingAt(b, off - 4 * k)
    decreases off
  {
    if off > 3 {
      RecordsFromShape(b, off - 4);
    }
  }

  /**
   * A frame whose length is not 3 plus a multiple of 4 has its last record
   * read over the header: for an 8-byte frame the second record's offset
   * high byte is the opcode.
   */
  lemma MisalignedFrameReadsHeader(b: seq<byte>)
    requires IsDeltaFrame(b) && |b| == 8
    ensures |DeltaRecords(b)| == 2
    ensures DeltaRecords(b)[1] == DeltaRecord((b[0] as int) * 0x1_0000 + U16At(b, 1), b[3])
  {
    RecordsFromShape(b, 8);
  }

  /** The four bytes of one record, as the server lays them out. */
  function RecordBytes(r: DeltaRecord): seq<byte>
    requires r.offset < 0x100_0000
  {
    [r.offset / 0x1_0000, (r.offset % 0x1_0000) / 256, r.offset % 256, r.color]
  }

  predicate ValidRecords(recs: seq<DeltaRecord>)
  {
    forall k :: 0 <= k < |recs| ==> recs[k].offset < 0x100_0000
  }

  function RecordsBytes(recs: seq<DeltaRecord>): (b: seq<byte>)
    requires ValidRecords(recs)
    ensures |b| == 4 * |recs|
  {
    if recs == [] then []
    else RecordsBytes(recs[..|recs| - 1]) + RecordBytes(recs[|recs| - 1])
  }

  /** A pixel-update frame for tile `(ci, cj)` carrying `recs` in order. */
  function EncodeDelta(ci: byte, cj: byte, recs: seq<DeltaRecord>): seq<byte>
    requires ValidRecords(recs)
  {
    [OP_PIXEL_UPDATE, ci, cj] + RecordsBytes(recs)
  }

  lemma {:induction false} RecordsFromEncoded(header: seq<byte>, recs: seq<DeltaRecord>)
    requires ValidRecords(recs) && |header| == 3
    ensures RecordsFrom(header + RecordsBytes(recs), |header + RecordsBytes(recs)|) == Reverse(recs)
    decreases |recs|
  {
    if recs != [] {
      var init := recs[..|recs| - 1];
      var last := recs[|recs| - 1];
      var p := header + RecordsBytes(init);
      var b := header + RecordsBytes(recs);
      assert b == p + RecordBytes(last);
      assert RecordEndingAt(b, |b|) == last by {
        RecordBytesDecode(p, last);
      }
      assert b[..|p|] == p;
      RecordsFromPrefix(b, |p|);
      RecordsFromEncoded(header, init);
    }
  }

  /** The last four bytes of `p + RecordBytes(r)` read back as `r`. */
  lemma RecordBytesDecode(p: seq<byte>, r: DeltaRecord)
    requires r.offset < 0x100_0000
    ensures RecordEndingAt(p + RecordBytes(r), |p| + 4) == r
  {
  }

  /** Reading records at or before `off` only looks at the bytes before `off`. */
  lemma {:induction false} RecordsFromPrefix(b: seq<byte>, off: nat)
    requires off <= |b|
    ensures RecordsFrom(b, off) == RecordsFrom(b[..off], off)
    decreases off
  {
    if off > 3 {
      assert b[..off][..off - 4] == b[..off - 4];
      RecordsFromPrefix(b, off - 4);
      RecordsFromPrefix(b[..off], off - 4);
    }
  }

  /**
   * Decoding a pixel-update frame gives back its records, last one first:
   * the handler applies them in reverse order of the frame.
   */
  lemma DeltaRoundTrip(ci: byte, cj: byte, recs: seq<DeltaRecord>)
    requires ValidRecords(recs) && |recs| > 0
    ensures IsDeltaFrame(EncodeDelta(ci, cj, recs))
    ensures DeltaRecords(EncodeDelta(ci, cj, recs)) == Reverse(recs)
  {
    RecordsFromEncoded([OP_PIXEL_UPDATE, ci, cj], recs);
  }

  /**
   * A placement frame for a pixel of a canvas of at most 256 tiles a side,
   * read back as a pixel-update frame, names the same tile, a single record
   * whose offset the delta handler maps back to the same world pixel, and
   * the colour's low byte.
   */
  lemma PlacementReadsBackAsUpdate(x: int, y: int, color: int, size: CanvasSize)
    requires -(size / 2) <= x < size / 2 && -(size / 2) <= y < size / 2
    requires size <= 256 * CHUNK_SIZE
    ensures var f := PlacePixelFrame(x, y, color, size);
      && IsDeltaFrame(f)
      && f[1] == TileOf(x, size) && f[2] == TileOf(y, size)
      && DeltaRecords(f) == [DeltaRecord(LocalIndex(x, y, size), Uint8(color))]
      && DeltaWorldX(f[1], DeltaRecords(f)[0].offset, size) == x
      && DeltaWorldY(f[2], DeltaRecords(f)[0].offset, size) == y
  {
    var f := PlacePixelFrame(x, y, color, size);
    PlacePixelFrameFields(x, y, color, size);
    TileInCanvas(x, size);
    TileInCanvas(y, size);
    RecordsFromShape(f, 7);
    var i := LocalIndex(x, y, size);
    assert RecordEndingAt(f, 7) == DeltaRecord(i, Uint8(color));
    DeltaWorldInverse(x, y, size);
  }

  // ---------------------------------------------------------------- acknowledgement

  /** The fields of a placement acknowledgement. */
  datatype Ack = Ack(retCode: byte, waitMs: int, cooldownSeconds: int, pixelCount: byte)

  /** An acknowledgement frame: opcode 0xC3 and at least ten bytes. */
  function DecodeAck(b: seq<byte>): Option<Ack>
  {
    if |b| >= 10 && b[0] == OP_PLACE_ACK then
      Some(Ack(b[1], U32At(b, 2), I16At(b, 6), b[8]))
    else None
  }

  predicate ValidAck(a: Ack)
  {
    0 <= a.waitMs < 0x1_0000_0000 && -0x8000 <= a.cooldownSeconds < 0x8000
  }

  /** The frame the server sends for `a` (the tenth byte is padding). */
  function EncodeAck(a: Ack): seq<byte>
    requires ValidAck(a)
  {
    [OP_PLACE_ACK, a.retCode] + Uint32Bytes(a.waitMs)
      + Uint16Bytes(a.cooldownSeconds) + [a.pixelCount, 0]
  }

  /** The four big-endian bytes of a 32-bit unsigned number. */
  function Uint32Bytes(w: int): (b: seq<byte>)
    requires 0 <= w < 0x1_0000_0000
    ensures |b| == 4
  {
    [w / 0x100_0000, (w / 0x1_0000) % 256, (w / 0x100) % 256, w % 256]
  }

  lemma Uint32RoundTrip(w: int)
    requires 0 <= w < 0x1_0000_0000
    ensures U32At(Uint32Bytes(w), 0) == w
  {
    var b := Uint32Bytes(w);
    var q1 := w / 0x100;
    var q2 := q1 / 0x100;
    var q3 := q2 / 0x100;
    assert w == q1 * 0x100 + w % 0x100;
    assert q1 == q2 * 0x100 + q1 % 0x100;
    assert q2 == q3 * 0x100 + q2 % 0x100;
    assert w / 0x1_0000 == q2;
    assert w / 0x100_0000 == q3;
  }

  lemma Int16RoundTrip(c: int)
    requires -0x8000 <= c < 0x8000
    ensures I16At(Uint16Bytes(c), 0) == c
  {
  }

  /** Every well-formed acknowledgement survives the wire unchanged. */
  lemma AckRoundTrip(a: Ack)
    requires ValidAck(a)
    ensures DecodeAck(EncodeAck(a)) == Some(a)
  {
    var b := EncodeAck(a);
    Uint32RoundTrip(a.waitMs);
    Int16RoundTrip(a.cooldownSeconds);
    assert b[2..6] == Uint32Bytes(a.waitMs);
    assert U32At(b, 2) == U32At(b[2..6], 0);
    assert b[6..8] == Uint16Bytes(a.cooldownSeconds);
    assert I16At(b, 6) == I16At(b[6..8], 0);
  }

  /** Message of a failed placement, by return code. */
  function AckError(retCode: byte): Option<string>
  {
    if retCode == 0 then None
    else if retCode == 8 then Some("Protected pixel")
    else if retCode == 9 then Some("Cooldown not expired")
    else if retCode == 10 then Some("Captcha required")
    else if retCode == 1 then Some("Invalid canvas")
    else if retCode == 2 || retCode == 3 || retCode == 4 then Some("Invalid coordinates")
    else if retCode == 5 then Some("Invalid color")
    else if retCode == 6 then Some("Not logged in")
    else if retCode == 7 then Some("Pixel score too low")
    else if retCode == 11 then Some("Proxy detected")
    else if retCode == 14 then Some("Banned")
    else Some("Unknown error code: " + NatToString(retCode))
  }

  /** The result an acknowledgement resolves the oldest pending placement with. */
  function AckResult(a: Ack): PlaceResult
  {
    PlaceResult(a.retCode == 0, a.waitMs, a.cooldownSeconds * 1000, a.pixelCount, 0,
                AckError(a.retCode), a.retCode == 10)
  }

  /** Return codes with a message of their own. */
  predicate KnownCode(retCode: byte)
  {
    retCode <= 11 || retCode == 14
  }

  /**
   * An acknowledgement succeeds exactly for code 0, which alone carries no
   * message; only code 10 raises the captcha flag; the wait, cooldown (in
   * milliseconds) and pixel count are copied through; codes without a
   * message of their own report themselves in decimal.
   */
  lemma AckResultMeaning(a: Ack)
    ensures AckResult(a).success <==> a.retCode == 0
    ensures AckResult(a).error.None? <==> a.retCode == 0
    ensures AckResult(a).captcha <==> a.retCode == 10
    ensures AckResult(a).waitMs == a.waitMs
    ensures AckResult(a).cooldownMs == 1000 * a.cooldownSeconds
    ensures AckResult(a).pixelsAvailable == a.pixelCount && AckResult(a).maxPixels == 0
    ensures !KnownCode(a.retCode) ==>
      AckResult(a).error == Some("Unknown error code: " + NatToString(a.retCode))
    ensures !KnownCode(a.retCode) ==>
      ParseSigned(AckResult(a).error.value[20..]) == a.retCode
  {
    if !KnownCode(a.retCode) {
      var m := AckResult(a).error.value;
      assert m[20..] == NatToString(a.retCode);
      IntToStringRoundTrip(a.retCode);
    }
  }
}
