/**
 * Shared types of the bot: pixels, canvas descriptions, placement results
 * and the bot's status (src/types/index.ts).
 */
module Types {
  import opened Wrappers

  /** Side length, in pixels, of one square tile ("chunk") of a canvas. */
  const CHUNK_SIZE: int := 256

  /** Number of pixels in one tile. */
  const TILE_PIXELS: int := CHUNK_SIZE * CHUNK_SIZE

  /** One byte: an element of a Uint8Array / a DataView byte. */
  type byte = x: int | 0 <= x < 256

  /** A palette entry `[r, g, b]`. */
  datatype Rgb = Rgb(r: int, g: int, b: int)

  /** A pixel to place: world coordinates and a palette index. */
  datatype PixelData = PixelData(x: int, y: int, color: int)

  /** Canvas side lengths are even, so that half of it is a whole number. */
  type CanvasSize = n: int | 0 <= n && n % 2 == 0

  /** The part of a canvas description the bot uses. */
  datatype CanvasInfo = CanvasInfo(size: CanvasSize, colors: seq<Rgb>)

  /**
   * The outcome of one placement, as the WebSocket layer reports it to the
   * controller. `error` is absent on success; `captcha` is the optional flag.
   */
  datatype PlaceResult = PlaceResult(
    success: bool,
    waitMs: int,
    cooldownMs: int,
    pixelsAvailable: int,
    maxPixels: int,
    error: Option<string>,
    captcha: bool)

  /** A failed placement with the given message and zeroed numbers. */
  function Failure(message: string): PlaceResult
  {
    PlaceResult(false, 0, 0, 0, 0, Some(message), false)
  }

  datatype BotStatus = Idle | Running | Stopped | Paused | Captcha
}
