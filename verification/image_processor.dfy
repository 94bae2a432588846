/**
 * `processImage` (src/bot/imageProcessor.ts): quantise an RGBA image to the
 * canvas palette, dropping transparent pixels, then order the pixels by the
 * chosen strategy.
 */
module ImageProcessor {
  import opened Types
  import opened Palette
  import opened Ordering
  import opened Arith

  /** Browser `ImageData`: RGBA bytes, row by row. */
  datatype ImageData = ImageData(width: nat, height: nat, data: seq<byte>)

  /** The invariant every `ImageData` carries: four bytes per pixel. */
  predicate WellFormed(img: ImageData)
  {
    |img.data| == img.width * img.height * 4
  }

  datatype ProcessedImage = ProcessedImage(width: int, height: int, pixels: seq<PixelData>)

  /** A source pixel below this alpha is not placed. */
  const ALPHA_THRESHOLD: int := 128

  /** Byte offset of pixel (x, y); its four channels lie within the data. */
  function Offset(img: ImageData, x: nat, y: nat): (i: nat)
    requires WellFormed(img) && x < img.width && y < img.height
    ensures i + 3 < |img.data|
  {
    var w, h := img.width, img.height;
    MulMonotone(w, y, h - 1);
    assert w * (h - 1) == w * h - w;
    (y * w + x) * 4
  }

  /** The palette entries, as source pixel (x, y) contributes them. */
  function Cell(img: ImageData, colors: seq<Rgb>, startX: int, startY: int, x: nat, y: nat): seq<PixelData>
    requires WellFormed(img) && x < img.width && y < img.height
  {
    var i := Offset(img, x, y);
    if img.data[i + 3] < ALPHA_THRESHOLD then []
    else [PixelData(startX + x, startY + y, NearestIndex(img.data[i], img.data[i + 1], img.data[i + 2], colors))]
  }

  /** The first `n` cells of row `y`. */
  function RowPrefix(img: ImageData, colors: seq<Rgb>, startX: int, startY: int, y: nat, n: nat): seq<PixelData>
    requires WellFormed(img) && y < img.height && n <= img.width
  {
    if n == 0 then [] else RowPrefix(img, colors, startX, startY, y, n - 1) + Cell(img, colors, startX, startY, n - 1, y)
  }

  /** The cells of the first `m` rows. */
  function RowsUpTo(img: ImageData, colors: seq<Rgb>, startX: int, startY: int, m: nat): seq<PixelData>
    requires WellFormed(img) && m <= img.height
  {
    if m == 0 then []
    else RowsUpTo(img, colors, startX, startY, m - 1) + RowPrefix(img, colors, startX, startY, m - 1, img.width)
  }

  /** The pixels of the image before ordering, in row-major order. */
  function Quantized(img: ImageData, colors: seq<Rgb>, startX: int, startY: int): seq<PixelData>
    requires WellFormed(img)
  {
    RowsUpTo(img, colors, startX, startY, img.height)
  }

  /** `p` comes from an opaque source pixel, at its offset, in its nearest colour. */
  predicate FromSource(img: ImageData, colors: seq<Rgb>, startX: int, startY: int, p: PixelData)
    requires WellFormed(img)
  {
    var x, y := p.x - startX, p.y - startY;
    0 <= x < img.width && 0 <= y < img.height &&
    var i := Offset(img, x, y);
    img.data[i + 3] >= ALPHA_THRESHOLD &&
    p.color == NearestIndex(img.data[i], img.data[i + 1], img.data[i + 2], colors)
  }

  /** Strict row-major order: by y, then x, never the same cell twice. */
  predicate RowMajor(s: seq<PixelData>)
  {
    forall i, j :: 0 <= i < j < |s| ==> s[i].y < s[j].y || (s[i].y == s[j].y && s[i].x < s[j].x)
  }

  /** Every pixel of `s` comes from the source. */
  predicate AllFromSource(img: ImageData, colors: seq<Rgb>, startX: int, startY: int, s: seq<PixelData>)
    requires WellFormed(img)
  {
    forall i :: 0 <= i < |s| ==> FromSource(img, colors, startX, startY, s[i])
  }

  /** A cell is empty or the one source pixel at (startX + x, startY + y). */
  lemma CellShape(img: ImageData, colors: seq<Rgb>, startX: int, startY: int, x: nat, y: nat)
    requires WellFormed(img) && x < img.width && y < img.height
    ensures |Cell(img, colors, startX, startY, x, y)| <= 1
    ensures forall i :: 0 <= i < |Cell(img, colors, startX, startY, x, y)| ==>
      Cell(img, colors, startX, startY, x, y)[i].x == startX + x &&
      Cell(img, colors, startX, startY, x, y)[i].y == startY + y
    ensures AllFromSource(img, colors, startX, startY, Cell(img, colors, startX, startY, x, y))
  {
  }

  /** The cells of `a` + `b` come from the source when those of `a` and `b` do. */
  lemma AllFromSourceAppend(img: ImageData, colors: seq<Rgb>, startX: int, startY: int, a: seq<PixelData>, b: seq<PixelData>)
    requires WellFormed(img)
    requires AllFromSource(img, colors, startX, startY, a) && AllFromSource(img, colors, startX, startY, b)
    ensures AllFromSource(img, colors, startX, startY, a + b)
  {
    var r := a + b;
    forall i | 0 <= i < |r|
      ensures FromSource(img, colors, startX, startY, r[i])
    {
      if i < |a| {
        assert r[i] == a[i];
      } else {
        assert r[i] == b[i - |a|];
      }
    }
  }

  lemma {:induction false} RowPrefixShape(img: ImageData, colors: seq<Rgb>, startX: int, startY: int, y: nat, n: nat)
    requires WellFormed(img) && y < img.height && n <= img.width
    ensures RowMajor(RowPrefix(img, colors, startX, startY, y, n))
    ensures forall i :: 0 <= i < |RowPrefix(img, colors, startX, startY, y, n)| ==>
      RowPrefix(img, colors, startX, startY, y, n)[i].y == startY + y &&
      RowPrefix(img, colors, startX, startY, y, n)[i].x < startX + n
    ensures AllFromSource(img, colors, startX, startY, RowPrefix(img, colors, startX, startY, y, n))
    decreases n
  {
    if n > 0 {
      RowPrefixShape(img, colors, startX, startY, y, n - 1);
      CellShape(img, colors, startX, startY, n - 1, y);
      var a := RowPrefix(img, colors, startX, startY, y, n - 1);
      var b := Cell(img, colors, startX, startY, n - 1, y);
      var r := a + b;
      assert RowPrefix(img, colors, startX, startY, y, n) == r;
      AllFromSourceAppend(img, colors, startX, startY, a, b);
      forall i | 0 <= i < |r|
        ensures r[i].y == startY + y && r[i].x < startX + n
      {
        if i < |a| {
          assert r[i] == a[i];
        } else {
          assert r[i] == b[i - |a|];
        }
      }
      forall i, j | 0 <= i < j < |r|
        ensures r[i].y < r[j].y || (r[i].y == r[j].y && r[i].x < r[j].x)
      {
        if j < |a| {
          assert r[i] == a[i] && r[j] == a[j];
        } else {
          assert r[i] == a[i] && r[j] == b[j - |a|];
        }
      }
    }
  }

  /** Rows above `row` followed by the cells of row `row` stay in row-major order. */
  lemma RowsAppend(a: seq<PixelData>, b: seq<PixelData>, row: int)
    requires RowMajor(a) && RowMajor(b)
    requires forall i :: 0 <= i < |a| ==> a[i].y < row
    requires forall i :: 0 <= i < |b| ==> b[i].y == row
    ensures RowMajor(a + b)
    ensures forall i :: 0 <= i < |a + b| ==> (a + b)[i].y <= row
  {
    var r := a + b;
    forall i | 0 <= i < |r|
      ensures r[i].y <= row
    {
      if i < |a| {
        assert r[i] == a[i];
      } else {
        assert r[i] == b[i - |a|];
      }
    }
    forall i, j | 0 <= i < j < |r|
      ensures r[i].y < r[j].y || (r[i].y == r[j].y && r[i].x < r[j].x)
    {
      if i >= |a| {
        assert r[i] == b[i - |a|] && r[j] == b[j - |a|];
      } else if j >= |a| {
        assert r[i] == a[i] && r[j] == b[j - |a|];
      } else {
        assert r[i] == a[i] && r[j] == a[j];
      }
    }
  }

  lemma {:induction false} RowsUpToShape(img: ImageData, colors: seq<Rgb>, startX: int, startY: int, m: nat)
    requires WellFormed(img) && m <= img.height
    ensures RowMajor(RowsUpTo(img, colors, startX, startY, m))
    ensures forall i :: 0 <= i < |RowsUpTo(img, colors, startX, startY, m)| ==>
      RowsUpTo(img, colors, startX, startY, m)[i].y < startY + m
    ensures AllFromSource(img, colors, startX, startY, RowsUpTo(img, colors, startX, startY, m))
    decreases m
  {
    if m > 0 {
      RowsUpToShape(img, colors, startX, startY, m - 1);
      RowPrefixShape(img, colors, startX, startY, m - 1, img.width);
      var a := RowsUpTo(img, colors, startX, startY, m - 1);
      var b := RowPrefix(img, colors, startX, startY, m - 1, img.width);
      assert RowsUpTo(img, colors, startX, startY, m) == a + b;
      AllFromSourceAppend(img, colors, startX, startY, a, b);
      RowsAppend(a, b, startY + m - 1);
    }
  }

  lemma {:induction false} RowPrefixComplete(img: ImageData, colors: seq<Rgb>, startX: int, startY: int, y: nat, n: nat, x: nat)
    requires WellFormed(img) && y < img.height && x < n <= img.width
    requires img.data[Offset(img, x, y) + 3] >= ALPHA_THRESHOLD
    ensures Cell(img, colors, startX, startY, x, y)[0] in RowPrefix(img, colors, startX, startY, y, n)
    decreases n
  {
    var c := Cell(img, colors, startX, startY, x, y)[0];
    var a: seq<PixelData> := RowPrefix(img, colors, startX, startY, y, n - 1);
    var b: seq<PixelData> := Cell(img, colors, startX, startY, n - 1, y);
    assert RowPrefix(img, colors, startX, startY, y, n) == a + b;
    if x < n - 1 {
      RowPrefixComplete(img, colors, startX, startY, y, n - 1, x);
      assert c in a;
    } else {
      assert b == [c];
    }
  }

  lemma {:induction false} RowsUpToComplete(img: ImageData, colors: seq<Rgb>, startX: int, startY: int, m: nat, x: nat, y: nat)
    requires WellFormed(img) && y < m <= img.height && x < img.width
    requires img.data[Offset(img, x, y) + 3] >= ALPHA_THRESHOLD
    ensures Cell(img, colors, startX, startY, x, y)[0] in RowsUpTo(img, colors, startX, startY, m)
    decreases m
  {
    if y < m - 1 {
      RowsUpToComplete(img, colors, startX, startY, m - 1, x, y);
    } else {
      RowPrefixComplete(img, colors, startX, startY, y, img.width, x);
    }
  }

  /**
   * Before ordering, the pixels are exactly the opaque source pixels, each
   * once, at (startX + x, startY + y), in its nearest palette colour, in
   * row-major order.
   */
  lemma QuantizedMeaning(img: ImageData, colors: seq<Rgb>, startX: int, startY: int)
    requires WellFormed(img)
    ensures RowMajor(Quantized(img, colors, startX, startY))
    ensures AllFromSource(img, colors, startX, startY, Quantized(img, colors, startX, startY))
    ensures forall x: nat, y: nat ::
        (x < img.width && y < img.height && img.data[Offset(img, x, y) + 3] >= ALPHA_THRESHOLD) ==>
        PixelData(startX + x, startY + y,
          NearestIndex(img.data[Offset(img, x, y)], img.data[Offset(img, x, y) + 1],
                       img.data[Offset(img, x, y) + 2], colors)) in Quantized(img, colors, startX, startY)
  {
    RowsUpToShape(img, colors, startX, startY, img.height);
    forall x: nat, y: nat | x < img.width && y < img.height && img.data[Offset(img, x, y) + 3] >= ALPHA_THRESHOLD
      ensures PixelData(startX + x, startY + y,
          NearestIndex(img.data[Offset(img, x, y)], img.data[Offset(img, x, y) + 1],
                       img.data[Offset(img, x, y) + 2], colors)) in Quantized(img, colors, startX, startY)
    {
      RowsUpToComplete(img, colors, startX, startY, img.height, x, y);
    }
  }

  /**
   * processImage with the palette passed in. An empty palette yields an
   * empty image; otherwise the quantised pixels are ordered by `strategy`.
   */
  method ProcessImage(img: ImageData, startX: int, startY: int, strategy: Strategy, colors: seq<Rgb>)
    returns (out: ProcessedImage)
    requires WellFormed(img)
    ensures |colors| == 0 ==> out == ProcessedImage(0, 0, [])
    ensures |colors| > 0 ==>
      out.width == img.width && out.height == img.height &&
      Arranged(strategy, Box(startX, startY, img.width, img.height), Quantized(img, colors, startX, startY), out.pixels)
    ensures |colors| > 0 ==> multiset(out.pixels) == multiset(Quantized(img, colors, startX, startY))
  {
    if |colors| == 0 {
      return ProcessedImage(0, 0, []);
    }
    var pixels: seq<PixelData> := [];
    for y := 0 to img.height
      invariant pixels == RowsUpTo(img, colors, startX, startY, y)
    {
      ghost var above := pixels;
      for x := 0 to img.width
        invariant pixels == above + RowPrefix(img, colors, startX, startY, y, x)
      {
        var idx := Offset(img, x, y);
        var r, g, b, a := img.data[idx], img.data[idx + 1], img.data[idx + 2], img.data[idx + 3];
        if a < ALPHA_THRESHOLD {
          continue;
        }
        var colorIndex := FindClosestColorIndex(r, g, b, colors);
        pixels := pixels + [PixelData(startX + x, startY + y, colorIndex)];
      }
    }
    QuantizedMeaning(img, colors, startX, startY);
    assert DistinctPositions(pixels);
    var sorted := SortPixelsByStrategy(pixels, strategy, Box(startX, startY, img.width, img.height));
    out := ProcessedImage(img.width, img.height, sorted);
  }
}
