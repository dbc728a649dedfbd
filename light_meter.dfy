/**
  CameraLightMeter: the average luma of the centre half of a camera plane, and its
  conversion to pseudo-lux. Camera binding and frame delivery are not part of this model.
 */
module LightMeter {

  const MAX_LUX := 1200.0

  /** Kotlin's Byte: a signed 8-bit value. */
  newtype Byte = b: int | -128 <= b < 128

  /** `toInt() and 0xFF`: the byte read as unsigned. */
  function Unsigned(b: Byte): (u: int)
    ensures 0 <= u < 256
    ensures (u - b as int) % 256 == 0
    ensures 0 <= b ==> u == b as int
  {
    if b < 0 then b as int + 256 else b as int
  }

  /** The index of pixel (x, y) in the plane. */
  function PixelIndex(x: int, y: int, rowStride: int, pixelStride: int): int {
    y * rowStride + x * pixelStride
  }

  /** Indices of the pixels startX <= x < endX of the row at `rowOffset`, in order of x. */
  function RowIndices(rowOffset: int, startX: int, endX: int, pixelStride: int): (r: seq<int>)
    decreases endX - startX
  {
    if endX <= startX then []
    else RowIndices(rowOffset, startX, endX - 1, pixelStride) + [rowOffset + (endX - 1) * pixelStride]
  }

  /** Indices of the window rows startY <= y < endY, row after row. */
  function WindowIndices(startY: int, endY: int, startX: int, endX: int, rowStride: int, pixelStride: int): seq<int>
    decreases endY - startY
  {
    if endY <= startY then []
    else WindowIndices(startY, endY - 1, startX, endX, rowStride, pixelStride)
         + RowIndices((endY - 1) * rowStride, startX, endX, pixelStride)
  }

  /** The centre window: a quarter of the width and of the height trimmed on every side. */
  predicate InCenter(x: int, y: int, width: int, height: int) {
    width / 4 <= x < width - width / 4 && height / 4 <= y < height - height / 4
  }

  function CenterIndices(width: int, height: int, rowStride: int, pixelStride: int): seq<int>
    requires width >= 0 && height >= 0
  {
    WindowIndices(height / 4, height - height / 4, width / 4, width - width / 4, rowStride, pixelStride)
  }

  /** The unsigned values at the indices that fall inside the buffer; the others are skipped. */
  function InBoundsLuma(data: seq<Byte>, indices: seq<int>): (values: seq<int>)
  {
    if indices == [] then []
    else
      var i := indices[|indices| - 1];
      InBoundsLuma(data, indices[..|indices| - 1]) + (if 0 <= i < |data| then [Unsigned(data[i])] else [])
  }

  /** At most one value per index, each in [0, 255]. */
  lemma {:induction false} InBoundsLumaBounds(data: seq<Byte>, indices: seq<int>)
    ensures |InBoundsLuma(data, indices)| <= |indices|
    ensures forall k :: 0 <= k < |InBoundsLuma(data, indices)| ==> 0 <= InBoundsLuma(data, indices)[k] < 256
  {
    if indices != [] {
      InBoundsLumaBounds(data, indices[..|indices| - 1]);
    }
  }

  function Sum(s: seq<int>): int {
    if s == [] then 0 else Sum(s[..|s| - 1]) + s[|s| - 1]
  }

  /** sum / count, and 0 when nothing was counted. */
  function Average(s: seq<int>): real {
    if |s| == 0 then 0.0 else Sum(s) as real / |s| as real
  }

  lemma {:induction false} SumBounds(s: seq<int>)
    requires forall k :: 0 <= k < |s| ==> 0 <= s[k] < 256
    ensures 0 <= Sum(s) <= 255 * |s|
  {
    if s != [] {
      SumBounds(s[..|s| - 1]);
    }
  }

  /** An average of bytes read as unsigned lies in [0, 255]. */
  lemma AverageOfLumaBounds(s: seq<int>)
    requires forall k :: 0 <= k < |s| ==> 0 <= s[k] < 256
    ensures 0.0 <= Average(s) <= 255.0
  {
    SumBounds(s);
    if |s| > 0 {
      var n := |s| as real;
      var t := Sum(s) as real;
      assert t <= 255.0 * n;
      assert t / n * n == t;
    }
  }

  lemma {:induction false} RowIndicesLength(rowOffset: int, startX: int, endX: int, pixelStride: int)
    requires startX <= endX
    ensures |RowIndices(rowOffset, startX, endX, pixelStride)| == endX - startX
    decreases endX - startX
  {
    if endX > startX {
      RowIndicesLength(rowOffset, startX, endX - 1, pixelStride);
    }
  }

  /** Exactly the pixels of the window are visited, once each: (endY - startY) * (endX - startX) of them. */
  lemma {:induction false} WindowIndicesLength(startY: int, endY: int, startX: int, endX: int,
                                               rowStride: int, pixelStride: int)
    requires startY <= endY && startX <= endX
    ensures |WindowIndices(startY, endY, startX, endX, rowStride, pixelStride)| == (endY - startY) * (endX - startX)
    decreases endY - startY
  {
    if endY > startY {
      WindowIndicesLength(startY, endY - 1, startX, endX, rowStride, pixelStride);
      RowIndicesLength((endY - 1) * rowStride, startX, endX, pixelStride);
      assert (endY - startY) * (endX - startX) == (endY - 1 - startY) * (endX - startX) + (endX - startX);
    }
  }

  lemma {:induction false} RowIndicesAre(rowOffset: int, startX: int, endX: int, pixelStride: int, i: int)
    ensures i in RowIndices(rowOffset, startX, endX, pixelStride)
        <==> exists x :: startX <= x < endX && i == rowOffset + x * pixelStride
    decreases endX - startX
  {
    if endX > startX {
      RowIndicesAre(rowOffset, startX, endX - 1, pixelStride, i);
      if i == rowOffset + (endX - 1) * pixelStride {
        assert i in RowIndices(rowOffset, startX, endX, pixelStride);
      }
    }
  }

  /** An index is visited if and only if it is the index of a pixel of the window. */
  lemma {:induction false} WindowIndicesAre(startY: int, endY: int, startX: int, endX: int,
                                            rowStride: int, pixelStride: int, i: int)
    ensures i in WindowIndices(startY, endY, startX, endX, rowStride, pixelStride)
        <==> exists x, y :: startY <= y < endY && startX <= x < endX && i == PixelIndex(x, y, rowStride, pixelStride)
    decreases endY - startY
  {
    if endY > startY {
      WindowIndicesAre(startY, endY - 1, startX, endX, rowStride, pixelStride, i);
      RowIndicesAre((endY - 1) * rowStride, startX, endX, pixelStride, i);
      if i in RowIndices((endY - 1) * rowStride, startX, endX, pixelStride) {
        var x :| startX <= x < endX && i == (endY - 1) * rowStride + x * pixelStride;
        assert i == PixelIndex(x, endY - 1, rowStride, pixelStride);
      }
      if exists x, y :: startY <= y < endY && startX <= x < endX && i == PixelIndex(x, y, rowStride, pixelStride) {
        var x, y :| startY <= y < endY && startX <= x < endX && i == PixelIndex(x, y, rowStride, pixelStride);
        if y == endY - 1 {
          assert i in RowIndices((endY - 1) * rowStride, startX, endX, pixelStride);
        }
      }
    }
  }

  /** Only the centre half of the frame is sampled, and all of it. */
  lemma CenterIndicesAreCenterPixels(width: int, height: int, rowStride: int, pixelStride: int, i: int)
    requires width >= 0 && height >= 0
    ensures i in CenterIndices(width, height, rowStride, pixelStride)
        <==> exists x, y :: InCenter(x, y, width, height) && i == PixelIndex(x, y, rowStride, pixelStride)
  {
    WindowIndicesAre(height / 4, height - height / 4, width / 4, width - width / 4, rowStride, pixelStride, i);
  }

  /** Appending an in-bounds index appends its unsigned value to the samples. */
  lemma InBoundsLumaSnocIn(data: seq<Byte>, indices: seq<int>, i: int)
    requires 0 <= i < |data|
    ensures InBoundsLuma(data, indices + [i]) == InBoundsLuma(data, indices) + [Unsigned(data[i])]
  {
    assert (indices + [i])[..|indices|] == indices;
  }

  /** Appending an out-of-bounds index leaves the samples as they are. */
  lemma InBoundsLumaSnocOut(data: seq<Byte>, indices: seq<int>, i: int)
    requires !(0 <= i < |data|)
    ensures InBoundsLuma(data, indices + [i]) == InBoundsLuma(data, indices)
  {
    assert (indices + [i])[..|indices|] == indices;
  }

  lemma RowIndicesSnoc(rowOffset: int, startX: int, x: int, pixelStride: int)
    requires startX <= x
    ensures RowIndices(rowOffset, startX, x + 1, pixelStride)
         == RowIndices(rowOffset, startX, x, pixelStride) + [rowOffset + x * pixelStride]
  {
  }

  lemma AppendAssoc(a: seq<int>, b: seq<int>, c: seq<int>)
    ensures a + (b + c) == (a + b) + c
  {
  }

  lemma SumSnoc(s: seq<int>, v: int)
    ensures Sum(s + [v]) == Sum(s) + v
  {
    assert (s + [v])[..|s|] == s;
  }

  lemma ProductNonNegative(a: int, b: int)
    requires 0 <= a && 0 <= b
    ensures 0 <= a * b
  {
  }

  /**
    averageCenterLuma over the copied plane `data`: the mean unsigned value of the centre
    pixels whose index y * rowStride + x * pixelStride lies inside the buffer.
   */
  method AverageCenterLuma(data: array<Byte>, width: int, height: int, rowStride: int, pixelStride: int)
    returns (avg: real)
    requires width >= 0 && height >= 0 && rowStride >= 0 && pixelStride >= 0
    ensures avg == Average(InBoundsLuma(data[..], CenterIndices(width, height, rowStride, pixelStride)))
    ensures 0.0 <= avg <= 255.0
  {
    var startX := width / 4;
    var endX := width - startX;
    var startY := height / 4;
    var endY := height - startY;
    var sum := 0;
    var count := 0;
    var y := startY;
    while y < endY
      invariant startY <= y <= endY
      invariant sum == Sum(InBoundsLuma(data[..], WindowIndices(startY, y, startX, endX, rowStride, pixelStride)))
      invariant count == |InBoundsLuma(data[..], WindowIndices(startY, y, startX, endX, rowStride, pixelStride))|
    {
      ProductNonNegative(y, rowStride);
      sum, count := SumRow(data, y * rowStride, startX, endX, pixelStride, sum, count,
                           WindowIndices(startY, y, startX, endX, rowStride, pixelStride));
      y := y + 1;
    }
    avg := if count > 0 then sum as real / count as real else 0.0;
    InBoundsLumaBounds(data[..], CenterIndices(width, height, rowStride, pixelStride));
    AverageOfLumaBounds(InBoundsLuma(data[..], CenterIndices(width, height, rowStride, pixelStride)));
  }

  /**
    The inner loop of averageCenterLuma over one row: adds the in-bounds samples of
    x in [startX, endX) to the running sum and count of the rows `done` before it.
   */
  method SumRow(data: array<Byte>, rowOffset: int, startX: int, endX: int, pixelStride: int,
                sum0: int, count0: int, ghost done: seq<int>) returns (sum: int, count: int)
    requires 0 <= rowOffset && 0 <= startX <= endX && 0 <= pixelStride
    requires sum0 == Sum(InBoundsLuma(data[..], done)) && count0 == |InBoundsLuma(data[..], done)|
    ensures sum == Sum(InBoundsLuma(data[..], done + RowIndices(rowOffset, startX, endX, pixelStride)))
    ensures count == |InBoundsLuma(data[..], done + RowIndices(rowOffset, startX, endX, pixelStride))|
  {
    ghost var bytes := data[..];
    var total := data.Length;
    sum, count := sum0, count0;
    var x := startX;
    ghost var visited := done;
    assert done + RowIndices(rowOffset, startX, x, pixelStride) == done;
    while x < endX
      invariant startX <= x <= endX
      invariant visited == done + RowIndices(rowOffset, startX, x, pixelStride)
      invariant sum == Sum(InBoundsLuma(bytes, visited))
      invariant count == |InBoundsLuma(bytes, visited)|
    {
      ProductNonNegative(x, pixelStride);
      var index := rowOffset + x * pixelStride;
      if index < total {
        InBoundsLumaSnocIn(bytes, visited, index);
        SumSnoc(InBoundsLuma(bytes, visited), Unsigned(data[index]));
        sum := sum + Unsigned(data[index]);
        count := count + 1;
      } else {
        InBoundsLumaSnocOut(bytes, visited, index);
      }
      RowIndicesSnoc(rowOffset, startX, x, pixelStride);
      AppendAssoc(done, RowIndices(rowOffset, startX, x, pixelStride), [index]);
      visited := visited + [index];
      x := x + 1;
    }
  }

  /** luminanceToLux: the normalised luma clamped to [0, 1] and scaled to [0, MAX_LUX]. */
  function LuminanceToLux(normalized: real): (lux: real)
    ensures 0.0 <= lux <= MAX_LUX
    ensures 0.0 <= normalized <= 1.0 ==> lux == normalized * MAX_LUX
    ensures normalized <= 0.0 ==> lux == 0.0
    ensures normalized >= 1.0 ==> lux == MAX_LUX
  {
    var safe := if normalized < 0.0 then 0.0 else if normalized > 1.0 then 1.0 else normalized;
    safe * MAX_LUX
  }

  lemma LuminanceToLuxMonotone(a: real, b: real)
    requires a <= b
    ensures LuminanceToLux(a) <= LuminanceToLux(b)
  {
  }

  /** One analysed frame: its centre luma over 255, turned into pseudo-lux. */
  method FrameLux(data: array<Byte>, width: int, height: int, rowStride: int, pixelStride: int)
    returns (lux: real)
    requires width >= 0 && height >= 0 && rowStride >= 0 && pixelStride >= 0
    ensures lux == Average(InBoundsLuma(data[..], CenterIndices(width, height, rowStride, pixelStride))) / 255.0 * MAX_LUX
    ensures 0.0 <= lux <= MAX_LUX
  {
    var avg := AverageCenterLuma(data, width, height, rowStride, pixelStride);
    var normalized := avg / 255.0;
    lux := LuminanceToLux(normalized);
  }
}
