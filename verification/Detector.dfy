/**
 The frame-difference detector (app/daemon/motion_detector.c).

 The class updates its baseline buffer in place, row by row, while it is still
 counting; `DetectorStep` says what that amounts to on whole frames, and
 `HistoryRefinement` says it again on whole runs without mentioning the buffer.
 `sizeMax` is the target's SIZE_MAX.
 */
module Detector {
  import opened CTypes
  import opened Doubles

  datatype MotionStatus = MotionOk | MotionInvalidArgument | MotionNoMemory | MotionSizeOverflow

  datatype Thresholds = Thresholds(pixelDelta: nat, changedRatio: real)

  datatype MotionResult = MotionResult(totalPixels: nat, changedPixels: nat, changedRatio: real,
                                       motionDetected: bool, baselineCreated: bool)

  const NO_RESULT := MotionResult(0, 0, 0.0, false, false)

  /** A frame without row padding. */
  datatype Gray = Gray(width: nat, height: nat, pixels: seq<Byte>)

  // ------------------------------------------------------------ frame layout

  /** The guard, with the C code's divisions; its contract says what they decide. */
  function ValidateFrameLayout(sizeMax: nat, width: nat, height: nat, stride: nat): (status: MotionStatus)
    requires width <= sizeMax
    ensures status in {MotionOk, MotionInvalidArgument, MotionSizeOverflow}
    ensures status == MotionInvalidArgument <==> width == 0 || height == 0 || stride < width
    ensures status == MotionSizeOverflow <==>
            0 < width && 0 < height && width <= stride &&
            ((height - 1) * stride + width > sizeMax || width * height > sizeMax)
  {
    if width == 0 || height == 0 || stride < width then MotionInvalidArgument
    else
      DivisionGuard(width, height, sizeMax);
      if width > sizeMax / height then MotionSizeOverflow
      else
        var rowsBeforeLast := height - 1;
        if rowsBeforeLast != 0 && (DivisionGuard(stride, rowsBeforeLast, sizeMax - width);
                                   stride > (sizeMax - width) / rowsBeforeLast)
        then MotionSizeOverflow
        else MotionOk
  }

  lemma DivisionGuard(a: nat, b: nat, bound: nat)
    requires b > 0
    ensures a > bound / b <==> a * b > bound
  {
    var q, r := bound / b, bound % b;
    assert bound == q * b + r;
    if a > q {
      assert a * b >= (q + 1) * b by { MulMonotone(q + 1, a, b); }
      assert (q + 1) * b == q * b + b;
    } else {
      MulMonotone(a, q, b);
    }
  }

  lemma MulMonotone(a: nat, b: nat, c: nat)
    requires a <= b
    ensures a * c <= b * c
  {
  }

  lemma RowFits(row: nat, height: nat, pitch: nat)
    requires row < height
    ensures row * pitch + pitch <= height * pitch
    ensures row * pitch + pitch == (row + 1) * pitch
    ensures row * pitch <= (height - 1) * pitch
  {
    assert (row + 1) * pitch == row * pitch + pitch;
    MulMonotone(row + 1, height, pitch);
    MulMonotone(row, height - 1, pitch);
  }

  /** An accepted layout makes every index of both loops representable and in bounds. */
  lemma AcceptedIndicesFit(sizeMax: nat, width: nat, height: nat, stride: nat, row: nat, column: nat)
    requires width <= sizeMax && ValidateFrameLayout(sizeMax, width, height, stride) == MotionOk
    requires row < height && column < width
    ensures row * stride + column < (height - 1) * stride + width <= sizeMax
    ensures row * width + column < width * height <= sizeMax
  {
    RowFits(row, height, stride);
    RowFits(row, height, width);
    assert width * height == height * width;
  }

  // --------------------------------------------------------- frames as values

  /** The first `rows` rows of a strided image, without their padding. */
  function Compact(pixels: seq<Byte>, width: nat, stride: nat, rows: nat): (packed: seq<Byte>)
    requires width <= stride
    requires rows > 0 ==> (rows - 1) * stride + width <= |pixels|
    ensures |packed| == rows * width
  {
    if rows == 0 then []
    else
      RowFits(rows - 1, rows, stride);
      assert rows > 1 ==> (rows - 2) * stride + width <= |pixels| by {
        if rows > 1 { RowFits(rows - 2, rows - 1, stride); }
      }
      assert rows * width == (rows - 1) * width + width;
      var start := (rows - 1) * stride;
      Compact(pixels, width, stride, rows - 1) + pixels[start..start + width]
  }

  lemma CompactStep(pixels: seq<Byte>, width: nat, stride: nat, rows: nat, row: nat)
    requires width <= stride && row < rows
    requires (rows - 1) * stride + width <= |pixels|
    ensures row > 0 ==> (row - 1) * stride + width <= |pixels|
    ensures 0 <= row * stride <= row * stride + width <= |pixels|
    ensures row * width + width == (row + 1) * width <= rows * width
    ensures Compact(pixels, width, stride, row + 1)
         == Compact(pixels, width, stride, row) + pixels[row * stride..row * stride + width]
  {
    RowFits(row, rows, width);
    RowFits(row, rows, stride);
    if row > 0 { RowFits(row - 1, row, stride); }
  }

  /** Overwriting a stretch of a buffer leaves what is before and after it. */
  lemma Overwritten(before: seq<Byte>, after: seq<Byte>, at: nat, row: seq<Byte>)
    requires at + |row| <= |before|
    requires after == before[..at] + row + before[at + |row|..]
    ensures |after| == |before|
    ensures after[..at + |row|] == before[..at] + row
    ensures after[at + |row|..] == before[at + |row|..]
  {
  }

  lemma SameStretch(a: seq<Byte>, b: seq<Byte>, at: nat, count: nat)
    requires |a| == |b| && at + count <= |a| && a[at..] == b[at..]
    ensures a[at..at + count] == b[at..at + count]
    ensures a[at + count..] == b[at + count..]
    ensures b[..at] + b[at..at + count] == b[..at + count]
  {
    assert a[at..][..count] == a[at..at + count];
    assert b[at..][..count] == b[at..at + count];
    assert a[at..][count..] == a[at + count..];
    assert b[at..][count..] == b[at + count..];
  }

  /** The first `row` rows of an image are in the buffer. */
  ghost predicate Copied(now: seq<Byte>, source: seq<Byte>, width: nat, stride: nat, row: nat) {
    && width <= stride && (row > 0 ==> (row - 1) * stride + width <= |source|)
    && row * width <= |now| && now[..row * width] == Compact(source, width, stride, row)
  }

  lemma CopiedRow(before: seq<Byte>, after: seq<Byte>, source: seq<Byte>, width: nat, stride: nat, rows: nat, row: nat)
    requires Copied(before, source, width, stride, row)
    requires row < rows && (rows - 1) * stride + width <= |source|
    requires row * stride + width <= |source| && row * width + width <= |before|
    requires after == before[..row * width] + source[row * stride..row * stride + width] + before[row * width + width..]
    ensures Copied(after, source, width, stride, row + 1)
  {
    CompactStep(source, width, stride, rows, row);
    Overwritten(before, after, row * width, source[row * stride..row * stride + width]);
  }

  /** Where the scan stands after `row` rows: what is overwritten, what is not, what is counted. */
  ghost predicate Scanned(was: seq<Byte>, now: seq<Byte>, source: seq<Byte>, width: nat, stride: nat, row: nat,
                          delta: nat, changed: nat)
  {
    && width <= stride && (row > 0 ==> (row - 1) * stride + width <= |source|)
    && row * width <= |was| == |now|
    && now[..row * width] == Compact(source, width, stride, row)
    && now[row * width..] == was[row * width..]
    && changed == ChangedCount(was[..row * width], Compact(source, width, stride, row), delta)
  }

  lemma RowInside(row: nat, rows: nat, width: nat, stride: nat, length: nat)
    requires row < rows && (rows - 1) * stride + width <= length
    ensures 0 <= row * stride <= row * stride + width <= length
    ensures row * width + width <= rows * width
  {
    RowFits(row, rows, width);
    RowFits(row, rows, stride);
  }

  /** Scanning one row extends the new frame, the untouched rest and the count. */
  lemma ScannedRow(was: seq<Byte>, before: seq<Byte>, after: seq<Byte>, source: seq<Byte>, width: nat, stride: nat,
                   rows: nat, row: nat, delta: nat, changed: nat)
    requires Scanned(was, before, source, width, stride, row, delta, changed)
    requires row < rows && (rows - 1) * stride + width <= |source| && rows * width <= |was|
    requires row * stride + width <= |source| && row * width + width <= |was|
    requires after == before[..row * width] + source[row * stride..row * stride + width] + before[row * width + width..]
    ensures var inRow := ChangedCount(before[row * width..row * width + width],
                                      source[row * stride..row * stride + width], delta);
            Scanned(was, after, source, width, stride, row + 1, delta, changed + inRow)
  {
    CompactStep(source, width, stride, rows, row);
    var at, line := row * width, source[row * stride..row * stride + width];
    Overwritten(before, after, at, line);
    SameStretch(before, was, at, width);
    CountConcat(was[..at], Compact(source, width, stride, row), was[at..at + width], line, delta);
  }

  /** Compaction keeps each pixel at its row and column. */
  lemma {:induction false} CompactAt(pixels: seq<Byte>, width: nat, stride: nat, rows: nat, row: nat, column: nat)
    requires width <= stride && row < rows && column < width
    requires (rows - 1) * stride + width <= |pixels|
    ensures 0 <= row * width + column < rows * width
    ensures 0 <= row * stride + column < |pixels|
    ensures Compact(pixels, width, stride, rows)[row * width + column] == pixels[row * stride + column]
  {
    RowFits(row, rows, width);
    RowFits(row, rows, stride);
    CompactStep(pixels, width, stride, rows, rows - 1);
    var front, start := Compact(pixels, width, stride, rows - 1), (rows - 1) * stride;
    assert Compact(pixels, width, stride, rows) == front + pixels[start..start + width];
    if row < rows - 1 {
      RowFits(row, rows - 1, width);
      CompactAt(pixels, width, stride, rows - 1, row, column);
    }
  }

  /** A frame without padding is its own compaction. */
  lemma {:induction false} CompactIdentity(pixels: seq<Byte>, width: nat, rows: nat)
    requires rows * width <= |pixels|
    requires rows > 0 ==> (rows - 1) * width + width <= |pixels|
    ensures Compact(pixels, width, width, rows) == pixels[..rows * width]
  {
    if rows > 0 {
      RowFits(rows - 1, rows, width);
      if rows > 1 { RowFits(rows - 2, rows - 1, width); }
      CompactIdentity(pixels, width, rows - 1);
      var start := (rows - 1) * width;
      assert pixels[..start] + pixels[start..start + width] == pixels[..start + width];
    }
  }

  function AbsDiff(a: Byte, b: Byte): nat {
    if a >= b then a - b else b - a
  }

  function ChangedCount(previous: seq<Byte>, current: seq<Byte>, delta: nat): (n: nat)
    requires |previous| == |current|
    ensures n <= |previous|
  {
    if previous == [] then 0
    else
      var last := |previous| - 1;
      ChangedCount(previous[..last], current[..last], delta)
      + (if AbsDiff(previous[last], current[last]) >= delta then 1 else 0)
  }

  /** The count is the size of the set of changed positions. */
  lemma {:induction false} CountIsCardinality(previous: seq<Byte>, current: seq<Byte>, delta: nat)
    requires |previous| == |current|
    ensures ChangedCount(previous, current, delta)
         == |set i | 0 <= i < |previous| && AbsDiff(previous[i], current[i]) >= delta|
  {
    if previous != [] {
      var last := |previous| - 1;
      CountIsCardinality(previous[..last], current[..last], delta);
      ChangedSetSnoc(previous, current, delta);
    }
  }

  lemma ChangedSetSnoc(previous: seq<Byte>, current: seq<Byte>, delta: nat)
    requires |previous| == |current| > 0
    ensures var last := |previous| - 1;
            var before := set i | 0 <= i < last && AbsDiff(previous[..last][i], current[..last][i]) >= delta;
            (set i | 0 <= i < |previous| && AbsDiff(previous[i], current[i]) >= delta)
            == if AbsDiff(previous[last], current[last]) >= delta then before + {last} else before
  {
  }

  lemma {:induction false} CountConcat(p: seq<Byte>, c: seq<Byte>, p': seq<Byte>, c': seq<Byte>, delta: nat)
    requires |p| == |c| && |p'| == |c'|
    ensures ChangedCount(p + p', c + c', delta) == ChangedCount(p, c, delta) + ChangedCount(p', c', delta)
    decreases |p'|
  {
    if p' == [] {
      assert p + p' == p && c + c' == c;
    } else {
      var last := |p'| - 1;
      CountConcat(p, c, p'[..last], c'[..last], delta);
      assert (p + p')[..|p + p'| - 1] == p + p'[..last];
      assert (c + c')[..|c + c'| - 1] == c + c'[..last];
    }
  }

  predicate ThresholdsValid(t: Thresholds) {
    1 <= t.pixelDelta <= 255 && 0.0 < t.changedRatio <= 1.0
  }

  /** Comparing two frames of one size. */
  function Compared(previous: seq<Byte>, current: seq<Byte>, t: Thresholds): MotionResult
    requires |previous| == |current| > 0
  {
    var changed := ChangedCount(previous, current, t.pixelDelta);
    var ratio := Quotient(changed, |current|);
    MotionResult(|current|, changed, ratio, ratio >= t.changedRatio, false)
  }

  // ---------------------------------------------------------------- one call

  datatype DetectorState = DetectorState(baseline: Option<Gray>, capacity: nat)

  const ZERO_DETECTOR := DetectorState(None, 0)

  datatype DetectorOutcome = DetectorOutcome(status: MotionStatus, state: DetectorState, result: MotionResult)

  /** What the caller passes, and whether realloc would succeed. */
  datatype Call = Call(pixels: seq<Byte>, width: nat, height: nat, stride: nat, thresholds: Thresholds, memory: bool)

  predicate CallerObligations(sizeMax: nat, c: Call) {
    && c.width <= sizeMax
    && (0 < c.width <= c.stride && c.height > 0 ==> (c.height - 1) * c.stride + c.width <= |c.pixels|)
  }

  function Frame(c: Call): Gray
    requires 0 < c.width <= c.stride && c.height > 0 && (c.height - 1) * c.stride + c.width <= |c.pixels|
  {
    Gray(c.width, c.height, Compact(c.pixels, c.width, c.stride, c.height))
  }

  function DetectorStep(sizeMax: nat, d: DetectorState, c: Call): DetectorOutcome
    requires CallerObligations(sizeMax, c)
    requires d.baseline.Some? ==> |d.baseline.value.pixels| == d.baseline.value.width * d.baseline.value.height
  {
    if !ThresholdsValid(c.thresholds) then DetectorOutcome(MotionInvalidArgument, d, NO_RESULT)
    else
      var layout := ValidateFrameLayout(sizeMax, c.width, c.height, c.stride);
      if layout != MotionOk then DetectorOutcome(layout, d, NO_RESULT)
      else if d.capacity < c.width * c.height && !c.memory then DetectorOutcome(MotionNoMemory, d, NO_RESULT)
      else
        var frame := Frame(c);
        var capacity := if d.capacity < c.width * c.height then c.width * c.height else d.capacity;
        var next := DetectorState(Some(frame), capacity);
        var total := c.width * c.height;
        if d.baseline.None? || d.baseline.value.width != c.width || d.baseline.value.height != c.height then
          DetectorOutcome(MotionOk, next, MotionResult(total, 0, 0.0, false, true))
        else
          assert |frame.pixels| == |d.baseline.value.pixels| == total > 0 by {
            RowFits(0, c.height, c.width);
            assert c.height * c.width == total;
          }
          DetectorOutcome(MotionOk, next, Compared(d.baseline.value.pixels, frame.pixels, c.thresholds))
  }

  /** memcpy between two buffers. */
  method CopyBytes(target: array<Byte>, at: nat, source: array<Byte>, start: nat, count: nat)
    requires target != source
    requires at + count <= target.Length && start + count <= source.Length
    modifies target
    ensures target[..] == old(target[..at]) + source[start..start + count] + old(target[at + count..])
  {
    ghost var was := target[..];
    for i := 0 to count
      invariant target[..] == was[..at] + source[start..start + i] + was[at + i..]
    {
      target[at + i] := source[start + i];
    }
  }

  class MotionDetector {
    const sizeMax: nat
    var previousPixels: array<Byte>
    var width: nat
    var height: nat
    var stride: nat
    var baselineReady: bool

    ghost predicate Valid()
      reads this
    {
      baselineReady ==> 0 < width && 0 < height && stride == width && width * height <= previousPixels.Length
    }

    /** The first width*height bytes of the buffer, once there is a baseline. */
    ghost function View(): (d: DetectorState)
      requires Valid()
      reads this, previousPixels
      ensures d.baseline.Some? ==> |d.baseline.value.pixels| == d.baseline.value.width * d.baseline.value.height
    {
      DetectorState(
        if baselineReady then Some(Gray(width, height, previousPixels[..width * height])) else None,
        previousPixels.Length)
    }

    constructor (sizeMax: nat)
      ensures Valid() && View() == ZERO_DETECTOR && this.sizeMax == sizeMax
      ensures fresh(previousPixels)
    {
      this.sizeMax := sizeMax;
      previousPixels := new Byte[0];
      width, height, stride, baselineReady := 0, 0, 0, false;
    }

    method EnsureCapacity(pixelCount: nat, memory: bool) returns (status: MotionStatus)
      requires Valid()
      modifies this`previousPixels
      ensures Valid() && View().baseline == old(View().baseline)
      ensures status == if old(previousPixels.Length) < pixelCount && !memory then MotionNoMemory else MotionOk
      ensures previousPixels.Length == if old(previousPixels.Length) < pixelCount && memory
                                       then pixelCount else old(previousPixels.Length)
      ensures previousPixels == old(previousPixels) || fresh(previousPixels)
    {
      if previousPixels.Length >= pixelCount {
        return MotionOk;
      }
      if !memory {
        return MotionNoMemory;
      }
      var resized := new Byte[pixelCount];
      forall i | 0 <= i < previousPixels.Length {
        resized[i] := previousPixels[i];
      }
      ghost var n := width * height;
      assert baselineReady ==> resized[..n] == old(previousPixels[..n]);
      previousPixels := resized;
      assert baselineReady ==> previousPixels[..width * height] == old(previousPixels[..width * height]);
      return MotionOk;
    }

    method CopyFrameToBaseline(pixels: array<Byte>, width: nat, height: nat, stride: nat)
      requires pixels != previousPixels
      requires 0 < width <= stride && 0 < height && width * height <= previousPixels.Length
      requires (height - 1) * stride + width <= pixels.Length
      modifies this`width, this`height, this`stride, this`baselineReady, previousPixels
      ensures Valid()
      ensures View() == DetectorState(Some(Gray(width, height, Compact(pixels[..], width, stride, height))),
                                      old(previousPixels.Length))
    {
      ghost var source := pixels[..];
      assert height * width == width * height;
      for row := 0 to height
        invariant pixels[..] == source
        invariant Copied(previousPixels[..], source, width, stride, row)
      {
        RowInside(row, height, width, stride, |source|);
        ghost var before := previousPixels[..];
        CopyBytes(previousPixels, row * width, pixels, row * stride, width);
        CopiedRow(before, previousPixels[..], source, width, stride, height, row);
      }
      this.width, this.height, this.stride, baselineReady := width, height, width, true;
    }

    /** One row of the scan: count the differences, then overwrite the row. */
    method ScanRow(pixels: array<Byte>, source: nat, target: nat, count: nat, delta: nat) returns (changed: nat)
      requires pixels != previousPixels
      requires source + count <= pixels.Length && target + count <= previousPixels.Length
      modifies previousPixels
      ensures changed
           == ChangedCount(old(previousPixels[target..target + count]), pixels[source..source + count], delta)
      ensures previousPixels[..] == old(previousPixels[..target]) + pixels[source..source + count]
                                    + old(previousPixels[target + count..])
    {
      changed := 0;
      for column := 0 to count
        invariant changed
               == ChangedCount(previousPixels[target..target + column], pixels[source..source + column], delta)
        invariant previousPixels[..] == old(previousPixels[..])
      {
        var current, previous := pixels[source + column], previousPixels[target + column];
        var difference := if current >= previous then current - previous else previous - current;
        assert previousPixels[target..target + column + 1][..column] == previousPixels[target..target + column];
        assert pixels[source..source + column + 1][..column] == pixels[source..source + column];
        if difference >= delta {
          changed := changed + 1;
        }
      }
      CopyBytes(previousPixels, target, pixels, source, count);
    }

    /** ScanRow on row `row` of the image, in terms of the whole scan. */
    method ScanRowOf(pixels: array<Byte>, row: nat, rows: nat, w: nat, stride: nat, delta: nat, ghost was: seq<Byte>,
                     ghost counted: nat)
      returns (changed: nat)
      requires pixels != previousPixels && row < rows
      requires (rows - 1) * stride + w <= pixels.Length && rows * w <= |was|
      requires Scanned(was, previousPixels[..], pixels[..], w, stride, row, delta, counted)
      modifies previousPixels
      ensures Scanned(was, previousPixels[..], pixels[..], w, stride, row + 1, delta, counted + changed)
    {
      RowInside(row, rows, w, stride, pixels.Length);
      ghost var before, source := previousPixels[..], pixels[..];
      changed := ScanRow(pixels, row * stride, row * w, w, delta);
      assert pixels[..] == source;
      ScannedRow(was, before, previousPixels[..], source, w, stride, rows, row, delta, counted);
    }

    /** The scan: count the differences row by row while overwriting the baseline. */
    method Scan(pixels: array<Byte>, stride: nat, delta: nat) returns (changed: nat)
      requires Valid() && baselineReady && pixels != previousPixels
      requires width <= stride && (height - 1) * stride + width <= pixels.Length
      modifies previousPixels
      ensures previousPixels[..height * width] == Compact(pixels[..], width, stride, height)
      ensures changed
           == ChangedCount(old(previousPixels[..height * width]), Compact(pixels[..], width, stride, height), delta)
    {
      assert height * width == width * height;
      ghost var was, source := previousPixels[..], pixels[..];
      changed := 0;
      assert was[0..] == was;
      for row := 0 to height
        invariant pixels[..] == source
        invariant Scanned(was, previousPixels[..], source, width, stride, row, delta, changed)
      {
        var inRow := ScanRowOf(pixels, row, height, width, stride, delta, was, changed);
        changed := changed + inRow;
      }
    }

    method Process(pixels: array<Byte>, width: nat, height: nat, stride: nat, thresholds: Thresholds, memory: bool)
      returns (status: MotionStatus, result: MotionResult)
      requires Valid() && pixels != previousPixels
      requires CallerObligations(sizeMax, Call(pixels[..], width, height, stride, thresholds, memory))
      modifies this, previousPixels
      ensures Valid() && (previousPixels == old(previousPixels) || fresh(previousPixels))
      ensures DetectorOutcome(status, View(), result)
           == DetectorStep(sizeMax, old(View()), Call(old(pixels[..]), width, height, stride, thresholds, memory))
    {
      result := NO_RESULT;
      if !ThresholdsValid(thresholds) {
        return MotionInvalidArgument, result;
      }
      status := ValidateFrameLayout(sizeMax, width, height, stride);
      if status != MotionOk {
        return status, result;
      }
      var pixelCount := width * height;
      assert pixelCount == height * width > 0 by { RowFits(0, height, width); }
      status := EnsureCapacity(pixelCount, memory);
      if status != MotionOk {
        return status, result;
      }
      if !baselineReady || this.width != width || this.height != height {
        CopyFrameToBaseline(pixels, width, height, stride);
        return MotionOk, MotionResult(pixelCount, 0, 0.0, false, true);
      }

      var changed := Scan(pixels, stride, thresholds.pixelDelta);
      var ratio := Quotient(changed, pixelCount);
      result := MotionResult(pixelCount, changed, ratio, ratio >= thresholds.changedRatio, false);
      return MotionOk, result;
    }

    /** Keep the buffer, forget the baseline. */
    method Reset()
      requires Valid()
      modifies this`width, this`height, this`stride, this`baselineReady
      ensures Valid() && View() == old(View()).(baseline := None)
    {
      width, height, stride, baselineReady := 0, 0, 0, false;
    }
  }

  // -------------------------------------------------------------- whole runs

  datatype Op = ResetOp | ProcessOp(call: Call)

  predicate RunObligations(sizeMax: nat, ops: seq<Op>) {
    forall i :: 0 <= i < |ops| && ops[i].ProcessOp? ==> CallerObligations(sizeMax, ops[i].call)
  }

  /** The detector's state after a run of calls. */
  function DetectorAfter(sizeMax: nat, ops: seq<Op>): (d: DetectorState)
    requires RunObligations(sizeMax, ops)
    ensures d.baseline.Some? ==> |d.baseline.value.pixels| == d.baseline.value.width * d.baseline.value.height
  {
    if ops == [] then ZERO_DETECTOR
    else
      var last := |ops| - 1;
      var d := DetectorAfter(sizeMax, ops[..last]);
      match ops[last]
      case ResetOp => d.(baseline := None)
      case ProcessOp(c) =>
        assert c.width * c.height == c.height * c.width;
        DetectorStep(sizeMax, d, c).state
  }

  /** Well formed in itself: every check that does not depend on memory. */
  predicate WellFormed(sizeMax: nat, c: Call) {
    && ThresholdsValid(c.thresholds)
    && 0 < c.width <= c.stride && 0 < c.height
    && (c.height - 1) * c.stride + c.width <= sizeMax && c.width * c.height <= sizeMax
  }

  function PixelCount(c: Call): nat {
    c.width * c.height
  }

  /** Call i is taken: it is well formed, and memory is available or an earlier frame taken was as large. */
  ghost predicate Accepted(sizeMax: nat, ops: seq<Op>, i: nat)
    requires i < |ops|
    decreases i
  {
    && ops[i].ProcessOp? && WellFormed(sizeMax, ops[i].call)
    && (ops[i].call.memory
        || exists j: nat :: j < i && Accepted(sizeMax, ops, j) && PixelCount(ops[j].call) >= PixelCount(ops[i].call))
  }

  /** Call k is the last one taken, and no reset came after it. */
  ghost predicate LatestAccepted(sizeMax: nat, ops: seq<Op>, k: nat) {
    && k < |ops| && Accepted(sizeMax, ops, k)
    && forall m :: k < m < |ops| ==> !Accepted(sizeMax, ops, m) && !ops[m].ResetOp?
  }

  lemma {:induction false} AcceptedPrefix(sizeMax: nat, ops: seq<Op>, n: nat, i: nat)
    requires i < n <= |ops|
    ensures Accepted(sizeMax, ops[..n], i) == Accepted(sizeMax, ops, i)
    decreases i
  {
    forall j: nat | j < i ensures Accepted(sizeMax, ops[..n], j) == Accepted(sizeMax, ops, j) {
      AcceptedPrefix(sizeMax, ops, n, j);
    }
  }

  lemma AcceptedInPrefix(sizeMax: nat, ops: seq<Op>)
    requires ops != []
    ensures var n := |ops| - 1;
            forall i: nat :: i < n ==> Accepted(sizeMax, ops[..n], i) == Accepted(sizeMax, ops, i)
  {
    var n := |ops| - 1;
    forall i: nat | i < n ensures Accepted(sizeMax, ops[..n], i) == Accepted(sizeMax, ops, i) {
      AcceptedPrefix(sizeMax, ops, n, i);
    }
  }

  /** The buffer is as large as the largest frame taken, and no larger. */
  ghost predicate CapacityFits(sizeMax: nat, ops: seq<Op>, capacity: nat) {
    && (forall j: nat :: j < |ops| && Accepted(sizeMax, ops, j) ==> PixelCount(ops[j].call) <= capacity)
    && (capacity == 0 ||
        exists j: nat :: j < |ops| && Accepted(sizeMax, ops, j) && PixelCount(ops[j].call) == capacity)
  }

  /** The baseline is the frame of the latest call taken since the last reset, if there is one. */
  ghost predicate BaselineFits(sizeMax: nat, ops: seq<Op>, baseline: Option<Gray>) {
    && (baseline.Some? ==> exists k: nat :: LatestAccepted(sizeMax, ops, k))
    && (forall k: nat :: LatestAccepted(sizeMax, ops, k) ==> baseline == Kept(ops[k].call))
  }

  /** The frame of a call whose layout fits its pixels. */
  function Kept(c: Call): Option<Gray> {
    if 0 < c.width <= c.stride && c.height > 0 && (c.height - 1) * c.stride + c.width <= |c.pixels|
    then Some(Frame(c)) else None
  }

  lemma TakenIsKept(sizeMax: nat, c: Call)
    requires CallerObligations(sizeMax, c) && WellFormed(sizeMax, c)
    ensures Kept(c) == Some(Frame(c))
  {
  }

  /** What one call does to baseline and capacity. */
  lemma StepKept(sizeMax: nat, d: DetectorState, c: Call)
    requires CallerObligations(sizeMax, c)
    requires d.baseline.Some? ==> |d.baseline.value.pixels| == d.baseline.value.width * d.baseline.value.height
    ensures var o := DetectorStep(sizeMax, d, c);
            if o.status == MotionOk then
              && o.state.baseline == Kept(c)
              && o.state.capacity == if d.capacity < PixelCount(c) then PixelCount(c) else d.capacity
            else o.state == d
  {
  }

  /** How the latest call taken changes with one more operation. */
  lemma LatestStep(sizeMax: nat, ops: seq<Op>, k: nat)
    requires ops != []
    ensures var n := |ops| - 1;
            LatestAccepted(sizeMax, ops, k) <==>
              if Accepted(sizeMax, ops, n) then k == n
              else !ops[n].ResetOp? && LatestAccepted(sizeMax, ops[..n], k)
  {
    AcceptedInPrefix(sizeMax, ops);
  }

  lemma CapacityStep(sizeMax: nat, ops: seq<Op>, before: nat, after: nat)
    requires ops != [] && CapacityFits(sizeMax, ops[..|ops| - 1], before)
    requires var n := |ops| - 1;
             after == if Accepted(sizeMax, ops, n) && before < PixelCount(ops[n].call) then PixelCount(ops[n].call)
                      else before
    ensures CapacityFits(sizeMax, ops, after)
  {
    var n := |ops| - 1;
    AcceptedInPrefix(sizeMax, ops);
    if after == before && before != 0 {
      var j: nat :| j < n && Accepted(sizeMax, ops[..n], j) && PixelCount(ops[..n][j].call) == before;
      assert Accepted(sizeMax, ops, j) && PixelCount(ops[j].call) == after;
    }
  }

  lemma BaselineStep(sizeMax: nat, ops: seq<Op>, before: Option<Gray>, after: Option<Gray>)
    requires ops != [] && BaselineFits(sizeMax, ops[..|ops| - 1], before)
    requires var n := |ops| - 1;
             after == if Accepted(sizeMax, ops, n) then Kept(ops[n].call) else if ops[n].ResetOp? then None else before
    ensures BaselineFits(sizeMax, ops, after)
  {
    var n := |ops| - 1;
    if Accepted(sizeMax, ops, n) {
      LatestStep(sizeMax, ops, n);
      assert LatestAccepted(sizeMax, ops, n);
    } else if before.Some? && !ops[n].ResetOp? {
      var k: nat :| LatestAccepted(sizeMax, ops[..n], k);
      LatestStep(sizeMax, ops, k);
    }
    forall k: nat | LatestAccepted(sizeMax, ops, k) ensures after == Kept(ops[k].call) {
      LatestStep(sizeMax, ops, k);
    }
  }

  lemma {:induction false} HistoryFits(sizeMax: nat, ops: seq<Op>)
    requires RunObligations(sizeMax, ops)
    ensures BaselineFits(sizeMax, ops, DetectorAfter(sizeMax, ops).baseline)
    ensures CapacityFits(sizeMax, ops, DetectorAfter(sizeMax, ops).capacity)
  {
    if ops != [] {
      HistoryFits(sizeMax, ops[..|ops| - 1]);
      HistoryStep(sizeMax, ops);
    }
  }

  lemma HistoryStep(sizeMax: nat, ops: seq<Op>)
    requires RunObligations(sizeMax, ops) && ops != []
    requires var before := DetectorAfter(sizeMax, ops[..|ops| - 1]);
             && BaselineFits(sizeMax, ops[..|ops| - 1], before.baseline)
             && CapacityFits(sizeMax, ops[..|ops| - 1], before.capacity)
    ensures BaselineFits(sizeMax, ops, DetectorAfter(sizeMax, ops).baseline)
    ensures CapacityFits(sizeMax, ops, DetectorAfter(sizeMax, ops).capacity)
  {
    var n := |ops| - 1;
    var before, after := DetectorAfter(sizeMax, ops[..n]), DetectorAfter(sizeMax, ops);
    if ops[n].ProcessOp? {
      AcceptanceDecided(sizeMax, ops, before);
      StepKept(sizeMax, before, ops[n].call);
    }
    CapacityStep(sizeMax, ops, before.capacity, after.capacity);
    BaselineStep(sizeMax, ops, before.baseline, after.baseline);
  }

  /** After any run, the state is described by the calls taken, not by the buffer. */
  lemma HistoryRefinement(sizeMax: nat, ops: seq<Op>)
    requires RunObligations(sizeMax, ops)
    ensures var d := DetectorAfter(sizeMax, ops);
            && (d.baseline.Some? ==> exists k: nat :: LatestAccepted(sizeMax, ops, k))
            && (forall k: nat :: LatestAccepted(sizeMax, ops, k) ==> d.baseline == Some(Frame(ops[k].call)))
            && CapacityFits(sizeMax, ops, d.capacity)
  {
    HistoryFits(sizeMax, ops);
    var baseline := DetectorAfter(sizeMax, ops).baseline;
    forall k: nat | LatestAccepted(sizeMax, ops, k) ensures baseline == Some(Frame(ops[k].call)) {
      TakenIsKept(sizeMax, ops[k].call);
    }
  }

  /** The last call is answered MOTION_OK exactly when it is taken. */
  lemma AcceptanceDecided(sizeMax: nat, ops: seq<Op>, before: DetectorState)
    requires ops != [] && RunObligations(sizeMax, ops)
    requires before.baseline.Some? ==>
               |before.baseline.value.pixels| == before.baseline.value.width * before.baseline.value.height
    requires CapacityFits(sizeMax, ops[..|ops| - 1], before.capacity)
    ensures ops[|ops| - 1].ProcessOp? ==>
              (DetectorStep(sizeMax, before, ops[|ops| - 1].call).status == MotionOk
               <==> Accepted(sizeMax, ops, |ops| - 1))
  {
    var n := |ops| - 1;
    AcceptedInPrefix(sizeMax, ops);
    if ops[n].ProcessOp? {
      StatusDecided(sizeMax, before, ops[n].call);
      if before.capacity != 0 {
        var j: nat :| j < n && Accepted(sizeMax, ops[..n], j) && PixelCount(ops[..n][j].call) == before.capacity;
        assert Accepted(sizeMax, ops, j) && PixelCount(ops[j].call) == before.capacity;
      }
    }
  }

  lemma StatusDecided(sizeMax: nat, d: DetectorState, c: Call)
    requires CallerObligations(sizeMax, c)
    requires d.baseline.Some? ==> |d.baseline.value.pixels| == d.baseline.value.width * d.baseline.value.height
    ensures DetectorStep(sizeMax, d, c).status == MotionOk
        <==> WellFormed(sizeMax, c) && (PixelCount(c) <= d.capacity || c.memory)
    ensures WellFormed(sizeMax, c) ==> PixelCount(c) > 0
  {
    if WellFormed(sizeMax, c) {
      RowFits(0, c.height, c.width);
      assert c.width * c.height == c.height * c.width;
    }
  }

  /** `r` reports exactly the positions in which two frames of one size differ by `delta` or more. */
  ghost predicate ReportsDifference(previous: seq<Byte>, current: seq<Byte>, t: Thresholds, r: MotionResult) {
    && |previous| == |current| == r.totalPixels > 0
    && !r.baselineCreated
    && r.changedPixels == |set i | 0 <= i < |previous| && AbsDiff(previous[i], current[i]) >= t.pixelDelta|
    && r.changedPixels <= r.totalPixels && r.changedRatio == Quotient(r.changedPixels, r.totalPixels)
    && (r.motionDetected <==> r.changedRatio >= t.changedRatio)
  }

  /** The outcome of the last call of a run. */
  function LastOutcome(sizeMax: nat, ops: seq<Op>): DetectorOutcome
    requires ops != [] && RunObligations(sizeMax, ops) && ops[|ops| - 1].ProcessOp?
  {
    DetectorStep(sizeMax, DetectorAfter(sizeMax, ops[..|ops| - 1]), ops[|ops| - 1].call)
  }

  lemma LastCallDecided(sizeMax: nat, ops: seq<Op>)
    requires ops != [] && RunObligations(sizeMax, ops) && ops[|ops| - 1].ProcessOp?
    ensures LastOutcome(sizeMax, ops).status == MotionOk <==> Accepted(sizeMax, ops, |ops| - 1)
  {
    var before := DetectorAfter(sizeMax, ops[..|ops| - 1]);
    HistoryRefinement(sizeMax, ops[..|ops| - 1]);
    AcceptanceDecided(sizeMax, ops, before);
  }

  /**
   The last call of any run, when the latest frame taken since a reset has its
   size: the positions that differ by the threshold or more, and no others.
   */
  lemma ComparesWithLatestFrame(sizeMax: nat, ops: seq<Op>, k: nat)
    requires ops != [] && RunObligations(sizeMax, ops)
    requires Accepted(sizeMax, ops, |ops| - 1) && LatestAccepted(sizeMax, ops[..|ops| - 1], k)
    requires ops[k].call.width == ops[|ops| - 1].call.width && ops[k].call.height == ops[|ops| - 1].call.height
    ensures ReportsDifference(Frame(ops[k].call).pixels, Frame(ops[|ops| - 1].call).pixels,
                              ops[|ops| - 1].call.thresholds, LastOutcome(sizeMax, ops).result)
  {
    var n := |ops| - 1;
    var before := DetectorAfter(sizeMax, ops[..n]);
    assert before.baseline == Some(Frame(ops[..n][k].call)) by {
      HistoryRefinement(sizeMax, ops[..n]);
    }
    assert LastOutcome(sizeMax, ops).status == MotionOk by {
      LastCallDecided(sizeMax, ops);
    }
    ComparisonReports(sizeMax, before, ops[n].call);
  }

  /** A successful call on a baseline of its size reports the difference. */
  lemma ComparisonReports(sizeMax: nat, before: DetectorState, c: Call)
    requires CallerObligations(sizeMax, c)
    requires before.baseline.Some? && before.baseline.value.width == c.width && before.baseline.value.height == c.height
    requires |before.baseline.value.pixels| == c.width * c.height
    requires DetectorStep(sizeMax, before, c).status == MotionOk
    ensures 0 < c.width <= c.stride && c.height > 0
    ensures ReportsDifference(before.baseline.value.pixels, Frame(c).pixels, c.thresholds,
                              DetectorStep(sizeMax, before, c).result)
  {
    RowFits(0, c.height, c.width);
    var total := c.width * c.height;
    assert total == c.height * c.width;
    var previous, current := before.baseline.value.pixels, Frame(c).pixels;
    assert DetectorStep(sizeMax, before, c).result == Compared(previous, current, c.thresholds);
    ComparedReports(previous, current, c.thresholds);
  }

  lemma ComparedReports(previous: seq<Byte>, current: seq<Byte>, t: Thresholds)
    requires |previous| == |current| > 0
    ensures ReportsDifference(previous, current, t, Compared(previous, current, t))
  {
    CountIsCardinality(previous, current, t.pixelDelta);
  }

  /** Otherwise the call only stores its frame: nothing is compared, nothing is reported as motion. */
  lemma StoresBaselineOtherwise(sizeMax: nat, ops: seq<Op>)
    requires ops != [] && RunObligations(sizeMax, ops) && Accepted(sizeMax, ops, |ops| - 1)
    requires forall k: nat :: LatestAccepted(sizeMax, ops[..|ops| - 1], k) ==>
               ops[k].call.width != ops[|ops| - 1].call.width || ops[k].call.height != ops[|ops| - 1].call.height
    ensures LastOutcome(sizeMax, ops).result == MotionResult(PixelCount(ops[|ops| - 1].call), 0, 0.0, false, true)
  {
    LastCallDecided(sizeMax, ops);
    var prefix := ops[..|ops| - 1];
    HistoryRefinement(sizeMax, prefix);
    if DetectorAfter(sizeMax, prefix).baseline.Some? {
      var k: nat :| LatestAccepted(sizeMax, prefix, k);
      assert prefix[k] == ops[k];
    }
  }
}
