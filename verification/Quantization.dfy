/** Affine quantization: zero points, scales, and the quantized value of a number. */
module Quantization {
  import opened Numbers
  import opened Wrappers

  datatype ElementType = U8 | I8 | OtherType

  datatype QuantizationError = BadRange | TooManyLevels | UnsupportedType

  /** Rounds to the nearest integer, halves away from zero. */
  function Round(x: real): int {
    if x >= 0.0 then (x + 0.5).Floor else -((-x + 0.5).Floor)
  }

  lemma RoundIsNear(x: real)
    ensures Abs(Round(x) as real - x) <= 0.5
    ensures Round(x) as real - x == 0.5 ==> x >= 0.0
    ensures x - Round(x) as real == 0.5 ==> x < 0.0
  {
  }

  lemma RoundOfInteger(n: int)
    ensures Round(n as real) == n
  {
  }

  lemma RoundIsMonotone(x: real, y: real)
    requires x <= y
    ensures Round(x) <= Round(y)
  {
    RoundIsNear(x);
    RoundIsNear(y);
  }

  // ---- zero point and scale ----

  /** Where zero lies between the ends of a range, on a scale of `steps`. */
  function Position(low: real, high: real, steps: real): real
    requires low != high
  {
    -steps * low / (high - low)
  }

  function Middle(low: real, high: real, steps: real): real
    requires low != high
  {
    -steps * ((high + low) * 0.5) / (high - low)
  }

  function CalculateZeroPoint(
      low: real, high: real, levels: int, elemType: ElementType): (r: Result<int, QuantizationError>)
    ensures r.Ok? <==> low <= 0.0 <= high && low != high && levels <= 256 && elemType != OtherType
    ensures r == Err(BadRange) <==> !(low <= 0.0 <= high && low < high)
    ensures r == Err(TooManyLevels) <==> low <= 0.0 <= high && low < high && levels > 256
  {
    if !(low <= 0.0 <= high && low != high) then Err(BadRange)
    else if levels > 256 then Err(TooManyLevels)
    else match elemType
      case U8 => Ok(Round(Position(low, high, (levels - 1) as real)))
      case I8 => Ok(Round(Middle(low, high, (levels - 1) as real)))
      case OtherType => Err(UnsupportedType)
  }

  function CalculateScale(low: real, high: real, levels: int): (r: Result<real, QuantizationError>)
    requires levels != 1
    ensures r.Ok? <==> low != high && levels <= 256
    ensures r == Err(BadRange) <==> low == high
  {
    if low == high then Err(BadRange)
    else if levels > 256 then Err(TooManyLevels)
    else Ok((high - low) / (levels - 1) as real)
  }

  lemma ShareIsBounded(part: real, whole: real, steps: real)
    requires 0.0 <= part <= whole && whole != 0.0 && 0.0 <= steps
    ensures 0.0 <= steps * part / whole <= steps
    ensures steps != 0.0 ==> (steps * part / whole == steps <==> part == whole)
    ensures steps != 0.0 ==> (steps * part / whole == 0.0 <==> part == 0.0)
  {
    var share := part / whole;
    assert share * whole == part;
    assert 0.0 <= share <= 1.0;
    assert steps * part / whole == steps * share;
  }

  lemma PositionIsInside(low: real, high: real, steps: real)
    requires low <= 0.0 <= high && low != high && 0.0 <= steps
    ensures 0.0 <= Position(low, high, steps) <= steps
  {
    ShareIsBounded(-low, high - low, steps);
    assert -steps * low == steps * -low;
  }

  /** The unsigned zero point is one of the levels. */
  lemma UnsignedZeroPointIsALevel(low: real, high: real, levels: int)
    requires low <= 0.0 <= high && low != high && 1 <= levels <= 256
    ensures var zp := CalculateZeroPoint(low, high, levels, U8); zp.Ok? && 0 <= zp.value <= levels - 1
  {
    var x := Position(low, high, (levels - 1) as real);
    PositionIsInside(low, high, (levels - 1) as real);
    RoundIsMonotone(0.0, x);
    RoundIsMonotone(x, (levels - 1) as real);
    RoundOfInteger(levels - 1);
  }

  /** The signed position of zero is the unsigned one, moved down by half the steps: the middle of the range is at
      zero. */
  lemma MiddleIsShiftedPosition(low: real, high: real, steps: real)
    requires low != high
    ensures Middle(low, high, steps) == Position(low, high, steps) - steps / 2.0
    ensures Position(low, high, steps) * (high - low) == -steps * low
  {
    var width, p := high - low, Position(low, high, steps);
    assert p * width == -steps * low;
    assert -steps * ((high + low) * 0.5) == (p - steps / 2.0) * width by {
      assert (p - steps / 2.0) * width == p * width - steps / 2.0 * width;
    }
    Cancel(width, Middle(low, high, steps), p - steps / 2.0);
  }

  /** The range [-1, 3] with 256 levels has its zero a quarter of the way up. */
  lemma ZeroPointsOfQuarter()
    ensures CalculateZeroPoint(-1.0, 3.0, 256, I8) == Ok(-64) && CalculateZeroPoint(-1.0, 3.0, 256, U8) == Ok(64)
  {
    assert Middle(-1.0, 3.0, 255.0) == -63.75 && Position(-1.0, 3.0, 255.0) == 63.75;
  }

  lemma MiddleIsCentred(low: real, high: real, steps: real)
    requires low <= 0.0 <= high && low != high && 0.0 < steps
    ensures -steps / 2.0 <= Middle(low, high, steps) <= steps / 2.0
    ensures Middle(low, high, steps) == steps / 2.0 <==> high == 0.0
  {
    ShareIsBounded(-low, high - low, steps);
    var width, half := high - low, (high + low) * 0.5;
    assert half == low + width * 0.5;
    var p := steps * -low / width;
    assert Middle(low, high, steps) == p - steps / 2.0 by {
      assert p * width == steps * -low;
      assert -steps * half == (p - steps / 2.0) * width;
      assert -steps * half / width == (p - steps / 2.0) * width / width;
    }
  }

  /** The signed zero point of 256 levels fits a signed byte exactly when the range reaches above zero: a range
      that ends at zero gets 128. */
  lemma SignedZeroPointFits(low: real, high: real)
    requires low <= 0.0 <= high && low != high
    ensures var zp := CalculateZeroPoint(low, high, 256, I8);
            zp.Ok? && -128 <= zp.value <= 128 && (zp.value <= 127 <==> high != 0.0)
  {
    var x := Middle(low, high, 255.0);
    MiddleIsCentred(low, high, 255.0);
    RoundIsMonotone(-127.5, x);
    RoundIsMonotone(x, 127.5);
    RoundIsNear(x);
  }

  /** With fewer levels it always fits. */
  lemma FewerLevelsAlwaysFit(low: real, high: real, levels: int)
    requires low <= 0.0 <= high && low != high && 2 <= levels <= 255
    ensures var zp := CalculateZeroPoint(low, high, levels, I8); zp.Ok? && -127 <= zp.value <= 127
  {
    var x := Middle(low, high, (levels - 1) as real);
    MiddleIsCentred(low, high, (levels - 1) as real);
    RoundIsMonotone(-127.0, x);
    RoundIsMonotone(x, 127.0);
  }

  // ---- aligning a range with its zero point ----

  /** The number a level stands for. */
  function Dequantize(q: int, scale: real, zeroPoint: int): real {
    (q - zeroPoint) as real * scale
  }

  /** Moves the ends of a range so that zero is one of its levels. */
  method AlignZp(low: real, high: real, levels: int) returns (r: Result<(real, real), QuantizationError>)
    requires levels != 1
    ensures r == Aligned(low, high, levels)
  {
    var zp := CalculateZeroPoint(low, high, levels, U8);
    if zp.Err? {
      return Err(zp.error);
    }
    var scale := CalculateScale(low, high, levels);
    EndsOfLevels(levels, scale.value, zp.value);
    var min := (0.0 - zp.value as real) * scale.value;
    var max := (levels as real - 1.0 - zp.value as real) * scale.value;
    assert min == Dequantize(0, scale.value, zp.value);
    assert max == Dequantize(levels - 1, scale.value, zp.value);
    return Ok((min, max));
  }

  /** The ends after alignment: what the lowest and the highest level stand for. */
  function Aligned(low: real, high: real, levels: int): Result<(real, real), QuantizationError>
    requires levels != 1
  {
    match CalculateZeroPoint(low, high, levels, U8)
    case Err(e) => Err(e)
    case Ok(zp) =>
      var scale := CalculateScale(low, high, levels).value;
      Ok((Dequantize(0, scale, zp), Dequantize(levels - 1, scale, zp)))
  }

  lemma EndsAreLevels(low: real, high: real, steps: real)
    requires low != high && steps != 0.0
    ensures var scale, x := (high - low) / steps, Position(low, high, steps);
            scale * steps == high - low && low == -x * scale && high == (steps - x) * scale
  {
    var scale, x := (high - low) / steps, Position(low, high, steps);
    assert scale * steps == high - low;
    assert x * (high - low) == -steps * low;
    Cancel(steps, x * scale, -low);
  }

  lemma Cancel(c: real, x: real, y: real)
    requires c != 0.0 && c * x == c * y
    ensures x == y
  {
  }

  lemma ScaledBound(d: real, bound: real, scale: real)
    requires Abs(d) <= bound && 0.0 <= scale
    ensures Abs(d * scale) <= bound * scale
  {
  }

  lemma ScaleIsPositive(low: real, high: real, steps: real)
    requires low < high && 0.0 < steps
    ensures 0.0 < (high - low) / steps
  {
  }

  /** The new ends are as far apart, zero is `zp` steps above the lower one, and neither moved more than half a step. */
  predicate MovesLittle(low: real, high: real, min: real, max: real, zp: real, scale: real) {
    && min <= 0.0 <= max && max - min == high - low && min + zp * scale == 0.0
    && Abs(min - low) <= 0.5 * scale && Abs(max - high) <= 0.5 * scale
  }

  lemma MovedEnds(
      low: real, high: real, min: real, max: real, steps: real, scale: real, x: real, zp: real)
    requires low == -x * scale && high == (steps - x) * scale && scale * steps == high - low && 0.0 < scale
    requires 0.0 <= zp <= steps && Abs(zp - x) <= 0.5 && min == (0.0 - zp) * scale && max == (steps - zp) * scale
    ensures MovesLittle(low, high, min, max, zp, scale)
  {
    ScaledBound(x - zp, 0.5, scale);
    assert min - low == (x - zp) * scale && max - high == (x - zp) * scale;
  }

  lemma AlignedEnds(low: real, high: real, min: real, max: real, steps: real, scale: real, zp: real)
    requires low <= 0.0 <= high && low != high && 0.0 < steps && scale == (high - low) / steps
    requires 0.0 <= zp <= steps && Abs(zp - Position(low, high, steps)) <= 0.5
    requires min == (0.0 - zp) * scale && max == (steps - zp) * scale
    ensures 0.0 < scale && MovesLittle(low, high, min, max, zp, scale)
  {
    EndsAreLevels(low, high, steps);
    ScaleIsPositive(low, high, steps);
    MovedEnds(low, high, min, max, steps, scale, Position(low, high, steps), zp);
  }

  lemma EndsOfLevels(levels: int, scale: real, zp: int)
    ensures Dequantize(0, scale, zp) == (0.0 - zp as real) * scale
    ensures Dequantize(levels - 1, scale, zp) == (levels as real - 1.0 - zp as real) * scale
  {
    assert (0 - zp) as real == 0.0 - zp as real && (levels - 1 - zp) as real == levels as real - 1.0 - zp as real;
  }

  /** Alignment keeps the width, puts zero on a level, and moves each end by at most half a step. */
  lemma AlignmentMovesLittle(low: real, high: real, levels: int)
    requires low <= 0.0 <= high && low != high && 2 <= levels <= 256
    ensures var zp, scale := CalculateZeroPoint(low, high, levels, U8), CalculateScale(low, high, levels);
            var aligned := Aligned(low, high, levels);
            && zp.Ok? && scale.Ok? && aligned.Ok? && 0.0 < scale.value
            && 0 <= zp.value <= levels - 1
            && MovesLittle(low, high, aligned.value.0, aligned.value.1, zp.value as real, scale.value)
  {
    var steps := (levels - 1) as real;
    var scale, x := (high - low) / steps, Position(low, high, steps);
    var zp := Round(x);
    UnsignedZeroPointIsALevel(low, high, levels);
    RoundIsNear(x);
    EndsOfLevels(levels, scale, zp);
    AlignedEnds(low, high, Dequantize(0, scale, zp), Dequantize(levels - 1, scale, zp), steps, scale, zp as real);
  }

  lemma PositionOfAligned(min: real, max: real, steps: real, scale: real, zp: real)
    requires min == (0.0 - zp) * scale && max == (steps - zp) * scale && 0.0 < steps && 0.0 < scale
    ensures min != max && Position(min, max, steps) == zp
  {
    assert max - min == steps * scale > 0.0;
    assert -steps * min == zp * (max - min);
    Cancel(max - min, Position(min, max, steps), zp);
  }

  /** Aligning twice is aligning once. */
  lemma AlignmentIsIdempotent(low: real, high: real, levels: int)
    requires low <= 0.0 <= high && low != high && 2 <= levels <= 256
    ensures var aligned := Aligned(low, high, levels);
            aligned.Ok? && Aligned(aligned.value.0, aligned.value.1, levels) == aligned
  {
    AlignmentMovesLittle(low, high, levels);
    var min, max := Aligned(low, high, levels).value.0, Aligned(low, high, levels).value.1;
    var zp := CalculateZeroPoint(low, high, levels, U8).value;
    var scale := CalculateScale(low, high, levels).value;
    EndsOfLevels(levels, scale, zp);
    PositionOfAligned(min, max, (levels - 1) as real, scale, zp as real);
    RoundOfInteger(zp);
  }

  // ---- quantizing ----

  function Clamp(q: int, low: int, high: int): (r: int)
    requires low <= high
    ensures low <= r <= high && (low <= q <= high ==> r == q)
  {
    if q < low then low else if high < q then high else q
  }

  function Level(val: real, scale: real, zeroPoint: int): real
    requires scale != 0.0
  {
    val / scale + zeroPoint as real
  }

  function QuantizeVal(
      val: real, scale: real, zeroPoint: int, elemType: ElementType): (r: Result<int, QuantizationError>)
    requires scale != 0.0
    ensures r.Ok? <==> elemType == U8
    ensures r.Ok? ==> 0 <= r.value <= 255
  {
    if elemType == U8 then Ok(Clamp(Round(Level(val, scale, zeroPoint)), 0, 255)) else Err(UnsupportedType)
  }

  /** A larger number never gets a smaller level. */
  lemma QuantizeIsMonotone(x: real, y: real, scale: real, zeroPoint: int)
    requires 0.0 < scale && x <= y
    ensures QuantizeVal(x, scale, zeroPoint, U8).value <= QuantizeVal(y, scale, zeroPoint, U8).value
  {
    assert x / scale <= y / scale by {
      assert (y - x) / scale >= 0.0;
    }
    RoundIsMonotone(Level(x, scale, zeroPoint), Level(y, scale, zeroPoint));
  }

  /** Quantizing what a level stands for gives the level back. */
  lemma QuantizeInvertsDequantize(q: int, scale: real, zeroPoint: int)
    requires scale != 0.0 && 0 <= q <= 255
    ensures QuantizeVal(Dequantize(q, scale, zeroPoint), scale, zeroPoint, U8) == Ok(q)
  {
    Cancel(scale, Dequantize(q, scale, zeroPoint) / scale, (q - zeroPoint) as real);
    RoundOfInteger(q);
  }

  lemma LevelStandsFor(val: real, scale: real, zeroPoint: int)
    requires scale != 0.0
    ensures val == (Level(val, scale, zeroPoint) - zeroPoint as real) * scale
  {
    assert val / scale * scale == val;
  }

  lemma ErrorInSteps(q: int, t: real, val: real, scale: real, zeroPoint: int)
    requires val == (t - zeroPoint as real) * scale
    ensures Dequantize(q, scale, zeroPoint) - val == (q as real - t) * scale
  {
    assert (q - zeroPoint) as real == q as real - zeroPoint as real;
  }

  lemma ClampIsNearest(rounded: int, t: real, q: int)
    requires Abs(rounded as real - t) <= 0.5 && 0 <= q <= 255
    ensures Abs(Clamp(rounded, 0, 255) as real - t) <= Abs(q as real - t)
  {
    if q < rounded {
      assert q as real <= rounded as real - 1.0;
      if 255 < rounded {
        assert q as real <= 255.0 <= rounded as real - 1.0;
      }
    } else if rounded < q {
      assert rounded as real + 1.0 <= q as real;
      if rounded < 0 {
        assert rounded as real + 1.0 <= 0.0 <= q as real;
      }
    }
  }

  lemma ErrorOrder(d: real, e: real, scale: real)
    requires Abs(d) <= Abs(e)
    ensures Abs(d * scale) <= Abs(e * scale)
  {
    calc {
      Abs(d * scale);
    ==  { AbsOfProduct(d, scale); }
      Abs(d) * Abs(scale);
    <=  { ScaleOrder(Abs(d), Abs(e), Abs(scale)); }
      Abs(e) * Abs(scale);
    ==  { AbsOfProduct(e, scale); }
      Abs(e * scale);
    }
  }

  lemma AbsOfProduct(x: real, y: real)
    ensures Abs(x * y) == Abs(x) * Abs(y)
  {
    if x >= 0.0 && y >= 0.0 {
      assert x * y >= 0.0;
    } else if x < 0.0 && y < 0.0 {
      assert x * y == -x * -y >= 0.0;
    } else if x < 0.0 {
      assert -x * y >= 0.0;
    } else {
      assert x * -y >= 0.0;
    }
  }

  lemma ScaleOrder(x: real, y: real, c: real)
    requires x <= y && 0.0 <= c
    ensures x * c <= y * c
  {
  }

  lemma NearestLevel(t: real, q: int)
    requires 0 <= q <= 255
    ensures Abs(Clamp(Round(t), 0, 255) as real - t) <= Abs(q as real - t)
  {
    RoundIsNear(t);
    ClampIsNearest(Round(t), t, q);
  }

  lemma NearerNumber(x: real, y: real, val: real, d: real, e: real, scale: real)
    requires x - val == d * scale && y - val == e * scale && Abs(d) <= Abs(e)
    ensures Abs(x - val) <= Abs(y - val)
  {
    ErrorOrder(d, e, scale);
  }

  lemma NearerLevel(p: int, q: int, t: real, val: real, scale: real, zeroPoint: int)
    requires val == (t - zeroPoint as real) * scale && Abs(p as real - t) <= Abs(q as real - t)
    ensures Abs(Dequantize(p, scale, zeroPoint) - val) <= Abs(Dequantize(q, scale, zeroPoint) - val)
  {
    ErrorInSteps(p, t, val, scale, zeroPoint);
    ErrorInSteps(q, t, val, scale, zeroPoint);
    NearerNumber(Dequantize(p, scale, zeroPoint), Dequantize(q, scale, zeroPoint), val,
                 p as real - t, q as real - t, scale);
  }

  /** No other level stands for a number nearer to the one quantized. */
  lemma QuantizeIsNearest(val: real, scale: real, zeroPoint: int, q: int)
    requires scale != 0.0 && 0 <= q <= 255
    ensures var chosen := QuantizeVal(val, scale, zeroPoint, U8).value;
            Abs(Dequantize(chosen, scale, zeroPoint) - val) <= Abs(Dequantize(q, scale, zeroPoint) - val)
  {
    var t := Level(val, scale, zeroPoint);
    LevelStandsFor(val, scale, zeroPoint);
    NearestLevel(t, q);
    NearerLevel(Clamp(Round(t), 0, 255), q, t, val, scale, zeroPoint);
  }

  lemma LevelIsInside(t: real, val: real, scale: real, zeroPoint: int)
    requires 0.0 < scale && val == (t - zeroPoint as real) * scale
    requires Dequantize(0, scale, zeroPoint) - 0.5 * scale <= val <= Dequantize(255, scale, zeroPoint) + 0.5 * scale
    ensures -0.5 <= t <= 255.5
  {
    assert (0 - zeroPoint) as real == 0.0 - zeroPoint as real && (255 - zeroPoint) as real == 255.0 - zeroPoint as real;
    assert (t + 0.5) * scale >= 0.0 && (255.5 - t) * scale >= 0.0;
  }

  lemma ClampIsClose(t: real)
    requires -0.5 <= t <= 255.5
    ensures Abs(Clamp(Round(t), 0, 255) as real - t) <= 0.5
  {
    RoundIsNear(t);
    if Round(t) < 0 {
      assert Round(t) as real <= -1.0;
    } else if 255 < Round(t) {
      assert 256.0 <= Round(t) as real;
    }
  }

  /** Between the lowest and the highest level the error is at most half a step, and so it is half a step beyond
      them. */
  lemma QuantizeErrorIsSmall(val: real, scale: real, zeroPoint: int)
    requires 0.0 < scale
    requires Dequantize(0, scale, zeroPoint) - 0.5 * scale <= val <= Dequantize(255, scale, zeroPoint) + 0.5 * scale
    ensures Abs(Dequantize(QuantizeVal(val, scale, zeroPoint, U8).value, scale, zeroPoint) - val) <= 0.5 * scale
  {
    var t := Level(val, scale, zeroPoint);
    LevelStandsFor(val, scale, zeroPoint);
    LevelIsInside(t, val, scale, zeroPoint);
    ClampIsClose(t);
    ErrorInSteps(Clamp(Round(t), 0, 255), t, val, scale, zeroPoint);
    ScaledBound(Clamp(Round(t), 0, 255) as real - t, 0.5, scale);
  }

  /** A range with 256 levels, end to end: every number of the range comes back within half a step, and zero comes
      back as zero. */
  lemma RangeSurvivesQuantization(low: real, high: real, val: real)
    requires low <= 0.0 <= high && low != high && low <= val <= high
    ensures var zp, scale := CalculateZeroPoint(low, high, 256, U8).value, CalculateScale(low, high, 256).value;
            && 0.0 < scale
            && Abs(Dequantize(QuantizeVal(val, scale, zp, U8).value, scale, zp) - val) <= 0.5 * scale
            && Dequantize(QuantizeVal(0.0, scale, zp, U8).value, scale, zp) == 0.0
  {
    AlignmentMovesLittle(low, high, 256);
    var zp, scale := CalculateZeroPoint(low, high, 256, U8).value, CalculateScale(low, high, 256).value;
    QuantizeErrorIsSmall(val, scale, zp);
    QuantizeInvertsDequantize(zp, scale, zp);
  }
}
