/** `analyze_meter_length`: the average number of letters per hemistich,
    over at most forty hemistichs, sorted into four bands. The source divides
    two `f64`s; here the comparisons are made on integers, exactly. */
module MeterLength {
  import opened Aggregator

  /** `total / n >= num / den` on `f64`s, where `total` and `n` are small
      integers and `num / den` is one of the thresholds 23.5, 22.5, 21.0.
      For `n == 0` the quotient is +infinity when `total > 0`, which passes
      every threshold, and NaN when `total == 0`, which passes none. */
  predicate AverageAtLeast(total: nat, n: nat, num: nat, den: nat)
    requires den > 0
  {
    if n == 0 then total > 0 else den * total >= num * n
  }

  /** For a positive count the integer test is the comparison of the real
      quotient with the real threshold. */
  lemma AverageAtLeastIsDivision(total: nat, n: nat, num: nat, den: nat)
    requires den > 0 && n > 0
    ensures AverageAtLeast(total, n, num, den) <==> (total as real) / (n as real) >= (num as real) / (den as real)
  {
    var t, m, a, d := total as real, n as real, num as real, den as real;
    assert t / m * m == t;
    assert a / d * d == a;
    assert (den * total) as real == d * t;
    assert (num * n) as real == a * m;
    if t / m >= a / d {
      assert t / m * (m * d) >= a / d * (m * d);
    } else {
      assert t / m * (m * d) < a / d * (m * d);
    }
  }

  /** The four outcomes of the threshold table. */
  datatype Band =
    | Long                // at least 23.5
    | ShortForLong        // at least 22.5: long, "pretty short for a long meter"
    | LongForShort        // at least 21.0: short, "pretty long for a short meter"
    | Short               // below 21.0, or no average at all

  /** The divisor: the number of hemistichs, capped at `MAX_HEMISTICHS`. */
  function Divisor(totalHemistichs: nat): (n: nat)
    ensures n <= MaxHemistichs && n <= totalHemistichs && (n == totalHemistichs || n == MaxHemistichs)
  {
    if totalHemistichs > MaxHemistichs then MaxHemistichs else totalHemistichs
  }

  /** The band `analyze_meter_length` selects, in its order of tests. */
  function MeterBand(totalLetters: nat, totalHemistichs: nat): Band {
    var n := Divisor(totalHemistichs);
    if AverageAtLeast(totalLetters, n, 47, 2) then Long
    else if AverageAtLeast(totalLetters, n, 45, 2) then ShortForLong
    else if AverageAtLeast(totalLetters, n, 21, 1) then LongForShort
    else Short
  }

  predicate IsLong(b: Band) {
    b == Long || b == ShortForLong
  }

  /** Each band is an interval of averages: the bands are tried from the
      highest threshold down, and the thresholds decrease. */
  lemma BandsAreIntervals(totalLetters: nat, totalHemistichs: nat)
    requires Divisor(totalHemistichs) > 0
    ensures var n, b := Divisor(totalHemistichs), MeterBand(totalLetters, totalHemistichs);
            var avg := (totalLetters as real) / (n as real);
            && (b == Long <==> avg >= 23.5)
            && (b == ShortForLong <==> 22.5 <= avg < 23.5)
            && (b == LongForShort <==> 21.0 <= avg < 22.5)
            && (b == Short <==> avg < 21.0)
  {
    var n := Divisor(totalHemistichs);
    AverageAtLeastIsDivision(totalLetters, n, 47, 2);
    AverageAtLeastIsDivision(totalLetters, n, 45, 2);
    AverageAtLeastIsDivision(totalLetters, n, 21, 1);
    assert (47 as real) / (2 as real) == 23.5;
    assert (45 as real) / (2 as real) == 22.5;
    assert (21 as real) / (1 as real) == 21.0;
  }

  /** `analyze_meter_length`: sets `long_meter` or `short_meter`; it never
      clears either flag. */
  method AnalyzeMeterLength(analysis: MeterAnalysis, totalHemistichs: nat)
    modifies analysis
    ensures var b := MeterBand(old(analysis.totalLetters), totalHemistichs);
            && analysis.longMeter == (old(analysis.longMeter) || IsLong(b))
            && analysis.shortMeter == (old(analysis.shortMeter) || !IsLong(b))
    ensures analysis.totalLetters == old(analysis.totalLetters)
  {
    var n := Divisor(totalHemistichs);
    var total := analysis.totalLetters;
    if AverageAtLeast(total, n, 47, 2) {
      analysis.longMeter := true;
    } else if AverageAtLeast(total, n, 45, 2) {
      analysis.longMeter := true;
    } else if AverageAtLeast(total, n, 21, 1) {
      analysis.shortMeter := true;
    } else {
      analysis.shortMeter := true;
    }
  }
}
