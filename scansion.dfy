/** The engine end to end, as `main` drives it once the poem is loaded and
    split into hemistichs: the fold over the hemistichs, the meter-length
    classifier, the two syllable assessors and the overall assessment. */
module Scansion {
  import opened Wrappers
  import opened Normalizer
  import opened Aggregator
  import ML = MeterLength
  import opened Assessment
  import D = Decision

  /** What the engine concludes: the verdicts and reports of the two
      syllable assessors and the overall assessment. */
  datatype Conclusions = Conclusions(first: Verdict, second: Verdict, overall: seq<Line>)
  {
    /** The assessment lines in the order they are printed. */
    function Report(): seq<Line> {
      first.report + second.report + overall
    }
  }

  /** The conclusions the engine draws from the analysed hemistichs `recs`,
      when the poem has `totalHemistichs` hemistichs. */
  function ConclusionsOf(recs: seq<seq<char>>, totalHemistichs: nat): Conclusions {
    var t := TallyOf(recs);
    var longMeter := ML.IsLong(ML.MeterBand(LettersOf(recs), totalHemistichs));
    var first := FirstSyllableAssessment(t.longFirstMarkers, t.longFirstLocations,
                                         t.shortFirstMarkers, t.shortFirstLocations);
    var second := SecondSyllableAssessment(t.longSecondMarkers, t.longSecondLocations,
                                           t.shortSecondMarkers, t.shortSecondLocations);
    Conclusions(first, second,
                FinalAssessment(longMeter, !longMeter, first.long, first.short, second.long, second.short))
  }

  /** `main` without reading the file: analyse the hemistichs, classify the
      meter length, assess both syllables and give the overall assessment.
      The report fails with the first hemistich that does not reconstruct;
      otherwise it holds the three assessments of what was analysed. */
  method Scan(hemistichs: seq<string>) returns (r: Result<Conclusions, ReconstructionError>)
    ensures match ReconstructAll(hemistichs[..Min(|hemistichs|, MaxHemistichs)])
            case Err(e) => r == Err(e)
            case Ok(recs) => r == Ok(ConclusionsOf(recs, |hemistichs|))
  {
    var analyzed := AnalyzeHemistichs(hemistichs);
    match analyzed {
      case Err(e) =>
        r := Err(e);
      case Ok(analysis) =>
        ML.AnalyzeMeterLength(analysis, |hemistichs|);
        var s := analysis.syllableAnalysis;
        var first := FirstSyllableAssessment(s.longFirstMarkers, s.longFirstLocations,
                                             s.shortFirstMarkers, s.shortFirstLocations);
        var second := SecondSyllableAssessment(s.longSecondMarkers, s.longSecondLocations,
                                               s.shortSecondMarkers, s.shortSecondLocations);
        var summary := FinalAssessment(analysis.longMeter, analysis.shortMeter,
                                       first.long, first.short, second.long, second.short);
        r := Ok(Conclusions(first, second, summary));
    }
  }

  /** Whatever the hemistichs, the engine draws a conclusion about the meter
      length: the line saying that it is unclear is never printed, because
      `analyze_meter_length` always sets exactly one of the two flags. */
  lemma MeterLengthIsNeverUnclear(recs: seq<seq<char>>, totalHemistichs: nat)
    ensures Guidance(D.LengthUnclear) !in ConclusionsOf(recs, totalHemistichs).overall
  {
    var c := ConclusionsOf(recs, totalHemistichs);
    var longMeter := ML.IsLong(ML.MeterBand(LettersOf(recs), totalHemistichs));
    OneMeterFlagDrawsConclusions(longMeter, !longMeter, c.first.long, c.first.short, c.second.long, c.second.short);
  }
}
