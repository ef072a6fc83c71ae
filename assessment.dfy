/** The verdicts: `first_syllable_assessment` and
    `second_syllable_assessment` turn marker counts into a long, short or
    no verdict with a report, and `final_assessment` picks guidance text from
    the meter flags and the four verdicts. A report is a sequence of lines,
    each with its role; `LineText` gives the text the source prints for it
    (the source ends every line with a newline). */
module Assessment {
  import opened Render
  import opened Detectors
  import D = Decision

  /** The parts of the overall report that have a heading. */
  datatype Section = FirstSyllable | SecondSyllable | Overall

  /** The fixed remarks of the two assessors. */
  datatype Remark =
    | ProbablyRamal
    | AppearsLong(section: Section)
    | AppearsShort(section: Section)
    | Insufficient(section: Section)
    | ShortIsEasierToDetect

  /** A report line, by its role. */
  datatype Line =
    | Heading(section: Section)
    | Indication(kind: Kind, markers: nat, locs: seq<nat>)
    | Caution
    | Contradiction(section: Section)
    | Conclusion(remark: Remark)
    | Guidance(advice: D.Advice)

  function SectionName(section: Section): string {
    match section
    case FirstSyllable => "first"
    case SecondSyllable => "second"
    case Overall => "overall"
  }

  /** The caption before a marker count. */
  function Caption(kind: Kind): string {
    match kind
    case LongFirst => "Indications of a long first syllable: "
    case ShortFirst => "Indications of a short first syllable: "
    case LongSecond => "Suggestions of a long second syllable: "
    case ShortSecond => "Suggestions of a short second syllable: "
  }

  function RemarkText(remark: Remark): string {
    match remark
    case ProbablyRamal => "If this is not an error, it suggests that the meter is probably ramal."
    case AppearsLong(section) => "The " + SectionName(section) + " syllable in this meter appears to be long."
    case AppearsShort(section) => "The " + SectionName(section) + " syllable in this meter appears to be short."
    case Insufficient(section) => "Insufficient evidence (< 2) of a long vs. short " + SectionName(section) + " syllable…"
    case ShortIsEasierToDetect => "(It's easier to detect short syllables. Scant results may suggest long.)"
  }

  /** The line as printed, without its newline. */
  function LineText(line: Line): string {
    match line
    case Heading(FirstSyllable) => "*** First syllable length ***"
    case Heading(SecondSyllable) => "*** Second syllable length ***"
    case Heading(Overall) => "*** Overall assessment ***"
    case Indication(kind, markers, locs) => Caption(kind) + NatToString(markers) + " (at " + JoinLocations(locs) + ")"
    case Caution => "(Be careful with this; one result is not much.)"
    case Contradiction(section) =>
      "There are contradictory indications of a long vs. short " + SectionName(section) + " syllable."
    case Conclusion(remark) => RemarkText(remark)
    case Guidance(advice) => D.AdviceText(advice)
  }

  /** The printed report. */
  function ReportText(report: seq<Line>): string {
    if report == [] then "" else ReportText(report[..|report| - 1]) + LineText(report[|report| - 1]) + "\n"
  }

  /** What an assessor returns: the long and short verdicts and the report. */
  datatype Verdict = Verdict(long: bool, short: bool, report: seq<Line>)

  /** The number of contradiction lines in a report. */
  function Contradictions(report: seq<Line>): nat {
    if report == [] then 0
    else Contradictions(report[..|report| - 1]) + (if report[|report| - 1].Contradiction? then 1 else 0)
  }

  /** The number of cautions in a report. */
  function Cautions(report: seq<Line>): nat {
    if report == [] then 0
    else Cautions(report[..|report| - 1]) + (if report[|report| - 1].Caution? then 1 else 0)
  }

  lemma {:induction false} CountsAppend(a: seq<Line>, b: seq<Line>)
    ensures Contradictions(a + b) == Contradictions(a) + Contradictions(b)
    ensures Cautions(a + b) == Cautions(a) + Cautions(b)
    decreases |b|
  {
    if b == [] {
      assert a + b == a;
    } else {
      assert (a + b)[..|a + b| - 1] == a + b[..|b| - 1];
      CountsAppend(a, b[..|b| - 1]);
    }
  }

  /** The counts of a report of one or two lines. */
  lemma CountsOfShortReports(x: Line, y: Line)
    ensures Contradictions([x]) == (if x.Contradiction? then 1 else 0)
    ensures Cautions([x]) == (if x.Caution? then 1 else 0)
    ensures Contradictions([x, y]) == Contradictions([x]) + (if y.Contradiction? then 1 else 0)
    ensures Cautions([x, y]) == Cautions([x]) + (if y.Caution? then 1 else 0)
  {
    assert [x][..0] == [];
    assert [x, y][..1] == [x];
  }

  /** A line is in a report of three parts exactly when it is in one of
      them. */
  lemma InParts(a: seq<Line>, b: seq<Line>, c: seq<Line>, x: Line)
    ensures x in a + b + c <==> x in a || x in b || x in c
  {
  }

  /** The decision both assessors share: contradictory indications first,
      then more than one long marker, then more than one short marker. */
  function Decide(longMarkers: nat, shortMarkers: nat): (bool, bool) {
    if longMarkers > 0 && shortMarkers > 0 then (false, false)
    else if longMarkers > 1 then (true, false)
    else if shortMarkers > 1 then (false, true)
    else (false, false)
  }

  /** A verdict needs at least two markers of its kind and none of the
      other, so a single marker gives no verdict and the two verdicts
      exclude each other. */
  lemma DecideNeedsTwoAndNoContrary(longMarkers: nat, shortMarkers: nat)
    ensures Decide(longMarkers, shortMarkers).0 <==> longMarkers > 1 && shortMarkers == 0
    ensures Decide(longMarkers, shortMarkers).1 <==> shortMarkers > 1 && longMarkers == 0
    ensures !(Decide(longMarkers, shortMarkers).0 && Decide(longMarkers, shortMarkers).1)
  {
  }

  /** The indication lines of `first_syllable_assessment`: one per kind
      that has markers. */
  function FirstIndications(longMarkers: nat, longLocs: seq<nat>, shortMarkers: nat, shortLocs: seq<nat>)
    : (lines: seq<Line>)
    ensures Indication(LongFirst, longMarkers, longLocs) in lines <==> longMarkers > 0
    ensures Indication(ShortFirst, shortMarkers, shortLocs) in lines <==> shortMarkers > 0
    ensures forall l :: l in lines ==>
              l == Indication(LongFirst, longMarkers, longLocs) || l == Indication(ShortFirst, shortMarkers, shortLocs)
    ensures |lines| == (if longMarkers > 0 then 1 else 0) + (if shortMarkers > 0 then 1 else 0)
    ensures longMarkers > 0 ==> lines[0] == Indication(LongFirst, longMarkers, longLocs)
    ensures Contradictions(lines) == 0 && Cautions(lines) == 0
  {
    var long := Indication(LongFirst, longMarkers, longLocs);
    var short := Indication(ShortFirst, shortMarkers, shortLocs);
    CountsOfShortReports(long, short);
    CountsOfShortReports(short, long);
    (if longMarkers > 0 then [long] else []) + (if shortMarkers > 0 then [short] else [])
  }

  /** The lines the conclusion of `first_syllable_assessment` can hold. */
  const FirstConclusionLines: set<Line> :=
    {Contradiction(FirstSyllable), Conclusion(ProbablyRamal), Conclusion(AppearsLong(FirstSyllable)),
     Conclusion(AppearsShort(FirstSyllable)), Conclusion(Insufficient(FirstSyllable)), Conclusion(ShortIsEasierToDetect)}

  /** The conclusion lines of `first_syllable_assessment`. */
  function FirstConclusion(longMarkers: nat, shortMarkers: nat): (lines: seq<Line>)
    ensures Conclusion(AppearsLong(FirstSyllable)) in lines <==> longMarkers > 1 && shortMarkers == 0
    ensures Conclusion(AppearsShort(FirstSyllable)) in lines <==> shortMarkers > 1 && longMarkers == 0
    ensures Conclusion(ProbablyRamal) in lines <==> longMarkers > 0 && shortMarkers > 0
    ensures Conclusion(Insufficient(FirstSyllable)) in lines <==> longMarkers <= 1 && shortMarkers <= 1 && (longMarkers == 0 || shortMarkers == 0)
    ensures Conclusion(ShortIsEasierToDetect) in lines <==> Conclusion(Insufficient(FirstSyllable)) in lines
    ensures forall l :: l in lines ==> l in FirstConclusionLines
    ensures |lines| == (if (longMarkers > 0 && shortMarkers > 0) || (longMarkers <= 1 && shortMarkers <= 1) then 2 else 1)
    ensures |lines| == 2 ==> lines[1] == Conclusion(ProbablyRamal) || lines[1] == Conclusion(ShortIsEasierToDetect)
    ensures Contradictions(lines) == (if longMarkers > 0 && shortMarkers > 0 then 1 else 0)
    ensures Cautions(lines) == 0
  {
    CountsOfShortReports(Contradiction(FirstSyllable), Conclusion(ProbablyRamal));
    CountsOfShortReports(Conclusion(Insufficient(FirstSyllable)), Conclusion(ShortIsEasierToDetect));
    CountsOfShortReports(Conclusion(AppearsLong(FirstSyllable)), Caution);
    CountsOfShortReports(Conclusion(AppearsShort(FirstSyllable)), Caution);
    if longMarkers > 0 && shortMarkers > 0 then
      [Contradiction(FirstSyllable), Conclusion(ProbablyRamal)]
    else if longMarkers > 1 then [Conclusion(AppearsLong(FirstSyllable))]
    else if shortMarkers > 1 then [Conclusion(AppearsShort(FirstSyllable))]
    else [Conclusion(Insufficient(FirstSyllable)), Conclusion(ShortIsEasierToDetect)]
  }

  /** `first_syllable_assessment` */
  function FirstSyllableAssessment(longMarkers: nat, longLocs: seq<nat>, shortMarkers: nat, shortLocs: seq<nat>)
    : (v: Verdict)
    ensures v.long <==> longMarkers > 1 && shortMarkers == 0
    ensures v.short <==> shortMarkers > 1 && longMarkers == 0
    ensures |v.report| > 0 && v.report[0] == Heading(FirstSyllable)
    ensures Indication(LongFirst, longMarkers, longLocs) in v.report <==> longMarkers > 0
    ensures Indication(ShortFirst, shortMarkers, shortLocs) in v.report <==> shortMarkers > 0
    ensures Conclusion(AppearsLong(FirstSyllable)) in v.report <==> v.long
    ensures Conclusion(AppearsShort(FirstSyllable)) in v.report <==> v.short
    ensures Conclusion(ProbablyRamal) in v.report <==> longMarkers > 0 && shortMarkers > 0
    ensures Conclusion(Insufficient(FirstSyllable)) in v.report <==> !v.long && !v.short && (longMarkers == 0 || shortMarkers == 0)
    ensures Contradictions(v.report) == if longMarkers > 0 && shortMarkers > 0 then 1 else 0
    ensures Cautions(v.report) == 0
    ensures Conclusion(ShortIsEasierToDetect) in v.report <==> Conclusion(Insufficient(FirstSyllable)) in v.report
    ensures forall l :: l in v.report ==>
              || l == Heading(FirstSyllable) || l == Indication(LongFirst, longMarkers, longLocs)
              || l == Indication(ShortFirst, shortMarkers, shortLocs) || l in FirstConclusionLines
    ensures forall i :: 1 <= i < |v.report| ==>
              (v.report[i].Indication? <==> i <= (if longMarkers > 0 then 1 else 0) + (if shortMarkers > 0 then 1 else 0))
    ensures v.report[|v.report| - 1].Conclusion?
    ensures |v.report| == 1 + (if longMarkers > 0 then 1 else 0) + (if shortMarkers > 0 then 1 else 0)
                         + (if (longMarkers > 0 && shortMarkers > 0) || (longMarkers <= 1 && shortMarkers <= 1) then 2 else 1)
  {
    DecideNeedsTwoAndNoContrary(longMarkers, shortMarkers);
    FirstReportLines(longMarkers, longLocs, shortMarkers, shortLocs);
    FirstReportShape(longMarkers, longLocs, shortMarkers, shortLocs);
    Verdict(Decide(longMarkers, shortMarkers).0, Decide(longMarkers, shortMarkers).1,
            FirstReport(longMarkers, longLocs, shortMarkers, shortLocs))
  }

  /** How many lines `second_syllable_assessment` prints for a kind with
      `markers` markers. */
  function LinesPerKind(markers: nat): nat {
    if markers == 0 then 0 else if markers == 1 then 2 else 1
  }

  /** The lines `second_syllable_assessment` prints for one kind: the
      indication, and a caution when it rests on a single marker. */
  function SecondIndication(kind: Kind, markers: nat, locs: seq<nat>): (lines: seq<Line>)
    ensures Indication(kind, markers, locs) in lines <==> markers > 0
    ensures Caution in lines <==> markers == 1
    ensures forall l :: l in lines ==> l == Indication(kind, markers, locs) || l == Caution
    ensures |lines| == LinesPerKind(markers)
    ensures markers > 0 ==> lines[0] == Indication(kind, markers, locs)
    ensures Contradictions(lines) == 0
    ensures Cautions(lines) == (if markers == 1 then 1 else 0)
  {
    CountsOfShortReports(Indication(kind, markers, locs), Caution);
    if markers == 0 then []
    else [Indication(kind, markers, locs)] + (if markers == 1 then [Caution] else [])
  }

  /** The lines the conclusion of `second_syllable_assessment` can hold. */
  const SecondConclusionLines: set<Line> :=
    {Contradiction(SecondSyllable), Conclusion(AppearsLong(SecondSyllable)),
     Conclusion(AppearsShort(SecondSyllable)), Conclusion(Insufficient(SecondSyllable))}

  /** The conclusion line of `second_syllable_assessment`. */
  function SecondConclusion(longMarkers: nat, shortMarkers: nat): (lines: seq<Line>)
    ensures Conclusion(AppearsLong(SecondSyllable)) in lines <==> longMarkers > 1 && shortMarkers == 0
    ensures Conclusion(AppearsShort(SecondSyllable)) in lines <==> shortMarkers > 1 && longMarkers == 0
    ensures Conclusion(Insufficient(SecondSyllable)) in lines <==> longMarkers <= 1 && shortMarkers <= 1 && (longMarkers == 0 || shortMarkers == 0)
    ensures Contradiction(SecondSyllable) in lines <==> longMarkers > 0 && shortMarkers > 0
    ensures forall l :: l in lines ==> l in SecondConclusionLines
    ensures |lines| == 1
    ensures Contradictions(lines) == (if longMarkers > 0 && shortMarkers > 0 then 1 else 0)
    ensures Cautions(lines) == 0
  {
    CountsOfShortReports(Contradiction(SecondSyllable), Caution);
    CountsOfShortReports(Conclusion(AppearsLong(SecondSyllable)), Caution);
    CountsOfShortReports(Conclusion(AppearsShort(SecondSyllable)), Caution);
    CountsOfShortReports(Conclusion(Insufficient(SecondSyllable)), Caution);
    if longMarkers > 0 && shortMarkers > 0 then [Contradiction(SecondSyllable)]
    else if longMarkers > 1 then [Conclusion(AppearsLong(SecondSyllable))]
    else if shortMarkers > 1 then [Conclusion(AppearsShort(SecondSyllable))]
    else [Conclusion(Insufficient(SecondSyllable))]
  }

  /** `second_syllable_assessment` */
  function SecondSyllableAssessment(longMarkers: nat, longLocs: seq<nat>, shortMarkers: nat, shortLocs: seq<nat>)
    : (v: Verdict)
    ensures v.long <==> longMarkers > 1 && shortMarkers == 0
    ensures v.short <==> shortMarkers > 1 && longMarkers == 0
    ensures |v.report| > 0 && v.report[0] == Heading(SecondSyllable)
    ensures Indication(LongSecond, longMarkers, longLocs) in v.report <==> longMarkers > 0
    ensures Indication(ShortSecond, shortMarkers, shortLocs) in v.report <==> shortMarkers > 0
    ensures Conclusion(AppearsLong(SecondSyllable)) in v.report <==> v.long
    ensures Conclusion(AppearsShort(SecondSyllable)) in v.report <==> v.short
    ensures Conclusion(Insufficient(SecondSyllable)) in v.report <==> !v.long && !v.short && (longMarkers == 0 || shortMarkers == 0)
    ensures Contradictions(v.report) == if longMarkers > 0 && shortMarkers > 0 then 1 else 0
    ensures Cautions(v.report) == (if longMarkers == 1 then 1 else 0) + (if shortMarkers == 1 then 1 else 0)
    ensures forall l :: l in v.report ==>
              || l == Heading(SecondSyllable) || l == Indication(LongSecond, longMarkers, longLocs)
              || l == Indication(ShortSecond, shortMarkers, shortLocs) || l == Caution
              || l in SecondConclusionLines
    ensures forall i :: 1 <= i < |v.report| ==>
              (v.report[i].Indication? || v.report[i] == Caution <==> i <= LinesPerKind(longMarkers) + LinesPerKind(shortMarkers))
    ensures forall i :: 0 <= i < |v.report| && v.report[i] == Caution ==>
              0 < i && v.report[i - 1].Indication? && v.report[i - 1].markers == 1
    ensures v.report[|v.report| - 1] in SecondConclusionLines
    ensures |v.report| == 2 + LinesPerKind(longMarkers) + LinesPerKind(shortMarkers)
  {
    DecideNeedsTwoAndNoContrary(longMarkers, shortMarkers);
    SecondReportLines(longMarkers, longLocs, shortMarkers, shortLocs);
    SecondReportCounts(longMarkers, longLocs, shortMarkers, shortLocs);
    SecondReportShape(longMarkers, longLocs, shortMarkers, shortLocs);
    Verdict(Decide(longMarkers, shortMarkers).0, Decide(longMarkers, shortMarkers).1,
            SecondReport(longMarkers, longLocs, shortMarkers, shortLocs))
  }

  /** The report of `first_syllable_assessment`: the heading, the
      indications, the conclusion. */
  function FirstReport(longMarkers: nat, longLocs: seq<nat>, shortMarkers: nat, shortLocs: seq<nat>): seq<Line> {
    [Heading(FirstSyllable)] + FirstIndications(longMarkers, longLocs, shortMarkers, shortLocs)
      + FirstConclusion(longMarkers, shortMarkers)
  }

  /** What the report of `first_syllable_assessment` holds. */
  lemma FirstReportLines(longMarkers: nat, longLocs: seq<nat>, shortMarkers: nat, shortLocs: seq<nat>)
    ensures var report := FirstReport(longMarkers, longLocs, shortMarkers, shortLocs);
            && |report| > 0 && report[0] == Heading(FirstSyllable)
            && (Indication(LongFirst, longMarkers, longLocs) in report <==> longMarkers > 0)
            && (Indication(ShortFirst, shortMarkers, shortLocs) in report <==> shortMarkers > 0)
            && (Conclusion(AppearsLong(FirstSyllable)) in report <==> longMarkers > 1 && shortMarkers == 0)
            && (Conclusion(AppearsShort(FirstSyllable)) in report <==> shortMarkers > 1 && longMarkers == 0)
            && (Conclusion(ProbablyRamal) in report <==> longMarkers > 0 && shortMarkers > 0)
            && (Conclusion(Insufficient(FirstSyllable)) in report
                <==> longMarkers <= 1 && shortMarkers <= 1 && (longMarkers == 0 || shortMarkers == 0))
            && Contradictions(report) == (if longMarkers > 0 && shortMarkers > 0 then 1 else 0)
            && Cautions(report) == 0
  {
    var head, conclusion := [Heading(FirstSyllable)], FirstConclusion(longMarkers, shortMarkers);
    var indications := FirstIndications(longMarkers, longLocs, shortMarkers, shortLocs);
    CountsOfShortReports(Heading(FirstSyllable), Caution);
    CountsAppend(head, indications);
    CountsAppend(head + indications, conclusion);
    InParts(head, indications, conclusion, Indication(LongFirst, longMarkers, longLocs));
    InParts(head, indications, conclusion, Indication(ShortFirst, shortMarkers, shortLocs));
    InParts(head, indications, conclusion, Conclusion(AppearsLong(FirstSyllable)));
    InParts(head, indications, conclusion, Conclusion(AppearsShort(FirstSyllable)));
    InParts(head, indications, conclusion, Conclusion(ProbablyRamal));
    InParts(head, indications, conclusion, Conclusion(Insufficient(FirstSyllable)));
  }

  /** Which lines the report of `first_syllable_assessment` can hold, and
      in what order: the heading, the indications, then the conclusion. */
  lemma FirstReportShape(longMarkers: nat, longLocs: seq<nat>, shortMarkers: nat, shortLocs: seq<nat>)
    ensures var report := FirstReport(longMarkers, longLocs, shortMarkers, shortLocs);
            var k := (if longMarkers > 0 then 1 else 0) + (if shortMarkers > 0 then 1 else 0);
            && |report| == 1 + k + (if (longMarkers > 0 && shortMarkers > 0) || (longMarkers <= 1 && shortMarkers <= 1) then 2 else 1)
            && (forall i :: 1 <= i < |report| ==> (report[i].Indication? <==> i <= k))
            && (forall l :: l in report ==>
                  || l == Heading(FirstSyllable) || l == Indication(LongFirst, longMarkers, longLocs)
                  || l == Indication(ShortFirst, shortMarkers, shortLocs) || l in FirstConclusionLines)
            && (Conclusion(ShortIsEasierToDetect) in report <==> Conclusion(Insufficient(FirstSyllable)) in report)
            && report[|report| - 1].Conclusion?
  {
    var head, conclusion := [Heading(FirstSyllable)], FirstConclusion(longMarkers, shortMarkers);
    var indications := FirstIndications(longMarkers, longLocs, shortMarkers, shortLocs);
    var report := head + indications + conclusion;
    forall i | 1 <= i < |report|
      ensures report[i].Indication? <==> i <= |indications|
    {
      if i <= |indications| {
        assert report[i] == indications[i - 1];
      } else {
        assert report[i] == conclusion[i - 1 - |indications|];
      }
    }
    InParts(head, indications, conclusion, Conclusion(ShortIsEasierToDetect));
    InParts(head, indications, conclusion, Conclusion(Insufficient(FirstSyllable)));
    assert report[|report| - 1] == conclusion[|conclusion| - 1];
    assert conclusion[|conclusion| - 1] in conclusion;
  }

  /** The report of `second_syllable_assessment`: the heading, the lines of
      each kind, the conclusion. */
  function SecondReport(longMarkers: nat, longLocs: seq<nat>, shortMarkers: nat, shortLocs: seq<nat>): seq<Line> {
    [Heading(SecondSyllable)]
      + (SecondIndication(LongSecond, longMarkers, longLocs) + SecondIndication(ShortSecond, shortMarkers, shortLocs))
      + SecondConclusion(longMarkers, shortMarkers)
  }

  /** Which indications and conclusions the report of
      `second_syllable_assessment` holds. */
  lemma SecondReportLines(longMarkers: nat, longLocs: seq<nat>, shortMarkers: nat, shortLocs: seq<nat>)
    ensures var report := SecondReport(longMarkers, longLocs, shortMarkers, shortLocs);
            && (Indication(LongSecond, longMarkers, longLocs) in report <==> longMarkers > 0)
            && (Indication(ShortSecond, shortMarkers, shortLocs) in report <==> shortMarkers > 0)
            && (Conclusion(AppearsLong(SecondSyllable)) in report <==> longMarkers > 1 && shortMarkers == 0)
            && (Conclusion(AppearsShort(SecondSyllable)) in report <==> shortMarkers > 1 && longMarkers == 0)
            && (Conclusion(Insufficient(SecondSyllable)) in report
                <==> longMarkers <= 1 && shortMarkers <= 1 && (longMarkers == 0 || shortMarkers == 0))
  {
    var head, conclusion := [Heading(SecondSyllable)], SecondConclusion(longMarkers, shortMarkers);
    var indications := SecondIndication(LongSecond, longMarkers, longLocs)
                       + SecondIndication(ShortSecond, shortMarkers, shortLocs);
    InParts(head, indications, conclusion, Indication(LongSecond, longMarkers, longLocs));
    InParts(head, indications, conclusion, Indication(ShortSecond, shortMarkers, shortLocs));
    InParts(head, indications, conclusion, Conclusion(AppearsLong(SecondSyllable)));
    InParts(head, indications, conclusion, Conclusion(AppearsShort(SecondSyllable)));
    InParts(head, indications, conclusion, Conclusion(Insufficient(SecondSyllable)));
  }

  /** The heading, contradictions and cautions of the report of
      `second_syllable_assessment`. */
  lemma SecondReportCounts(longMarkers: nat, longLocs: seq<nat>, shortMarkers: nat, shortLocs: seq<nat>)
    ensures var report := SecondReport(longMarkers, longLocs, shortMarkers, shortLocs);
            && |report| > 0 && report[0] == Heading(SecondSyllable)
            && Contradictions(report) == (if longMarkers > 0 && shortMarkers > 0 then 1 else 0)
            && Cautions(report) == (if longMarkers == 1 then 1 else 0) + (if shortMarkers == 1 then 1 else 0)
  {
    var head, conclusion := [Heading(SecondSyllable)], SecondConclusion(longMarkers, shortMarkers);
    var longLines := SecondIndication(LongSecond, longMarkers, longLocs);
    var shortLines := SecondIndication(ShortSecond, shortMarkers, shortLocs);
    CountsOfShortReports(Heading(SecondSyllable), Caution);
    CountsAppend(longLines, shortLines);
    CountsAppend(head, longLines + shortLines);
    CountsAppend(head + (longLines + shortLines), conclusion);
  }

  /** Which lines the report of `second_syllable_assessment` can hold, and
      in what order: the heading, the indications with their cautions, then
      the conclusion; a caution always follows an indication resting on one
      marker. */
  lemma SecondReportShape(longMarkers: nat, longLocs: seq<nat>, shortMarkers: nat, shortLocs: seq<nat>)
    ensures var report := SecondReport(longMarkers, longLocs, shortMarkers, shortLocs);
            var k := LinesPerKind(longMarkers) + LinesPerKind(shortMarkers);
            && |report| == 2 + k
            && (forall i :: 1 <= i < |report| ==> (report[i].Indication? || report[i] == Caution <==> i <= k))
            && (forall i :: 0 <= i < |report| && report[i] == Caution ==>
                  0 < i && report[i - 1].Indication? && report[i - 1].markers == 1)
            && (forall l :: l in report ==>
                  || l == Heading(SecondSyllable) || l == Indication(LongSecond, longMarkers, longLocs)
                  || l == Indication(ShortSecond, shortMarkers, shortLocs) || l == Caution
                  || l in SecondConclusionLines)
            && report[|report| - 1] in SecondConclusionLines
  {
    var head, conclusion := [Heading(SecondSyllable)], SecondConclusion(longMarkers, shortMarkers);
    var longLines := SecondIndication(LongSecond, longMarkers, longLocs);
    var shortLines := SecondIndication(ShortSecond, shortMarkers, shortLocs);
    var indications := longLines + shortLines;
    var report := head + indications + conclusion;
    forall i | 1 <= i < |report|
      ensures report[i].Indication? || report[i] == Caution <==> i <= |indications|
      ensures report[i] == Caution ==> report[i - 1].Indication? && report[i - 1].markers == 1
    {
      if i <= |longLines| {
        assert report[i] == longLines[i - 1];
      } else if i <= |indications| {
        assert report[i] == shortLines[i - 1 - |longLines|];
        if report[i] == Caution {
          assert report[i - 1] == shortLines[i - 2 - |longLines|];
        }
      } else {
        assert report[i] == conclusion[0];
        assert conclusion[0] in conclusion;
      }
    }
    assert report[0] == Heading(SecondSyllable);
    assert report[|report| - 1] == conclusion[0];
    assert conclusion[0] in conclusion;
    forall l | l in report
      ensures || l == Heading(SecondSyllable) || l == Indication(LongSecond, longMarkers, longLocs)
              || l == Indication(ShortSecond, shortMarkers, shortLocs) || l == Caution
              || l in SecondConclusionLines
    {
      InParts(head, indications, conclusion, l);
    }
  }

  function AsGuidance(advice: seq<D.Advice>): (lines: seq<Line>)
    ensures |lines| == |advice|
    ensures forall i :: 0 <= i < |advice| ==> lines[i] == Guidance(advice[i])
  {
    if advice == [] then [] else AsGuidance(advice[..|advice| - 1]) + [Guidance(advice[|advice| - 1])]
  }

  /** `final_assessment`: the heading, then the guidance of the row the six
      flags select. */
  function FinalAssessment(longMeter: bool, shortMeter: bool, longFirst: bool, shortFirst: bool,
                           longSecond: bool, shortSecond: bool): (report: seq<Line>)
    ensures |report| > 1 && report[0] == Heading(Overall)
    ensures report[1..] == AsGuidance(D.Guidance(D.Choose(longMeter, shortMeter, longFirst, shortFirst,
                                                          longSecond, shortSecond)))
  {
    D.RowSizes(D.Choose(longMeter, shortMeter, longFirst, shortFirst, longSecond, shortSecond));
    [Heading(Overall)] + AsGuidance(D.Guidance(D.Choose(longMeter, shortMeter, longFirst, shortFirst,
                                                        longSecond, shortSecond)))
  }

  /** With exactly one meter flag set, as `analyze_meter_length` leaves
      them, the overall assessment never says that the meter length is
      unclear. */
  lemma OneMeterFlagDrawsConclusions(longMeter: bool, shortMeter: bool, longFirst: bool, shortFirst: bool,
                                     longSecond: bool, shortSecond: bool)
    requires longMeter != shortMeter
    ensures Guidance(D.LengthUnclear)
            !in FinalAssessment(longMeter, shortMeter, longFirst, shortFirst, longSecond, shortSecond)
  {
    var o := D.Choose(longMeter, shortMeter, longFirst, shortFirst, longSecond, shortSecond);
    var report := FinalAssessment(longMeter, shortMeter, longFirst, shortFirst, longSecond, shortSecond);
    D.OnlyUnclearRowIsUnclear(o);
    assert report == [Heading(Overall)] + report[1..];
  }
}
