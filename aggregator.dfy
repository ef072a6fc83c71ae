/** The accumulator: `SyllableAnalysis` with its four counters and four
    location lists, `analyze_syllables` recording one hemistich's markers in
    it, and `analyze_hemistichs` folding over at most forty hemistichs while
    summing their letters. The counters and lists of the class are specified
    by the value `Tally`, whose properties are proved as lemmas. */
module Aggregator {
  import opened Wrappers
  import opened Normalizer
  import opened Detectors

  /** `MAX_HEMISTICHS`: only the first forty lines are analysed. */
  const MaxHemistichs: nat := 40

  /** The eight fields of `SyllableAnalysis` as a value. A location list holds
      the 1-based numbers of the hemistichs that gave a marker, in the order
      they were recorded. */
  datatype Tally = Tally(
    longFirstMarkers: nat, longFirstLocations: seq<nat>,
    shortFirstMarkers: nat, shortFirstLocations: seq<nat>,
    longSecondMarkers: nat, longSecondLocations: seq<nat>,
    shortSecondMarkers: nat, shortSecondLocations: seq<nat>)
  {
    function Markers(k: Kind): nat {
      match k
      case LongFirst => longFirstMarkers
      case ShortFirst => shortFirstMarkers
      case LongSecond => longSecondMarkers
      case ShortSecond => shortSecondMarkers
    }

    function Locations(k: Kind): seq<nat> {
      match k
      case LongFirst => longFirstLocations
      case ShortFirst => shortFirstLocations
      case LongSecond => longSecondLocations
      case ShortSecond => shortSecondLocations
    }

    /** The `add_*` method for kind `k`. */
    function Add(k: Kind, hemNo: nat): Tally {
      match k
      case LongFirst =>
        this.(longFirstMarkers := longFirstMarkers + 1, longFirstLocations := longFirstLocations + [hemNo])
      case ShortFirst =>
        this.(shortFirstMarkers := shortFirstMarkers + 1, shortFirstLocations := shortFirstLocations + [hemNo])
      case LongSecond =>
        this.(longSecondMarkers := longSecondMarkers + 1, longSecondLocations := longSecondLocations + [hemNo])
      case ShortSecond =>
        this.(shortSecondMarkers := shortSecondMarkers + 1, shortSecondLocations := shortSecondLocations + [hemNo])
    }

    /** The markers `ks` of hemistich `hemNo`, recorded one after the other. */
    function AddAll(ks: seq<Kind>, hemNo: nat): Tally
      decreases |ks|
    {
      if ks == [] then this else AddAll(ks[..|ks| - 1], hemNo).Add(ks[|ks| - 1], hemNo)
    }

    /** Each counter is the length of its location list. */
    predicate Consistent() {
      forall k: Kind :: Markers(k) == |Locations(k)|
    }
  }

  /** `SyllableAnalysis::default()` */
  const EmptyTally := Tally(0, [], 0, [], 0, [], 0, [])

  /** `n` repeated `c` times. */
  function Repeat(n: nat, c: nat): (r: seq<nat>)
    ensures |r| == c && forall i :: 0 <= i < c ==> r[i] == n
  {
    if c == 0 then [] else Repeat(n, c - 1) + [n]
  }

  /** Adding a marker of kind `k` raises that counter by one and appends the
      hemistich number to that list; the other three kinds are untouched. */
  lemma AddTouchesOneKind(t: Tally, k: Kind, hemNo: nat, j: Kind)
    ensures t.Add(k, hemNo).Markers(j) == t.Markers(j) + (if j == k then 1 else 0)
    ensures t.Add(k, hemNo).Locations(j) == t.Locations(j) + (if j == k then [hemNo] else [])
  {
  }

  /** Recording a hemistich's markers raises each counter by the number of
      markers of its kind and appends that many copies of the hemistich
      number to its list. */
  lemma {:induction false} AddAllCounts(t: Tally, ks: seq<Kind>, hemNo: nat, k: Kind)
    ensures t.AddAll(ks, hemNo).Markers(k) == t.Markers(k) + Count(ks, k)
    ensures t.AddAll(ks, hemNo).Locations(k) == t.Locations(k) + Repeat(hemNo, Count(ks, k))
    decreases |ks|
  {
    if ks != [] {
      var init, last := ks[..|ks| - 1], ks[|ks| - 1];
      assert ks == init + [last];
      AddAllCounts(t, init, hemNo, k);
      AddTouchesOneKind(t.AddAll(init, hemNo), last, hemNo, k);
      assert multiset(ks) == multiset(init) + multiset{last};
    }
  }

  lemma {:induction false} AddAllAppend(t: Tally, a: seq<Kind>, b: seq<Kind>, hemNo: nat)
    ensures t.AddAll(a + b, hemNo) == t.AddAll(a, hemNo).AddAll(b, hemNo)
    decreases |b|
  {
    if b == [] {
      assert a + b == a;
    } else {
      var init, last := b[..|b| - 1], b[|b| - 1];
      assert (a + b)[..|a + b| - 1] == a + init;
      AddAllAppend(t, a, init, hemNo);
    }
  }

  /** The mutable `SyllableAnalysis`. */
  class SyllableAnalysis {
    var longFirstMarkers: nat
    var longFirstLocations: seq<nat>
    var shortFirstMarkers: nat
    var shortFirstLocations: seq<nat>
    var longSecondMarkers: nat
    var longSecondLocations: seq<nat>
    var shortSecondMarkers: nat
    var shortSecondLocations: seq<nat>

    /** The current contents of the eight fields. */
    function Current(): Tally
      reads this
    {
      Tally(longFirstMarkers, longFirstLocations, shortFirstMarkers, shortFirstLocations,
            longSecondMarkers, longSecondLocations, shortSecondMarkers, shortSecondLocations)
    }

    constructor()
      ensures Current() == EmptyTally
    {
      longFirstMarkers, longFirstLocations := 0, [];
      shortFirstMarkers, shortFirstLocations := 0, [];
      longSecondMarkers, longSecondLocations := 0, [];
      shortSecondMarkers, shortSecondLocations := 0, [];
    }

    method AddLongFirst(hemNo: nat)
      modifies this
      ensures Current() == old(Current()).Add(LongFirst, hemNo)
    {
      longFirstMarkers := longFirstMarkers + 1;
      longFirstLocations := longFirstLocations + [hemNo];
    }

    method AddShortFirst(hemNo: nat)
      modifies this
      ensures Current() == old(Current()).Add(ShortFirst, hemNo)
    {
      shortFirstMarkers := shortFirstMarkers + 1;
      shortFirstLocations := shortFirstLocations + [hemNo];
    }

    method AddLongSecond(hemNo: nat)
      modifies this
      ensures Current() == old(Current()).Add(LongSecond, hemNo)
    {
      longSecondMarkers := longSecondMarkers + 1;
      longSecondLocations := longSecondLocations + [hemNo];
    }

    method AddShortSecond(hemNo: nat)
      modifies this
      ensures Current() == old(Current()).Add(ShortSecond, hemNo)
    {
      shortSecondMarkers := shortSecondMarkers + 1;
      shortSecondLocations := shortSecondLocations + [hemNo];
    }
  }

  /** `analyze_syllables`: runs the four detectors and the clue detector on
      one hemistich and records what they find, in the source's order. */
  method AnalyzeSyllables(hemReconst: seq<char>, hemNospace: seq<char>, hemNo: nat, analysis: SyllableAnalysis)
    modifies analysis
    ensures analysis.Current() == old(analysis.Current()).AddAll(HemistichMarkers(hemReconst, hemNospace), hemNo)
  {
    ghost var t0 := analysis.Current();
    ghost var added: seq<Kind> := [];
    var longFirst, shortFirst := LongFirstSyllable(hemReconst), ShortFirstSyllable(hemReconst);
    var longSecond, shortSecond := LongSecondSyllable(hemReconst), ShortSecondSyllable(hemReconst, hemNospace);
    var clue := InitialClues(hemReconst);
    if longFirst {
      analysis.AddLongFirst(hemNo);
      RecordOneMore(t0, added, LongFirst, hemNo);
      added := added + [LongFirst];
    }
    assert added == MarkerIf(longFirst, LongFirst) && analysis.Current() == t0.AddAll(added, hemNo);
    if shortFirst {
      analysis.AddShortFirst(hemNo);
      RecordOneMore(t0, added, ShortFirst, hemNo);
      added := added + [ShortFirst];
    }
    assert added == MarkerIf(longFirst, LongFirst) + MarkerIf(shortFirst, ShortFirst);
    assert analysis.Current() == t0.AddAll(added, hemNo);
    if longSecond {
      analysis.AddLongSecond(hemNo);
      RecordOneMore(t0, added, LongSecond, hemNo);
      added := added + [LongSecond];
    }
    assert added == MarkerIf(longFirst, LongFirst) + MarkerIf(shortFirst, ShortFirst) + MarkerIf(longSecond, LongSecond);
    assert analysis.Current() == t0.AddAll(added, hemNo);
    if shortSecond {
      analysis.AddShortSecond(hemNo);
      RecordOneMore(t0, added, ShortSecond, hemNo);
      added := added + [ShortSecond];
    }
    assert added == MarkerIf(longFirst, LongFirst) + MarkerIf(shortFirst, ShortFirst) + MarkerIf(longSecond, LongSecond)
                    + MarkerIf(shortSecond, ShortSecond);
    assert analysis.Current() == t0.AddAll(added, hemNo);
    RecordClue(clue, hemNo, analysis);
    AddAllAppend(t0, added, ClueMarkers(clue), hemNo);
  }

  /** The `match` on the clue in `analyze_syllables`: each clue records its
      fixed pair of markers. */
  method RecordClue(clue: Option<Clue>, hemNo: nat, analysis: SyllableAnalysis)
    modifies analysis
    ensures analysis.Current() == old(analysis.Current()).AddAll(ClueMarkers(clue), hemNo)
  {
    ghost var t0 := analysis.Current();
    match clue {
      case None =>
      case Some(Kasi) | Some(Yaki) =>
        analysis.AddShortFirst(hemNo);
        analysis.AddLongSecond(hemNo);
        PairRecorded(t0, ShortFirst, LongSecond, hemNo);
      case Some(Chist) | Some(Dust) | Some(Nist) | Some(HamChu) | Some(Kist) =>
        analysis.AddLongFirst(hemNo);
        analysis.AddShortSecond(hemNo);
        PairRecorded(t0, LongFirst, ShortSecond, hemNo);
      case Some(Chandan) =>
        analysis.AddLongFirst(hemNo);
        analysis.AddLongSecond(hemNo);
        PairRecorded(t0, LongFirst, LongSecond, hemNo);
    }
  }

  lemma PairRecorded(t: Tally, a: Kind, b: Kind, hemNo: nat)
    ensures t.AddAll([a, b], hemNo) == t.Add(a, hemNo).Add(b, hemNo)
  {
    assert [a, b][..1] == [a];
    assert [a][..0] == [];
    assert t.AddAll([a], hemNo) == t.AddAll([], hemNo).Add(a, hemNo);
    assert t.AddAll([a, b], hemNo) == t.AddAll([a], hemNo).Add(b, hemNo);
  }

  /** Recording one more marker of kind `k` after the markers `added`
      extends the run of `add_*` calls by that marker. */
  lemma RecordOneMore(t0: Tally, added: seq<Kind>, k: Kind, hemNo: nat)
    ensures t0.AddAll(added + [k], hemNo) == t0.AddAll(added, hemNo).Add(k, hemNo)
  {
    assert (added + [k])[..|added|] == added;
  }

  // The fold over hemistichs

  /** Each line mapped by `f`, or the error of the first line on which `f`
      fails: the shape of the loop of `analyze_hemistichs`, which returns at
      the first error. */
  function MapUntilError<E>(f: string -> Result<seq<char>, E>, lines: seq<string>): (r: Result<seq<seq<char>>, E>)
    ensures r.Ok? ==> |r.value| == |lines|
  {
    if lines == [] then Ok([])
    else
      match MapUntilError(f, lines[..|lines| - 1])
      case Err(e) => Err(e)
      case Ok(outs) =>
        match f(lines[|lines| - 1])
        case Err(e) => Err(e)
        case Ok(out) => Ok(outs + [out])
  }

  /** Every hemistich reconstructed, or the error of the first that fails. */
  function ReconstructAll(hems: seq<string>): Result<seq<seq<char>>, ReconstructionError> {
    MapUntilError(Reconstruct, hems)
  }

  /** What the analysis holds after the reconstructed hemistichs `recs`,
      numbered from 1. */
  function TallyOf(recs: seq<seq<char>>): Tally {
    if recs == [] then EmptyTally
    else
      var h := recs[|recs| - 1];
      TallyOf(recs[..|recs| - 1]).AddAll(HemistichMarkers(h, RemoveSpaces(h)), |recs|)
  }

  /** The letters, spaces not counted, of the reconstructed hemistichs. */
  function LettersOf(recs: seq<seq<char>>): nat {
    if recs == [] then 0 else LettersOf(recs[..|recs| - 1]) + |RemoveSpaces(recs[|recs| - 1])|
  }

  /** The fields of `MeterAnalysis` other than the report text. */
  class MeterAnalysis {
    var longMeter: bool
    var shortMeter: bool
    var totalLetters: nat
    const syllableAnalysis: SyllableAnalysis

    constructor()
      ensures !longMeter && !shortMeter && totalLetters == 0
      ensures fresh(syllableAnalysis) && syllableAnalysis.Current() == EmptyTally
    {
      longMeter, shortMeter, totalLetters := false, false, 0;
      syllableAnalysis := new SyllableAnalysis();
    }
  }

  /** `analyze_hemistichs`: reconstructs the first forty hemistichs in turn,
      stopping at the first that fails, and records the letters and markers
      of each. */
  method AnalyzeHemistichs(hemistichs: seq<string>) returns (r: Result<MeterAnalysis, ReconstructionError>)
    ensures match ReconstructAll(hemistichs[..Min(|hemistichs|, MaxHemistichs)])
            case Err(e) => r == Err(e)
            case Ok(recs) =>
              && r.Ok? && fresh(r.value) && fresh(r.value.syllableAnalysis)
              && !r.value.longMeter && !r.value.shortMeter
              && r.value.totalLetters == LettersOf(recs)
              && r.value.syllableAnalysis.Current() == TallyOf(recs)
  {
    var analysis := new MeterAnalysis();
    var n := Min(|hemistichs|, MaxHemistichs);
    var i := 0;
    ghost var recs: seq<seq<char>> := [];
    while i < n
      invariant 0 <= i <= n
      invariant ReconstructAll(hemistichs[..i]) == Ok(recs)
      invariant fresh(analysis) && fresh(analysis.syllableAnalysis)
      invariant !analysis.longMeter && !analysis.shortMeter
      invariant analysis.totalLetters == LettersOf(recs)
      invariant analysis.syllableAnalysis.Current() == TallyOf(recs)
    {
      var hemNo := i + 1;
      var rec := ReconstructHemistich(hemistichs[i]);
      match rec {
        case Err(e) =>
          PrefixOfPrefix(hemistichs, n, i);
          FirstFailure(hemistichs[..n], i, recs, e);
          return Err(e);
        case Ok(hemReconst) =>
          var hemNospace := RemoveSpaces(hemReconst);
          analysis.totalLetters := analysis.totalLetters + |hemNospace|;
          AnalyzeSyllables(hemReconst, hemNospace, hemNo, analysis.syllableAnalysis);
          NextHemistich(hemistichs, i, recs, hemReconst);
          recs := recs + [hemReconst];
          i := i + 1;
      }
    }
    assert hemistichs[..n] == hemistichs[..i];
    return Ok(analysis);
  }

  lemma PrefixOfPrefix<T>(s: seq<T>, n: nat, i: nat)
    requires i <= n <= |s|
    ensures s[..n][..i] == s[..i]
  {
  }

  /** Once a prefix of the hemistichs fails, the whole list fails with the
      same error. */
  lemma FailurePersists(hems: seq<string>, n: nat)
    requires n <= |hems| && ReconstructAll(hems[..n]).Err?
    ensures ReconstructAll(hems) == ReconstructAll(hems[..n])
  {
    ErrorIsFinal(Reconstruct, hems, n);
  }

  lemma {:induction false} ErrorIsFinal<E>(f: string -> Result<seq<char>, E>, lines: seq<string>, n: nat)
    requires n <= |lines| && MapUntilError(f, lines[..n]).Err?
    ensures MapUntilError(f, lines) == MapUntilError(f, lines[..n])
    decreases |lines| - n
  {
    if n < |lines| {
      assert lines[..n + 1][..n] == lines[..n];
      ErrorIsFinal(f, lines, n + 1);
    } else {
      assert lines[..n] == lines;
    }
  }

  /** The step of `AnalyzeHemistichs` when hemistich `i` reconstructs. */
  lemma NextHemistich(hems: seq<string>, i: nat, recs: seq<seq<char>>, h: seq<char>)
    requires i < |hems| && ReconstructAll(hems[..i]) == Ok(recs) && Reconstruct(hems[i]) == Ok(h)
    ensures ReconstructAll(hems[..i + 1]) == Ok(recs + [h])
    ensures TallyOf(recs + [h]) == TallyOf(recs).AddAll(HemistichMarkers(h, RemoveSpaces(h)), i + 1)
    ensures LettersOf(recs + [h]) == LettersOf(recs) + |RemoveSpaces(h)|
  {
    assert hems[..i + 1][..i] == hems[..i];
    assert (recs + [h])[..|recs|] == recs;
  }

  /** The step of `AnalyzeHemistichs` when hemistich `i` fails: the whole
      list of the first `|hems|` fails with its error. */
  lemma FirstFailure(hems: seq<string>, i: nat, recs: seq<seq<char>>, e: ReconstructionError)
    requires i < |hems| && ReconstructAll(hems[..i]) == Ok(recs) && Reconstruct(hems[i]) == Err(e)
    ensures ReconstructAll(hems) == Err(e)
  {
    assert hems[..i + 1][..i] == hems[..i];
    assert ReconstructAll(hems[..i + 1]) == Err(e);
    FailurePersists(hems, i + 1);
  }

  // Properties of the fold

  /** When the hemistichs reconstruct together, each reconstructs on its
      own, to the corresponding entry. */
  lemma ReconstructAllOk(hems: seq<string>)
    requires ReconstructAll(hems).Ok?
    ensures forall i :: 0 <= i < |hems| ==> Reconstruct(hems[i]) == Ok(ReconstructAll(hems).value[i])
  {
    MappedOneByOne(Reconstruct, hems);
  }

  /** When they do not, the error is that of the first hemistich that fails. */
  lemma ReconstructAllErr(hems: seq<string>)
    requires ReconstructAll(hems).Err?
    ensures exists i :: FirstFailureAt(hems, i) && Reconstruct(hems[i]) == Err(ReconstructAll(hems).error)
  {
    FailsAtFirstError(Reconstruct, hems);
    var i :| FailsFirstAt(Reconstruct, hems, i) && Reconstruct(hems[i]) == Err(ReconstructAll(hems).error);
    assert FirstFailureAt(hems, i);
  }

  /** Hemistich `i` is the first that fails to reconstruct. */
  ghost predicate FirstFailureAt(hems: seq<string>, i: int) {
    FailsFirstAt(Reconstruct, hems, i)
  }

  /** `f` fails on line `i` and on no line before it. */
  ghost predicate FailsFirstAt<E>(f: string -> Result<seq<char>, E>, lines: seq<string>, i: int) {
    0 <= i < |lines| && f(lines[i]).Err? && forall j :: 0 <= j < i ==> f(lines[j]).Ok?
  }

  lemma {:induction false} MappedOneByOne<E>(f: string -> Result<seq<char>, E>, lines: seq<string>)
    requires MapUntilError(f, lines).Ok?
    ensures forall i :: 0 <= i < |lines| ==> f(lines[i]) == Ok(MapUntilError(f, lines).value[i])
  {
    if lines != [] {
      var init := lines[..|lines| - 1];
      MappedOneByOne(f, init);
      forall i | 0 <= i < |init|
        ensures f(lines[i]) == Ok(MapUntilError(f, lines).value[i])
      {
        assert init[i] == lines[i];
      }
    }
  }

  lemma {:induction false} FailsAtFirstError<E>(f: string -> Result<seq<char>, E>, lines: seq<string>)
    requires MapUntilError(f, lines).Err?
    ensures exists i :: FailsFirstAt(f, lines, i) && f(lines[i]) == Err(MapUntilError(f, lines).error)
  {
    var init := lines[..|lines| - 1];
    if MapUntilError(f, init).Err? {
      FailsAtFirstError(f, init);
      var i :| FailsFirstAt(f, init, i) && f(init[i]) == Err(MapUntilError(f, init).error);
      assert FailsFirstAt(f, lines, i) by {
        forall j | 0 <= j <= i ensures init[j] == lines[j] { }
      }
    } else {
      MappedOneByOne(f, init);
      assert FailsFirstAt(f, lines, |lines| - 1) by {
        forall j | 0 <= j < |lines| - 1 ensures f(lines[j]).Ok? {
          assert init[j] == lines[j];
        }
      }
    }
  }

  /** Each counter equals the length of its location list. */
  lemma {:induction false} TallyOfConsistent(recs: seq<seq<char>>)
    ensures TallyOf(recs).Consistent()
  {
    if recs != [] {
      var init, h := recs[..|recs| - 1], recs[|recs| - 1];
      TallyOfConsistent(init);
      forall k: Kind
        ensures TallyOf(recs).Markers(k) == |TallyOf(recs).Locations(k)|
      {
        AddAllCounts(TallyOf(init), HemistichMarkers(h, RemoveSpaces(h)), |recs|, k);
      }
    }
  }

  /** The hemistich numbers in a location list never decrease. */
  predicate NonDecreasing(s: seq<nat>) {
    forall i, j :: 0 <= i < j < |s| ==> s[i] <= s[j]
  }

  /** A location list names hemistichs 1 to `|recs|`, in order. */
  lemma {:induction false} LocationsInOrder(recs: seq<seq<char>>, k: Kind)
    ensures NonDecreasing(TallyOf(recs).Locations(k))
    ensures forall i :: 0 <= i < |TallyOf(recs).Locations(k)| ==> 1 <= TallyOf(recs).Locations(k)[i] <= |recs|
  {
    if recs != [] {
      var init, h := recs[..|recs| - 1], recs[|recs| - 1];
      LocationsInOrder(init, k);
      var ks := HemistichMarkers(h, RemoveSpaces(h));
      AddAllCounts(TallyOf(init), ks, |recs|, k);
      AppendRepeat(TallyOf(init).Locations(k), |recs|, Count(ks, k));
    }
  }

  /** Appending copies of a number no smaller than any entry keeps a list in
      order. */
  lemma AppendRepeat(before: seq<nat>, n: nat, c: nat)
    requires 1 <= n && NonDecreasing(before) && forall i :: 0 <= i < |before| ==> 1 <= before[i] < n
    ensures NonDecreasing(before + Repeat(n, c))
    ensures forall i :: 0 <= i < |before + Repeat(n, c)| ==> 1 <= (before + Repeat(n, c))[i] <= n
  {
    var r := before + Repeat(n, c);
    assert forall i :: |before| <= i < |r| ==> r[i] == n;
    assert forall i :: 0 <= i < |before| ==> r[i] == before[i];
    forall i, j | 0 <= i < j < |r|
      ensures r[i] <= r[j]
    {
      if j < |before| {
        assert r[i] == before[i] && r[j] == before[j];
      }
    }
  }

  /** The number of code points in the hemistichs as read. */
  function CodePoints(hems: seq<string>): nat {
    if hems == [] then 0 else CodePoints(hems[..|hems| - 1]) + |hems[|hems| - 1]|
  }

  /** The letter total is at most the number of code points read: each
      hemistich's letters are at most its code points, so the bound on the
      input's size bounds `total_letters` and each `as u32` cast. */
  lemma {:induction false} LettersBound(hems: seq<string>)
    requires ReconstructAll(hems).Ok?
    ensures LettersOf(ReconstructAll(hems).value) <= CodePoints(hems)
    decreases |hems|
  {
    if hems != [] {
      var init, last := hems[..|hems| - 1], hems[|hems| - 1];
      assert ReconstructAll(init).Ok? && Reconstruct(last).Ok?;
      var recs, h := ReconstructAll(init).value, Reconstruct(last).value;
      assert ReconstructAll(hems).value == recs + [h];
      LettersBound(init);
      assert (recs + [h])[..|recs|] == recs;
      assert |RemoveSpaces(h)| <= |h| <= |Trim(last)| <= |last|;
    }
  }

  /** No counter exceeds twice the number of hemistichs, so with at most
      forty hemistichs every counter is at most 80. */
  lemma {:induction false} MarkersBound(recs: seq<seq<char>>, k: Kind)
    ensures TallyOf(recs).Markers(k) <= 2 * |recs|
  {
    if recs != [] {
      var init, h := recs[..|recs| - 1], recs[|recs| - 1];
      MarkersBound(init, k);
      AddAllCounts(TallyOf(init), HemistichMarkers(h, RemoveSpaces(h)), |recs|, k);
      MarkersPerKind(h, RemoveSpaces(h), k);
    }
  }
}
