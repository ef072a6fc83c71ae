/** The pattern matcher: four syllable-length detectors and the initial-clue
    detector, all literal-prefix tests over a reconstructed hemistich. Every
    lookup is bounds-checked, so a rule that needs more letters than the
    hemistich has does not match (module AsWritten holds the unchecked
    originals and proves the two agree wherever the originals are defined). */
module Detectors {
  import opened Wrappers
  import opened Alphabet

  // Bounds-checked lookups

  /** `s[i] == c`, false when `s` has no index `i`. */
  predicate LetterAt(s: seq<char>, i: nat, c: char) {
    i < |s| && s[i] == c
  }

  /** `s[i]` is a consonant, false when `s` has no index `i`. */
  predicate ConsonantAt(s: seq<char>, i: nat) {
    i < |s| && IsConsonant(s[i])
  }

  /** `s` begins with `p`. */
  predicate StartsWith(s: seq<char>, p: seq<char>) {
    |p| <= |s| && s[..|p|] == p
  }

  /** The `n` letters of `s` from index `i` on form one of the patterns `ps`. */
  predicate OneOfAt(s: seq<char>, i: nat, n: nat, ps: set<seq<char>>) {
    i + n <= |s| && s[i..i + n] in ps
  }

  // Rule data, as the source lists it

  /** "īn", "khwā-" */
  const LongOpenings: set<seq<char>> := {[Alif, Yeh, Noon], [Khah, Waw, Alif]}
  /** "az", "har", "gar", "ay", "ham", each followed by a space */
  const LongWordsBeforeConsonant: set<seq<char>> :=
    {[Alif, Zain, Space], [Heh, Reh, Space], [Gaf, Reh, Space], [Alif, Yeh, Space], [Heh, Meem, Space]}
  /** "amrūz" */
  const Amruz: seq<char> := [Alif, Meem, Reh, Waw, Zain]
  /** "zih" and a space */
  const Zih: seq<char> := [Zain, Space]
  /** "bi", "ki", "chu", "chi", "na" and a space; "kujā", "hamī", "khudā",
      "agar", "chirā", "digar" */
  const ShortOpenings3: set<seq<char>> :=
    {[Beh, Heh, Space], [Kaf, Heh, Space], [Tcheh, Waw, Space], [Tcheh, Heh, Space],
     [Noon, Heh, Space], [Kaf, Jeem, Alif], [Heh, Meem, Yeh], [Khah, Dal, Alif],
     [Alif, Gaf, Reh], [Tcheh, Reh, Alif], [Dal, Gaf, Reh]}
  /** "shavad", "magar", "marā", "turā", "hama" and a space; "chunīn",
      "chunān", "bi-bīn-" */
  const ShortOpenings4: set<seq<char>> :=
    {[Sheen, Waw, Dal, Space], [Meem, Gaf, Reh, Space], [Meem, Reh, Alif, Space],
     [Teh, Reh, Alif, Space], [Heh, Meem, Heh, Space], [Tcheh, Noon, Yeh, Noon],
     [Tcheh, Noon, Alif, Noon], [Beh, Beh, Yeh, Noon]}
  /** "agar" and a space */
  const Agar: seq<char> := [Alif, Gaf, Reh, Space]
  /** "bāshad" and a space */
  const Bashad: seq<char> := [Beh, Alif, Sheen, Dal, Space]
  /** "ay", "gar", "az" and a space */
  const ShortWordsBeforeLong: set<seq<char>> := {[Alif, Yeh, Space], [Gaf, Reh, Space], [Alif, Zain, Space]}
  /** "bi", "ki" and a space */
  const BiKi: set<seq<char>> := {[Beh, Heh, Space], [Kaf, Heh, Space]}
  /** "chunīn", "chunān" */
  const ChuninChunan: set<seq<char>> := {[Tcheh, Noon, Yeh, Noon], [Tcheh, Noon, Alif, Noon]}
  /** "har-ki", "ān-ki", "gar-chi", "ān-chi" and a space; "pādishā-" */
  const ShortSecondOpenings5: set<seq<char>> :=
    {[Heh, Reh, Kaf, Heh, Space], [AlifMaddah, Noon, Kaf, Heh, Space],
     [Gaf, Reh, Tcheh, Heh, Space], [AlifMaddah, Noon, Tcheh, Heh, Space],
     [Peh, Alif, Dal, Sheen, Alif]}
  /** The first four of those with an internal space */
  const ShortSecondOpenings6: set<seq<char>> :=
    {[Heh, Reh, Space, Kaf, Heh, Space], [AlifMaddah, Noon, Space, Kaf, Heh, Space],
     [Gaf, Reh, Space, Tcheh, Heh, Space], [AlifMaddah, Noon, Space, Tcheh, Heh, Space]}
  /** "īn" and a space */
  const InSpace: seq<char> := [Alif, Yeh, Noon, Space]

  // The four length detectors

  /** `long_first_syllable` */
  predicate LongFirstSyllable(h: seq<char>) {
    || LetterAt(h, 0, AlifMaddah)
    || LetterAt(h, 1, Alif)
    || OneOfAt(h, 0, 3, LongOpenings)
    || (OneOfAt(h, 0, 3, LongWordsBeforeConsonant) && ConsonantAt(h, 3))
    || StartsWith(h, Amruz)
  }

  /** `short_first_syllable` */
  predicate ShortFirstSyllable(h: seq<char>) {
    || (StartsWith(h, Zih) && ConsonantAt(h, 2))
    || OneOfAt(h, 0, 3, ShortOpenings3)
    || OneOfAt(h, 0, 4, ShortOpenings4)
  }

  /** `long_second_syllable`; three rules look at the rest of the line with
      `long_first_syllable` after a short opening word. */
  predicate LongSecondSyllable(h: seq<char>) {
    || (LetterAt(h, 2, Alif) && h[1] !in {Space, Waw, Alif})
    || (StartsWith(h, Agar) && ConsonantAt(h, 4))
    || (StartsWith(h, Bashad) && ConsonantAt(h, 5))
    || StartsWith(h, Amruz)
    || (LetterAt(h, 1, Alif) && LetterAt(h, 2, Space) && LongFirstSyllable(h[3..]))
    || (OneOfAt(h, 0, 3, ShortWordsBeforeLong) && ConsonantAt(h, 3) && LongFirstSyllable(h[3..]))
    || (OneOfAt(h, 0, 3, BiKi) && LongFirstSyllable(h[3..]))
    || OneOfAt(h, 0, 4, ChuninChunan)
  }

  /** `short_second_syllable`; `nospace` is the hemistich without spaces. */
  predicate ShortSecondSyllable(h: seq<char>, nospace: seq<char>) {
    || (OneOfAt(h, 0, 3, BiKi) && ShortFirstSyllable(h[3..]))
    || (LetterAt(h, 1, Alif) && LetterAt(h, 2, Space) && ShortFirstSyllable(h[3..]))
    || OneOfAt(h, 0, 5, ShortSecondOpenings5)
    || OneOfAt(h, 0, 6, ShortSecondOpenings6)
    || OneOfAt(nospace, 2, 4, ChuninChunan)
    || (StartsWith(h, InSpace) && ConsonantAt(h, 4) && ShortFirstSyllable(h[4..]))
  }

  // The initial-clue detector

  /** The tags `initial_clues` returns. */
  datatype Clue = Kasi | Yaki | Chist | Dust | Nist | HamChu | Chandan | Kist

  /** One clue rule: the hemistich starts with `pattern` and, where
      `consonantAfter` says so, the next letter is a consonant. */
  datatype ClueRule = ClueRule(pattern: seq<char>, consonantAfter: bool, tag: Clue)

  /** The clue rules in the order the source tries them. */
  const ClueRules: seq<ClueRule> := [
    ClueRule([Kaf, Seen, Yeh, Space], true, Kasi),
    ClueRule([Yeh, Kaf, Yeh, Space], true, Yaki),
    ClueRule([Tcheh, Yeh, Seen, Teh], false, Chist),
    ClueRule([Dal, Waw, Seen, Teh], false, Dust),
    ClueRule([Noon, Yeh, Seen, Teh, Space], false, Nist),
    ClueRule([Heh, Meem, Tcheh, Waw, Space], false, HamChu),
    ClueRule([Heh, Meem, Space, Tcheh, Waw, Space], false, HamChu),
    ClueRule([Tcheh, Noon, Dal, Alif, Noon], false, Chandan),
    ClueRule([Kaf, Yeh, Seen, Teh], false, Kist)
  ]

  predicate RuleMatches(rule: ClueRule, h: seq<char>) {
    StartsWith(h, rule.pattern) && (rule.consonantAfter ==> ConsonantAt(h, |rule.pattern|))
  }

  /** `rules[i]` is the first rule from index `from` on that matches `h`. */
  ghost predicate FirstMatchAt(rules: seq<ClueRule>, h: seq<char>, from: nat, i: int) {
    from <= i < |rules| && RuleMatches(rules[i], h)
    && forall j :: from <= j < i ==> !RuleMatches(rules[j], h)
  }

  /** The tag of the first rule from index `from` on that matches, or None
      when none does. */
  function FirstMatch(rules: seq<ClueRule>, h: seq<char>, from: nat): (r: Option<Clue>)
    requires from <= |rules|
    ensures r.None? <==> forall i :: from <= i < |rules| ==> !RuleMatches(rules[i], h)
    ensures r.Some? ==> exists i :: FirstMatchAt(rules, h, from, i) && rules[i].tag == r.value
    decreases |rules| - from
  {
    if from == |rules| then None
    else if RuleMatches(rules[from], h) then
      assert FirstMatchAt(rules, h, from, from);
      Some(rules[from].tag)
    else
      var r := FirstMatch(rules, h, from + 1);
      assert forall i :: FirstMatchAt(rules, h, from + 1, i) ==> FirstMatchAt(rules, h, from, i);
      r
  }

  /** `initial_clues` */
  function InitialClues(h: seq<char>): Option<Clue> {
    FirstMatch(ClueRules, h, 0)
  }

  // The markers one hemistich yields

  /** The four kinds of evidence the aggregator counts. */
  datatype Kind = LongFirst | ShortFirst | LongSecond | ShortSecond

  /** The pair of markers a clue adds on top of the four detectors. */
  function ClueMarkers(c: Option<Clue>): (ks: seq<Kind>)
    ensures c.None? <==> ks == []
    ensures c.Some? ==> |ks| == 2 && ks[0] != ks[1]
  {
    match c
    case None => []
    case Some(Kasi) | Some(Yaki) => [ShortFirst, LongSecond]
    case Some(Chist) | Some(Dust) | Some(Nist) | Some(HamChu) | Some(Kist) => [LongFirst, ShortSecond]
    case Some(Chandan) => [LongFirst, LongSecond]
  }

  function MarkerIf(b: bool, k: Kind): seq<Kind> {
    if b then [k] else []
  }

  /** The markers from the four detector results and the clue, in the order
      `analyze_syllables` records them. */
  function MarkersFrom(longFirst: bool, shortFirst: bool, longSecond: bool, shortSecond: bool,
                       clue: Option<Clue>): seq<Kind>
  {
    MarkerIf(longFirst, LongFirst) + MarkerIf(shortFirst, ShortFirst) + MarkerIf(longSecond, LongSecond)
    + MarkerIf(shortSecond, ShortSecond) + ClueMarkers(clue)
  }

  /** Every marker `analyze_syllables` records for one hemistich. */
  function HemistichMarkers(h: seq<char>, nospace: seq<char>): seq<Kind> {
    MarkersFrom(LongFirstSyllable(h), ShortFirstSyllable(h), LongSecondSyllable(h),
                ShortSecondSyllable(h, nospace), InitialClues(h))
  }

  function Count(ks: seq<Kind>, k: Kind): nat {
    multiset(ks)[k]
  }

  // Properties

  /** Counting the markers built from four detector results and a clue. */
  lemma MarkersFromCount(lf: bool, sf: bool, ls: bool, ss: bool, clue: Option<Clue>, k: Kind)
    ensures Count(MarkersFrom(lf, sf, ls, ss, clue), k)
            == (if Select(lf, sf, ls, ss, k) then 1 else 0) + Count(ClueMarkers(clue), k)
    ensures Count(ClueMarkers(clue), k) <= 1
  {
    var a, b, c, d, e := MarkerIf(lf, LongFirst), MarkerIf(sf, ShortFirst), MarkerIf(ls, LongSecond), MarkerIf(ss, ShortSecond), ClueMarkers(clue);
    calc {
      Count(MarkersFrom(lf, sf, ls, ss, clue), k);
      multiset(a + b + c + d + e)[k];
      { assert multiset(a + b + c + d + e) == multiset(a) + multiset(b) + multiset(c) + multiset(d) + multiset(e); }
      multiset(a)[k] + multiset(b)[k] + multiset(c)[k] + multiset(d)[k] + multiset(e)[k];
    }
    CountMarkerIf(lf, LongFirst, k);
    CountMarkerIf(sf, ShortFirst, k);
    CountMarkerIf(ls, LongSecond, k);
    CountMarkerIf(ss, ShortSecond, k);
    ClueMarkersCount(clue, k);
  }

  lemma CountMarkerIf(b: bool, m: Kind, k: Kind)
    ensures multiset(MarkerIf(b, m))[k] == if b && m == k then 1 else 0
  {
  }

  lemma ClueMarkersCount(clue: Option<Clue>, k: Kind)
    ensures Count(ClueMarkers(clue), k) <= 1
  {
    var ks := ClueMarkers(clue);
    if ks != [] {
      assert ks == [ks[0]] + [ks[1]];
      assert multiset(ks) == multiset{ks[0]} + multiset{ks[1]};
    }
  }

  /** Which of four detector results belongs to kind `k`. */
  function Select(lf: bool, sf: bool, ls: bool, ss: bool, k: Kind): bool {
    match k
    case LongFirst => lf
    case ShortFirst => sf
    case LongSecond => ls
    case ShortSecond => ss
  }

  /** Each detector contributes its kind once and a clue adds one of each of
      its two kinds: no kind is recorded more than twice for a hemistich. */
  lemma MarkersPerKind(h: seq<char>, nospace: seq<char>, k: Kind)
    ensures Count(HemistichMarkers(h, nospace), k)
            == (if DetectorFires(h, nospace, k) then 1 else 0) + Count(ClueMarkers(InitialClues(h)), k)
    ensures Count(HemistichMarkers(h, nospace), k) <= 2
  {
    var lf, sf, ls, ss := LongFirstSyllable(h), ShortFirstSyllable(h), LongSecondSyllable(h),
                          ShortSecondSyllable(h, nospace);
    assert HemistichMarkers(h, nospace) == MarkersFrom(lf, sf, ls, ss, InitialClues(h));
    DetectorIsSelected(h, nospace, k);
    MarkersFromCount(lf, sf, ls, ss, InitialClues(h), k);
  }

  lemma DetectorIsSelected(h: seq<char>, nospace: seq<char>, k: Kind)
    ensures DetectorFires(h, nospace, k)
            == Select(LongFirstSyllable(h), ShortFirstSyllable(h), LongSecondSyllable(h),
                      ShortSecondSyllable(h, nospace), k)
  {
  }

  /** The detector for kind `k`. */
  predicate DetectorFires(h: seq<char>, nospace: seq<char>, k: Kind) {
    match k
    case LongFirst => LongFirstSyllable(h)
    case ShortFirst => ShortFirstSyllable(h)
    case LongSecond => LongSecondSyllable(h)
    case ShortSecond => ShortSecondSyllable(h, nospace)
  }

  /** An initial alif maddah is tested before anything else, so even a
      one-letter hemistich gets a long first syllable. */
  lemma AlifMaddahAloneIsLong()
    ensures LongFirstSyllable([AlifMaddah])
  {
  }

  /** "amrūz" marks both a long first and a long second syllable. */
  lemma AmruzIsLongLong(h: seq<char>)
    requires StartsWith(h, Amruz)
    ensures LongFirstSyllable(h) && LongSecondSyllable(h)
  {
  }

  /** "chunīn" and "chunān" mark a short first and a long second syllable. */
  lemma ChuninIsShortLong(h: seq<char>)
    requires OneOfAt(h, 0, 4, ChuninChunan)
    ensures ShortFirstSyllable(h) && LongSecondSyllable(h)
  {
  }

  /** "ghazal" */
  const Ghazal: seq<char> := [Ghain, Zain, Lam]

  /** A line too short for any rule, such as the heading "ghazal", gives
      no marker. */
  lemma HeadingLineHasNoMarkers(nospace: seq<char>)
    requires |nospace| <= |Ghazal|
    ensures HemistichMarkers(Ghazal, nospace) == []
  {
    var h := Ghazal;
    assert h[0..3] == h && h[..3] == h && h[0] == Ghain;
    assert !LongFirstSyllable(h) by {
      assert !OneOfAt(h, 0, 3, LongOpenings);
      assert !OneOfAt(h, 0, 3, LongWordsBeforeConsonant);
    }
    assert !ShortFirstSyllable(h) by {
      assert !OneOfAt(h, 0, 3, ShortOpenings3);
    }
    assert !LongSecondSyllable(h) by {
      assert !OneOfAt(h, 0, 3, ShortWordsBeforeLong);
      assert !OneOfAt(h, 0, 3, BiKi);
    }
    assert !ShortSecondSyllable(h, nospace) by {
      assert !OneOfAt(h, 0, 3, BiKi);
    }
    assert InitialClues(h) == None by {
      assert forall i :: 0 <= i < |ClueRules| ==> |ClueRules[i].pattern| > 3;
    }
  }
}
