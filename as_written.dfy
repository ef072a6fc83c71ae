/** The five detectors exactly as the source writes them: fixed-offset
    indexing and slicing with no bounds checks, where an index past the end
    panics. `Eval` records the panic; `Or` and `And` keep Rust's
    short-circuit order, so a later test that would panic is never reached
    once an earlier one has decided. Each function is proved to agree with
    its total counterpart in module Detectors whenever it returns, and to
    return on every hemistich long enough. */
module AsWritten {
  import opened Alphabet
  import opened Wrappers
  import opened Normalizer
  import D = Detectors

  /** The outcome of a computation that may panic. */
  datatype Eval<T> = Panic | Returns(value: T)

  /** Rust's `a || b` */
  function Or(a: Eval<bool>, b: Eval<bool>): (r: Eval<bool>)
    ensures r.Returns? <==> a.Returns? && (a.value || b.Returns?)
    ensures r.Returns? ==> (r.value <==> a.value || b.value)
  {
    match a
    case Panic => Panic
    case Returns(true) => Returns(true)
    case Returns(false) => b
  }

  /** Rust's `a && b` */
  function And(a: Eval<bool>, b: Eval<bool>): (r: Eval<bool>)
    ensures r.Returns? <==> a.Returns? && (!a.value || b.Returns?)
    ensures r.Returns? ==> (r.value <==> a.value && b.value)
  {
    match a
    case Panic => Panic
    case Returns(false) => Returns(false)
    case Returns(true) => b
  }

  /** `CONSONANTS.contains(&h[i])` */
  function ConsonantAt(h: seq<char>, i: nat): (r: Eval<bool>)
    ensures r.Returns? <==> i < |h|
    ensures r.Returns? ==> r.value == D.ConsonantAt(h, i)
  {
    if i < |h| then Returns(IsConsonant(h[i])) else Panic
  }

  /** `long_first_syllable`: the first test reads `h[0]` and, unless that is
      alif maddah, `h[1]`; the rest slices the first five letters. */
  function LongFirstSyllable(h: seq<char>): (r: Eval<bool>)
    ensures |h| == 0 ==> r.Panic?
    ensures |h| >= 5 ==> r.Returns?
    ensures r.Returns? ==> r.value == D.LongFirstSyllable(h)
  {
    if |h| == 0 then Panic
    else if h[0] == AlifMaddah then Returns(true)
    else if |h| < 2 then Panic
    else if h[1] == Alif then Returns(true)
    else if |h| < 5 then Panic
    else
      assert h[0..3] == h[..3] && h[0..5] == h[..5];
      Returns(|| h[..3] in D.LongOpenings
              || (h[..3] in D.LongWordsBeforeConsonant && IsConsonant(h[3]))
              || h[..5] == D.Amruz)
  }

  /** `short_first_syllable` */
  function ShortFirstSyllable(h: seq<char>): (r: Eval<bool>)
    ensures |h| < 3 ==> r.Panic?
    ensures |h| >= 4 ==> r.Returns?
    ensures r.Returns? ==> r.value == D.ShortFirstSyllable(h)
  {
    if |h| < 2 then Panic
    else
      Or(And(Returns(h[..2] == D.Zih), ConsonantAt(h, 2)),
         if |h| < 3 then Panic
         else
           assert h[0..3] == h[..3];
           Or(Returns(h[..3] in D.ShortOpenings3),
              if |h| < 4 then Panic
              else
                assert h[0..4] == h[..4];
                Returns(h[..4] in D.ShortOpenings4)))
  }

  /** `long_second_syllable`: the opening `let`s slice the first five
      letters before any test. */
  function LongSecondSyllable(h: seq<char>): (r: Eval<bool>)
    ensures |h| < 5 ==> r.Panic?
    ensures |h| >= 8 ==> r.Returns?
    ensures r.Returns? ==> r.value == D.LongSecondSyllable(h)
  {
    if |h| < 5 then Panic
    else
      assert h[0..3] == h[..3] && h[0..4] == h[..4];
      Or(Returns(h[2] == Alif && h[1] !in {Space, Waw, Alif}),
      Or(And(Returns(h[..4] == D.Agar), ConsonantAt(h, 4)),
      Or(And(Returns(h[..5] == D.Bashad), ConsonantAt(h, 5)),
      Or(Returns(h[..5] == D.Amruz),
      Or(And(Returns(h[1..3] == [Alif, Space]), LongFirstSyllable(h[3..])),
      Or(And(Returns(h[..3] in D.ShortWordsBeforeLong), And(ConsonantAt(h, 3), LongFirstSyllable(h[3..]))),
      Or(And(Returns(h[..3] in D.BiKi), LongFirstSyllable(h[3..])),
         Returns(h[..4] in D.ChuninChunan))))))))
  }

  /** `short_second_syllable`: the opening `let`s slice the first six letters
      of `h`; `nospace[2..6]` is sliced only when the earlier rules fail. */
  function ShortSecondSyllable(h: seq<char>, nospace: seq<char>): (r: Eval<bool>)
    ensures |h| < 6 ==> r.Panic?
    ensures |h| >= 8 && |nospace| >= 6 ==> r.Returns?
    ensures r.Returns? ==> r.value == D.ShortSecondSyllable(h, nospace)
  {
    if |h| < 6 then Panic
    else Or(ShortSecondOpening(h), ShortSecondLater(h, nospace))
  }

  /** The four rules of `short_second_syllable` on the opening of `h`. */
  function ShortSecondOpening(h: seq<char>): (r: Eval<bool>)
    requires |h| >= 6
    ensures |h| >= 7 ==> r.Returns?
    ensures r.Returns? ==>
              (r.value <==> || (D.OneOfAt(h, 0, 3, D.BiKi) && D.ShortFirstSyllable(h[3..]))
                            || (D.LetterAt(h, 1, Alif) && D.LetterAt(h, 2, Space) && D.ShortFirstSyllable(h[3..]))
                            || D.OneOfAt(h, 0, 5, D.ShortSecondOpenings5)
                            || D.OneOfAt(h, 0, 6, D.ShortSecondOpenings6))
  {
    assert h[0..3] == h[..3] && h[0..5] == h[..5] && h[0..6] == h[..6];
    Or(And(Returns(h[..3] in D.BiKi), ShortFirstSyllable(h[3..])),
    Or(And(Returns(h[1..3] == [Alif, Space]), ShortFirstSyllable(h[3..])),
    Or(Returns(h[..5] in D.ShortSecondOpenings5),
       Returns(h[..6] in D.ShortSecondOpenings6))))
  }

  /** The two rules that follow: `chunin` or `chunan` at the third letter of
      the hemistich without spaces, then `in` and a space before a short
      syllable. */
  function ShortSecondLater(h: seq<char>, nospace: seq<char>): (r: Eval<bool>)
    requires |h| >= 6
    ensures |nospace| < 6 ==> r.Panic?
    ensures |h| >= 8 && |nospace| >= 6 ==> r.Returns?
    ensures r.Returns? ==>
              (r.value <==> || D.OneOfAt(nospace, 2, 4, D.ChuninChunan)
                            || (D.StartsWith(h, D.InSpace) && D.ConsonantAt(h, 4) && D.ShortFirstSyllable(h[4..])))
  {
    if |nospace| < 6 then Panic
    else
      assert h[0..4] == h[..4];
      Or(Returns(nospace[2..6] in D.ChuninChunan),
         And(Returns(h[..4] == D.InSpace), And(ConsonantAt(h, 4), ShortFirstSyllable(h[4..]))))
  }

  /** `initial_clues`: the opening `let`s slice the first six letters. */
  function InitialClues(h: seq<char>): (r: Eval<Option<D.Clue>>)
    ensures |h| < 6 <==> r.Panic?
    ensures r.Returns? ==> r.value == D.InitialClues(h)
  {
    if |h| < 6 then Panic
    else
      ClueChainIsTheTable(h);
      Returns(ClueChain(h))
  }

  /** The `if` chain of `initial_clues` once its slices are in range. */
  function ClueChain(h: seq<char>): Option<D.Clue>
    requires |h| >= 6
  {
    if Opens(h, [Kaf, Seen, Yeh, Space]) && IsConsonant(h[4]) then Some(D.Kasi)
    else if Opens(h, [Yeh, Kaf, Yeh, Space]) && IsConsonant(h[4]) then Some(D.Yaki)
    else if Opens(h, [Tcheh, Yeh, Seen, Teh]) then Some(D.Chist)
    else if Opens(h, [Dal, Waw, Seen, Teh]) then Some(D.Dust)
    else if Opens(h, [Noon, Yeh, Seen, Teh, Space]) then Some(D.Nist)
    else if Opens(h, [Heh, Meem, Tcheh, Waw, Space]) || Opens(h, [Heh, Meem, Space, Tcheh, Waw, Space]) then Some(D.HamChu)
    else if Opens(h, [Tcheh, Noon, Dal, Alif, Noon]) then Some(D.Chandan)
    else if Opens(h, [Kaf, Yeh, Seen, Teh]) then Some(D.Kist)
    else None
  }

  /** `h[..|p|] == p`, compared letter by letter. */
  predicate Opens(h: seq<char>, p: seq<char>)
    requires |p| <= |h|
    decreases |p|
  {
    p == [] || (h[0] == p[0] && Opens(h[1..], p[1..]))
  }

  lemma {:induction false} OpensIsPrefix(h: seq<char>, p: seq<char>)
    requires |p| <= |h|
    ensures Opens(h, p) <==> h[..|p|] == p
    decreases |p|
  {
    if p != [] {
      OpensIsPrefix(h[1..], p[1..]);
      assert h[..|p|] == [h[0]] + h[1..][..|p| - 1];
      assert p == [p[0]] + p[1..];
    }
  }

  /** The rule table of module Detectors, tried in order, is the `if` chain. */
  lemma ClueChainIsTheTable(h: seq<char>)
    requires |h| >= 6
    ensures ClueChain(h) == D.InitialClues(h)
  {
    FirstTwoRules(h);
    MiddleThreeRules(h);
    HamChuRules(h);
    LastTwoRules(h);
  }

  lemma FirstTwoRules(h: seq<char>)
    requires |h| >= 6
    ensures D.FirstMatch(D.ClueRules, h, 0)
            == if Opens(h, [Kaf, Seen, Yeh, Space]) && IsConsonant(h[4]) then Some(D.Kasi)
               else if Opens(h, [Yeh, Kaf, Yeh, Space]) && IsConsonant(h[4]) then Some(D.Yaki)
               else D.FirstMatch(D.ClueRules, h, 2)
  {
    KasiRule(h);
    YakiRule(h);
  }

  lemma MiddleThreeRules(h: seq<char>)
    requires |h| >= 6
    ensures D.FirstMatch(D.ClueRules, h, 2)
            == if Opens(h, [Tcheh, Yeh, Seen, Teh]) then Some(D.Chist)
               else if Opens(h, [Dal, Waw, Seen, Teh]) then Some(D.Dust)
               else if Opens(h, [Noon, Yeh, Seen, Teh, Space]) then Some(D.Nist)
               else D.FirstMatch(D.ClueRules, h, 5)
  {
    ChistRule(h);
    DustRule(h);
    NistRule(h);
  }

  lemma HamChuRules(h: seq<char>)
    requires |h| >= 6
    ensures D.FirstMatch(D.ClueRules, h, 5)
            == if Opens(h, [Heh, Meem, Tcheh, Waw, Space]) then Some(D.HamChu)
               else if Opens(h, [Heh, Meem, Space, Tcheh, Waw, Space]) then Some(D.HamChu)
               else D.FirstMatch(D.ClueRules, h, 7)
  {
    HamChuRule(h);
    HamSpaceChuRule(h);
  }

  lemma LastTwoRules(h: seq<char>)
    requires |h| >= 6
    ensures D.FirstMatch(D.ClueRules, h, 7)
            == if Opens(h, [Tcheh, Noon, Dal, Alif, Noon]) then Some(D.Chandan)
               else if Opens(h, [Kaf, Yeh, Seen, Teh]) then Some(D.Kist)
               else None
  {
    ChandanRule(h);
    KistRule(h);
  }

  lemma KasiRule(h: seq<char>)
    requires |h| >= 6
    ensures D.FirstMatch(D.ClueRules, h, 0) == if Opens(h, [Kaf, Seen, Yeh, Space]) && IsConsonant(h[4]) then Some(D.Kasi) else D.FirstMatch(D.ClueRules, h, 1)
  {
    RuleStep(h, 0, [Kaf, Seen, Yeh, Space], true, D.Kasi);
  }

  lemma YakiRule(h: seq<char>)
    requires |h| >= 6
    ensures D.FirstMatch(D.ClueRules, h, 1) == if Opens(h, [Yeh, Kaf, Yeh, Space]) && IsConsonant(h[4]) then Some(D.Yaki) else D.FirstMatch(D.ClueRules, h, 2)
  {
    RuleStep(h, 1, [Yeh, Kaf, Yeh, Space], true, D.Yaki);
  }

  lemma ChistRule(h: seq<char>)
    requires |h| >= 6
    ensures D.FirstMatch(D.ClueRules, h, 2) == if Opens(h, [Tcheh, Yeh, Seen, Teh]) then Some(D.Chist) else D.FirstMatch(D.ClueRules, h, 3)
  {
    RuleStep(h, 2, [Tcheh, Yeh, Seen, Teh], false, D.Chist);
  }

  lemma DustRule(h: seq<char>)
    requires |h| >= 6
    ensures D.FirstMatch(D.ClueRules, h, 3) == if Opens(h, [Dal, Waw, Seen, Teh]) then Some(D.Dust) else D.FirstMatch(D.ClueRules, h, 4)
  {
    RuleStep(h, 3, [Dal, Waw, Seen, Teh], false, D.Dust);
  }

  lemma NistRule(h: seq<char>)
    requires |h| >= 6
    ensures D.FirstMatch(D.ClueRules, h, 4) == if Opens(h, [Noon, Yeh, Seen, Teh, Space]) then Some(D.Nist) else D.FirstMatch(D.ClueRules, h, 5)
  {
    RuleStep(h, 4, [Noon, Yeh, Seen, Teh, Space], false, D.Nist);
  }

  lemma HamChuRule(h: seq<char>)
    requires |h| >= 6
    ensures D.FirstMatch(D.ClueRules, h, 5) == if Opens(h, [Heh, Meem, Tcheh, Waw, Space]) then Some(D.HamChu) else D.FirstMatch(D.ClueRules, h, 6)
  {
    RuleStep(h, 5, [Heh, Meem, Tcheh, Waw, Space], false, D.HamChu);
  }

  lemma HamSpaceChuRule(h: seq<char>)
    requires |h| >= 6
    ensures D.FirstMatch(D.ClueRules, h, 6) == if Opens(h, [Heh, Meem, Space, Tcheh, Waw, Space]) then Some(D.HamChu) else D.FirstMatch(D.ClueRules, h, 7)
  {
    RuleStep(h, 6, [Heh, Meem, Space, Tcheh, Waw, Space], false, D.HamChu);
  }

  lemma ChandanRule(h: seq<char>)
    requires |h| >= 6
    ensures D.FirstMatch(D.ClueRules, h, 7) == if Opens(h, [Tcheh, Noon, Dal, Alif, Noon]) then Some(D.Chandan) else D.FirstMatch(D.ClueRules, h, 8)
  {
    RuleStep(h, 7, [Tcheh, Noon, Dal, Alif, Noon], false, D.Chandan);
  }

  lemma KistRule(h: seq<char>)
    requires |h| >= 6
    ensures D.FirstMatch(D.ClueRules, h, 8) == if Opens(h, [Kaf, Yeh, Seen, Teh]) then Some(D.Kist) else None
  {
    RuleStep(h, 8, [Kaf, Yeh, Seen, Teh], false, D.Kist);
    assert D.FirstMatch(D.ClueRules, h, 9) == None;
  }

  /** One step through the rule table. */
  lemma RuleStep(h: seq<char>, i: nat, pattern: seq<char>, consonantAfter: bool, tag: D.Clue)
    requires |h| >= 6 && |pattern| <= 6 && (consonantAfter ==> |pattern| < 6) && i < |D.ClueRules|
    requires D.ClueRules[i] == D.ClueRule(pattern, consonantAfter, tag)
    ensures D.FirstMatch(D.ClueRules, h, i)
            == if Opens(h, pattern) && (consonantAfter ==> IsConsonant(h[|pattern|]))
               then Some(tag) else D.FirstMatch(D.ClueRules, h, i + 1)
  {
    OpensIsPrefix(h, pattern);
  }

  /** `analyze_syllables` runs all five detectors, so it panics as soon as
      one of them does; otherwise it records the markers module Detectors
      computes. */
  function AnalyzeSyllables(h: seq<char>, nospace: seq<char>): (r: Eval<seq<D.Kind>>)
    ensures |h| < 6 ==> r.Panic?
    ensures |h| >= 8 && |nospace| >= 6 ==> r.Returns?
    ensures r.Returns? ==> r.value == D.HemistichMarkers(h, nospace)
  {
    match (LongFirstSyllable(h), ShortFirstSyllable(h), LongSecondSyllable(h),
           ShortSecondSyllable(h, nospace), InitialClues(h))
    case (Returns(lf), Returns(sf), Returns(ls), Returns(ss), Returns(clue)) =>
      Returns(D.MarkersFrom(lf, sf, ls, ss, clue))
    case _ => Panic
  }

  /** A heading line such as "ghazal" reconstructs to itself, three letters
      long, and the unchecked detectors then index past its end; the total
      detectors simply find no marker in it. */
  lemma HeadingLinePanics()
    ensures Reconstruct(D.Ghazal) == Ok(D.Ghazal)
    ensures AnalyzeSyllables(D.Ghazal, RemoveSpaces(D.Ghazal)).Panic?
    ensures D.HemistichMarkers(D.Ghazal, RemoveSpaces(D.Ghazal)) == []
  {
    CanonicalTextIsUnchanged(D.Ghazal);
    D.HeadingLineHasNoMarkers(RemoveSpaces(D.Ghazal));
  }

}
