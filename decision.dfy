/** The decision table of the overall assessment: which row the meter-length
    flags and the four syllable verdicts select, and the guidance sentences
    of each row. The sentences are values of `Advice`, rendered by
    `AdviceText`, so that the table's properties are stated on values. */
module Decision {
  /** What is known of one syllable or of the meter length. */
  datatype Length = Long | Short | Indeterminate

  /** A row of the decision table. */
  datatype Outline =
    | Unclear
    | MeterOnly(meter: Length)
    | Pattern(meter: Length, first: Length, second: Length)

  /** A syllable position that guidance refers to. */
  datatype Position = Second | Third | Fourth

  /** The proviso of a suggestion. */
  datatype Proviso =
    | Syllable(length: Length, position: Position)
    | ShortThirdAndFourth

  /** The meters a suggestion names. */
  datatype Meters =
    | Ramal
    | HazajAkhrab
    | HazajAkhrabOrMuzari
    | Muzari
    | HazajSalim
    | Mujtass
    | HazajSalimOrMujtass
    | RamalOrKhafif
    | HazajOrMutaqarib

  /** One sentence of guidance. */
  datatype Advice =
    | Question(meter: Length, first: Length, second: Length)
    | Consider(meters: Meters)
    | ConsiderWith(proviso: Proviso, meters: Meters)
    | ClearestIs(meter: Length)
    | MixedSignalsSuggestRamal
    | MixedSignalsAsked
    | IfSoRamalOrKhafif
    | RareConsiderRamalOrKhafif
    | EnjoyThePuzzle
    | LengthUnclear

  /** The source tests the long flag before the short one. */
  function LengthOf(long: bool, short: bool): (l: Length)
    ensures l == Long <==> long
    ensures l == Short <==> !long && short
    ensures l == Indeterminate <==> !long && !short
  {
    if long then Long else if short then Short else Indeterminate
  }

  /** The branch `final_assessment` takes. */
  function Choose(longMeter: bool, shortMeter: bool, longFirst: bool, shortFirst: bool,
                  longSecond: bool, shortSecond: bool): (o: Outline)
    ensures o == Unclear <==> !longMeter && !shortMeter
    ensures o.MeterOnly? <==> (longMeter || shortMeter) && !longFirst && !shortFirst
    ensures !o.Unclear? ==> o.meter == LengthOf(longMeter, shortMeter) && o.meter != Indeterminate
    ensures o.Pattern? ==> o.first == LengthOf(longFirst, shortFirst) && o.first != Indeterminate
                           && o.second == LengthOf(longSecond, shortSecond)
  {
    var meter := LengthOf(longMeter, shortMeter);
    var first := LengthOf(longFirst, shortFirst);
    if meter == Indeterminate then Unclear
    else if first == Indeterminate then MeterOnly(meter)
    else Pattern(meter, first, LengthOf(longSecond, shortSecond))
  }

  /** The guidance of each row, in the order it is printed. */
  function Guidance(o: Outline): seq<Advice> {
    match o
    case Pattern(Long, Long, Long) => [
      Question(Long, Long, Long),
      ConsiderWith(ShortThirdAndFourth, HazajAkhrab),
      ConsiderWith(Syllable(Long, Fourth), Muzari)]
    case Pattern(Long, Long, Short) => [Question(Long, Long, Short), Consider(Ramal)]
    case Pattern(Long, Long, Indeterminate) => [
      Question(Long, Long, Indeterminate),
      ConsiderWith(Syllable(Long, Second), HazajAkhrabOrMuzari),
      ConsiderWith(Syllable(Short, Second), Ramal)]
    case Pattern(Long, _, Long) => [
      Question(Long, Short, Long),
      ConsiderWith(Syllable(Long, Third), HazajSalim),
      ConsiderWith(Syllable(Short, Third), Mujtass)]
    case Pattern(Long, _, Short) => [Question(Long, Short, Short), Consider(Ramal)]
    case Pattern(Long, _, Indeterminate) => [
      Question(Long, Short, Indeterminate),
      ConsiderWith(Syllable(Long, Second), HazajSalimOrMujtass),
      ConsiderWith(Syllable(Short, Second), Ramal)]
    case MeterOnly(Long) => [ClearestIs(Long), MixedSignalsSuggestRamal]
    case Pattern(_, Long, Long) => [Question(Short, Long, Long), Consider(HazajAkhrab)]
    case Pattern(_, Long, Short) => [
      Question(Short, Long, Short),
      ConsiderWith(Syllable(Long, Third), RamalOrKhafif),
      EnjoyThePuzzle]
    case Pattern(_, Long, Indeterminate) => [
      Question(Short, Long, Indeterminate),
      ConsiderWith(Syllable(Long, Second), HazajAkhrab),
      ConsiderWith(Syllable(Short, Second), RamalOrKhafif)]
    case Pattern(_, _, Long) => [Question(Short, Short, Long), Consider(HazajOrMutaqarib)]
    case Pattern(_, _, Short) => [Question(Short, Short, Short), RareConsiderRamalOrKhafif]
    case Pattern(_, _, Indeterminate) => [
      Question(Short, Short, Indeterminate),
      ConsiderWith(Syllable(Long, Second), HazajOrMutaqarib),
      ConsiderWith(Syllable(Short, Second), RamalOrKhafif)]
    case MeterOnly(_) => [ClearestIs(Short), MixedSignalsAsked, IfSoRamalOrKhafif]
    case Unclear => [LengthUnclear]
  }

  /** A row opens with a question exactly when both the meter length and
      the first syllable are known, and the question restates the lengths
      the flags give. */
  lemma QuestionRestatesTheFlags(longMeter: bool, shortMeter: bool, longFirst: bool, shortFirst: bool,
                                 longSecond: bool, shortSecond: bool)
    ensures var o := Choose(longMeter, shortMeter, longFirst, shortFirst, longSecond, shortSecond);
            Guidance(o)[0].Question? <==> (longMeter || shortMeter) && (longFirst || shortFirst)
    ensures var o := Choose(longMeter, shortMeter, longFirst, shortFirst, longSecond, shortSecond);
            o.Pattern? ==> Guidance(o)[0] == Question(LengthOf(longMeter, shortMeter), LengthOf(longFirst, shortFirst),
                                                      LengthOf(longSecond, shortSecond))
  {
  }

  /** Only the row for an unknown meter length says that it is unclear, and
      it says nothing else. */
  lemma OnlyUnclearRowIsUnclear(o: Outline)
    ensures LengthUnclear in Guidance(o) <==> o == Unclear
    ensures o == Unclear ==> Guidance(o) == [LengthUnclear]
  {
  }

  /** Every row holds two or three sentences, except the one for an unknown
      meter length. */
  lemma RowSizes(o: Outline)
    ensures o != Unclear ==> 2 <= |Guidance(o)| <= 3
  {
  }

  function LengthWord(l: Length): string {
    match l
    case Long => "long"
    case Short => "short"
    case Indeterminate => "indeterminate"
  }

  function PositionWord(p: Position): string {
    match p
    case Second => "second"
    case Third => "third"
    case Fourth => "fourth"
  }

  function ProvisoText(p: Proviso): string {
    match p
    case Syllable(length, position) => "a " + LengthWord(length) + " " + PositionWord(position) + " syllable"
    case ShortThirdAndFourth => "short third and fourth syllables"
  }

  function MetersText(m: Meters): string {
    match m
    case Ramal => "ramal"
    case HazajAkhrab => "hazaj (akhrab)"
    case HazajAkhrabOrMuzari => "hazaj (akhrab) or mużāri‘"
    case Muzari => "mużāri‘"
    case HazajSalim => "hazaj (sālim)"
    case Mujtass => "mujtaṡṡ"
    case HazajSalimOrMujtass => "hazaj (sālim) or mujtaṡṡ"
    case RamalOrKhafif => "ramal or khafīf"
    case HazajOrMutaqarib => "hazaj or mutaqārib"
  }

  /** The sentence as printed, without its newline. */
  function AdviceText(a: Advice): string {
    match a
    case Question(meter, first, second) =>
      (if meter == Long then "Long" else "Short") + " meter, " + LengthWord(first) + " first syllable, "
        + LengthWord(second) + " second syllable?"
    case Consider(meters) => "Consider " + MetersText(meters) + "."
    case ConsiderWith(proviso, meters) => "Consider, with " + ProvisoText(proviso) + ", " + MetersText(meters) + "."
    case ClearestIs(meter) => "What is clearest is that the meter appears to be " + LengthWord(meter) + "."
    case MixedSignalsSuggestRamal => "If there were mixed signals about the first syllable, consider ramal."
    case MixedSignalsAsked => "Were there mixed signals about the first syllable?"
    case IfSoRamalOrKhafif => "If so, consider ramal or khafīf."
    case RareConsiderRamalOrKhafif => "This would be rare. Consider ramal or khafīf."
    case EnjoyThePuzzle => "If the third syllable is short, enjoy the puzzle!"
    case LengthUnclear => "With the meter length unclear, no further conclusions will be drawn."
  }
}
