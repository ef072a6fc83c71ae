# Persian meter scansion heuristics, modelled in Dafny

This project models the analysis engine of a command-line tool that guesses
the quantitative meter of a Persian poem. The tool reads the poem as a list
of hemistichs and works in five steps:

- It normalises each hemistich to a canonical letter sequence. It trims the
  line, keeps vowel letters, consonants and spaces, and folds the hamza
  variants and tā’ marbūṭa. It drops ten diacritics and three punctuation
  marks (the Arabic comma, the Arabic question mark and '!'), turns the
  zero-width non-joiner into a space, and rejects any other character,
  including other punctuation.
- It runs five pattern detectors on the opening letters: long or short
  first syllable, long or short second syllable, and a table of initial
  word clues.
- It counts the markers and their hemistich numbers, for at most forty
  hemistichs.
- It classifies the meter as long or short from the average number of
  letters per hemistich.
- It assesses the first and second syllables and picks the row of the
  overall decision table.

Modules, in the order of the program:

| module | models |
|---|---|
| `Wrappers` | `Option`, `Result`, `Min` |
| `Alphabet` | the letters of the script, `CONSONANTS`, the vowel letters, the Unicode whitespace that `str::trim` strips |
| `Normalizer` | `reconstruct_hemistich` and the space-free copy of each hemistich |
| `Detectors` | the four syllable detectors and `initial_clues` as total predicates; the markers one hemistich yields |
| `AsWritten` | the same detectors with the source's unchecked indexing, where an index past the end panics |
| `Aggregator` | `SyllableAnalysis` and its `add_*` methods (a class), `analyze_syllables`, `MeterAnalysis`, `analyze_hemistichs` |
| `MeterLength` | `analyze_meter_length`: the divisor, the thresholds and the flags |
| `Render` | how numbers and location lists are printed |
| `Assessment` | `first_syllable_assessment`, `second_syllable_assessment`, and the frame of `final_assessment` |
| `Decision` | the decision table of `final_assessment` and its sentences |
| `Scansion` | `main` after the file has been read: the whole pipeline |

The reports are sequences of `Line` values, such as a heading, an
indication with its count and locations, or a caution. The functions
`LineText`/`AdviceText` give each value's printed sentence, so the
properties of the reports are stated on values rather than on strings.

## Model

| member | source | states |
|---|---|---|
| Alphabet.AlphabetIsWellFormed | src/main.rs:76-79 | no consonant is a vowel letter, and no letter is whitespace, so trimming never removes a letter |
| Normalizer.Classify | src/main.rs:301-333 | every letter emitted for a code point is canonical (vowel, consonant or space); a canonical code point is emitted unchanged; the hamza forms of alif, waw and yeh become the plain letters, tā’ marbūṭa becomes heh, and the zero-width non-joiner becomes a space; exactly the ten diacritics and the three punctuation marks are skipped; every other code point is rejected |
| Normalizer.LeadingWhitespace | src/main.rs:299 | the count is exactly the run of whitespace at the start of the line |
| Normalizer.TrailingWhitespace | src/main.rs:299 | the count is exactly the run of whitespace at the end of the line |
| Normalizer.Trim | src/main.rs:299 | the trimmed line is no longer than the input and neither starts nor ends with whitespace |
| Normalizer.TrimRemovesOnlyTheEnds | src/main.rs:299 | the trimmed line is a slice of the input with only whitespace before and after it, so trimming removes nothing else |
| Normalizer.ReconstructChars | src/main.rs:299-336 | at most one output letter per input code point |
| Normalizer.ReconstructedTextIsCanonical | src/main.rs:303-322 | every letter of a successful reconstruction is one of the four vowel letters, one of the thirty consonants or a space |
| Normalizer.ReconstructFailsAtFirstRejected | src/main.rs:326-332 | reconstruction succeeds if and only if no code point is rejected; otherwise the error names the first rejected code point |
| Normalizer.ReconstructHemistich | src/main.rs:294-337 | the loop returns the trimmed line reconstructed code point by code point, stopping at the first rejected one |
| Normalizer.ErrorPersists | src/main.rs:327-332 | once a prefix of the line has failed, the whole line fails with the same error (early return) |
| Normalizer.RemoveSpaces | src/main.rs:189-190 | the space-free copy is no longer than the hemistich |
| Normalizer.RemoveSpacesKeepsLetters | src/main.rs:189-190 | the copy holds no space and every other letter as many times as the hemistich does |
| Normalizer.RemoveSpacesAppend | src/main.rs:189-190 | removing spaces from two pieces and joining them is removing spaces from the whole, so `retain` keeps the letters in order |
| Normalizer.CanonicalTextIsUnchanged | src/main.rs:299-324 | a canonical line with no whitespace at either end reconstructs to itself |
| Normalizer.ReconstructTrimmedCanonical | src/main.rs:299-324 | a canonical line that trimming leaves alone reconstructs to itself |
| Normalizer.ReconstructCanonicalChars | src/main.rs:303-320 | canonical code points pass through the loop unchanged |
| Normalizer.TrimKeepsUntrimmed | src/main.rs:299 | trimming leaves a line with no whitespace at either end unchanged |
| Normalizer.ReconstructIsIdempotent | src/main.rs:294-337 | reconstructing a reconstruction that neither starts nor ends with a space changes nothing |
| Normalizer.TrailingZwnjIsNotIdempotent | src/main.rs:299-322 | a trailing zero-width non-joiner becomes a space that a second pass trims, so in general reconstruction is not idempotent |
| Normalizer.ReconstructBeh | src/main.rs:305 | a single consonant reconstructs to itself |
| Normalizer.TrailingZwnjBecomesSpace | src/main.rs:322 | the zero-width non-joiner after a letter becomes a space |
| Normalizer.TrailingSpaceIsTrimmed | src/main.rs:299 | a space at the end of a line is trimmed away |
| Normalizer.RejectedCharacterFails | src/main.rs:326-332 | a rejected code point that is not whitespace anywhere in the line makes the line fail |
| Normalizer.LatinLetterIsRejected | src/main.rs:326-332 | a line holding a Latin letter fails |
| Detectors.FirstMatch | src/main.rs:573-627 | no clue if and only if no rule matches; otherwise the tag is that of the first matching rule in the source's order |
| Detectors.ClueMarkers | src/main.rs:232-248 | no clue adds no marker, and a clue adds two markers of different kinds |
| Detectors.MarkersFromCount | src/main.rs:210-249 | each kind is recorded once if its detector fires, plus at most once for the clue |
| Detectors.CountMarkerIf | src/main.rs:216-230 | a detector that fires records exactly its own kind once |
| Detectors.ClueMarkersCount | src/main.rs:232-248 | a clue records each kind at most once |
| Detectors.MarkersPerKind | src/main.rs:210-249 | per hemistich, a kind's count is the detector's result plus the clue's contribution, and is at most two |
| Detectors.AlifMaddahAloneIsLong | src/main.rs:341 | an initial alif maddah means a long first syllable, even in a one-letter hemistich |
| Detectors.AmruzIsLongLong | src/main.rs:369-459 | a hemistich opening with "amruz" counts as long first and long second syllable |
| Detectors.ChuninIsShortLong | src/main.rs:408-491 | a hemistich opening with "chunin" or "chunan" counts as short first and long second syllable |
| AsWritten.Or | src/main.rs:341 | Rust's short-circuit or: the right side is only evaluated, and can only panic, when the left is false |
| AsWritten.And | src/main.rs:444 | Rust's short-circuit and: the right side is only evaluated when the left is true |
| AsWritten.ConsonantAt | src/main.rs:444 | `CONSONANTS.contains(&h[i])` panics exactly when `i` is past the end, and otherwise agrees with the bounds-checked test |
| AsWritten.LongFirstSyllable | src/main.rs:339-376 | it panics on an empty hemistich, returns on five letters or more, and when it returns it agrees with `Detectors.LongFirstSyllable` |
| AsWritten.ShortFirstSyllable | src/main.rs:378-425 | it panics below three letters, returns from four on, and agrees with `Detectors.ShortFirstSyllable` when it returns |
| AsWritten.LongSecondSyllable | src/main.rs:427-494 | it panics below five letters, returns from eight on, and agrees with `Detectors.LongSecondSyllable` when it returns |
| AsWritten.ShortSecondSyllable | src/main.rs:496-571 | it panics below six letters, returns from eight letters with six non-space letters, and agrees with `Detectors.ShortSecondSyllable` when it returns |
| AsWritten.ShortSecondOpening | src/main.rs:497-547 | the first four tests return from seven letters on and, when they return, hold exactly when one of the four opening rules matches |
| AsWritten.ShortSecondLater | src/main.rs:549-570 | the `two_six` slice panics when the space-free copy has fewer than six letters; when the last two tests return, they hold exactly when one of the two later rules matches |
| AsWritten.InitialClues | src/main.rs:573-627 | it panics if and only if the hemistich has fewer than six letters, and otherwise returns the first matching rule of the table |
| AsWritten.OpensIsPrefix | src/main.rs:574-576 | comparing a fixed slice with a pattern is the prefix test |
| AsWritten.ClueChainIsTheTable | src/main.rs:578-626 | the chain of `if` tests returns what the ordered rule table `Detectors.ClueRules` returns |
| AsWritten.FirstTwoRules | src/main.rs:578-586 | "kasi" and "yaki", each followed by a consonant, are tried first |
| AsWritten.MiddleThreeRules | src/main.rs:588-605 | "chist", "dust" and "nist " are tried next |
| AsWritten.HamChuRules | src/main.rs:607-612 | "hamchu " and "ham chu " both give the ham-chu clue |
| AsWritten.LastTwoRules | src/main.rs:614-626 | "chandan" then "kist", and otherwise no clue |
| AsWritten.KasiRule | src/main.rs:578-581 | "kasi " followed by a consonant gives the kasi clue |
| AsWritten.YakiRule | src/main.rs:583-586 | "yaki " followed by a consonant gives the yaki clue |
| AsWritten.ChistRule | src/main.rs:588-592 | "chist" gives the chist clue |
| AsWritten.DustRule | src/main.rs:594-598 | "dust" gives the dust clue |
| AsWritten.NistRule | src/main.rs:600-605 | "nist " gives the nist clue |
| AsWritten.HamChuRule | src/main.rs:609-612 | "hamchu " gives the ham-chu clue |
| AsWritten.HamSpaceChuRule | src/main.rs:609-612 | "ham chu " gives the ham-chu clue |
| AsWritten.ChandanRule | src/main.rs:614-618 | "chandan" gives the chandan clue |
| AsWritten.KistRule | src/main.rs:620-626 | "kist" gives the kist clue; after it there is no clue |
| AsWritten.RuleStep | src/main.rs:578-626 | one `if` of the chain is one step of the first-match search over the rule table |
| AsWritten.AnalyzeSyllables | src/main.rs:210-249 | it panics below six letters, returns from eight letters with six non-space letters, and then records the markers `Detectors.HemistichMarkers` gives |
| AsWritten.HeadingLinePanics | src/main.rs:339-346 | a three-letter line such as the heading "ghazal" reconstructs cleanly and then makes the detectors panic, where the corrected detectors record no marker |
| Detectors.HeadingLineHasNoMarkers | src/main.rs:210-249 | the bounds-checked detectors record no marker for the three-letter heading "ghazal" |
| Aggregator.AddTouchesOneKind | src/main.rs:43-69 | an `add_*` call raises its own count by one, appends the hemistich number to its own locations, and leaves the other kinds alone |
| Aggregator.AddAllCounts | src/main.rs:210-249 | after recording a hemistich's markers, each count rises by the number of markers of its kind, and each location list gains that many copies of the hemistich number |
| Aggregator.AddAllAppend | src/main.rs:210-249 | recording two runs of markers is recording their concatenation |
| Aggregator.Repeat | src/main.rs:43-69 | the repeated location list has the right length and entries |
| Aggregator.SyllableAnalysis.constructor | src/main.rs:29-39 | the default analysis has no markers and no locations |
| Aggregator.SyllableAnalysis.AddLongFirst | src/main.rs:43-48 | the long-first count rises by one and the hemistich number is appended to its locations; nothing else changes |
| Aggregator.SyllableAnalysis.AddShortFirst | src/main.rs:50-55 | the same for the short first syllable |
| Aggregator.SyllableAnalysis.AddLongSecond | src/main.rs:57-62 | the same for the long second syllable |
| Aggregator.SyllableAnalysis.AddShortSecond | src/main.rs:64-69 | the same for the short second syllable |
| Aggregator.AnalyzeSyllables | src/main.rs:210-249 | the method records exactly the hemistich's markers, in the source's order |
| Aggregator.RecordClue | src/main.rs:232-248 | the `match` on the clue tag records exactly the clue's two markers |
| Aggregator.PairRecorded | src/main.rs:234-245 | recording a pair is two `add_*` calls in order |
| Aggregator.RecordOneMore | src/main.rs:216-230 | recording one more marker after a run of markers is one more `add_*` call after the run |
| Aggregator.MapUntilError | src/main.rs:185-188 | the `?` loop yields one result per line when no line fails |
| Aggregator.MeterAnalysis.constructor | src/main.rs:178-181 | a fresh analysis has both meter flags false, no letters and an empty syllable analysis |
| Aggregator.AnalyzeHemistichs | src/main.rs:177-208 | the analysis fails with the first failing hemistich among the first forty; otherwise it holds the letter total and the markers of those hemistichs, numbered from 1 |
| Aggregator.FailurePersists | src/main.rs:188 | once a hemistich has failed, later hemistichs do not change the error |
| Aggregator.ErrorIsFinal | src/main.rs:188 | the same, for any line-by-line map with early return |
| Aggregator.NextHemistich | src/main.rs:185-205 | one loop step extends the reconstructed list, the tally and the letter total by the next hemistich |
| Aggregator.FirstFailure | src/main.rs:188 | the first failing hemistich's error is the analysis's error |
| Aggregator.ReconstructAllOk | src/main.rs:185-188 | when the analysis succeeds, each entry is that hemistich's reconstruction |
| Aggregator.ReconstructAllErr | src/main.rs:185-188 | when the analysis fails, some hemistich fails, every earlier one succeeds, and its error is the one reported |
| Aggregator.MappedOneByOne | src/main.rs:185-188 | the same as `ReconstructAllOk`, for any line-by-line map |
| Aggregator.FailsAtFirstError | src/main.rs:185-188 | the same as `ReconstructAllErr`, for any line-by-line map |
| Aggregator.TallyOfConsistent | src/main.rs:43-69 | every count equals the length of its location list |
| Aggregator.LocationsInOrder | src/main.rs:185-205 | every location list is in non-decreasing order and names hemistichs 1 to n |
| Aggregator.AppendRepeat | src/main.rs:43-69 | appending copies of a larger hemistich number keeps a location list ordered |
| Aggregator.MarkersBound | src/main.rs:210-249 | no count exceeds twice the number of hemistichs |
| Aggregator.LettersBound | src/main.rs:195-197 | the letter total of the reconstructed hemistichs is at most the number of code points read |
| MeterLength.AverageAtLeastIsDivision | src/main.rs:252-269 | the integer test is the comparison of the average with the threshold |
| MeterLength.Divisor | src/main.rs:255-259 | the divisor is the hemistich count capped at forty: it is at most both, and equal to one of them |
| MeterLength.BandsAreIntervals | src/main.rs:269-285 | the four outcomes are exactly the averages of at least 23.5, of 22.5 up to 23.5, of 21.0 up to 22.5, and below 21.0 |
| MeterLength.AnalyzeMeterLength | src/main.rs:251-288 | a long band sets the long flag, otherwise the short flag is set; no flag is cleared and the letter total is kept |
| Render.DigitChar | src/main.rs:46 | a digit is printed as a decimal digit character |
| Render.NatToString | src/main.rs:46 | a number prints as a non-empty string of digits with no leading zero |
| Render.DigitRoundTrip | src/main.rs:46 | a printed digit reads back as itself |
| Render.ParseNatToString | src/main.rs:46 | reading a printed hemistich number gives the number back |
| Render.JoinLocations | src/main.rs:651 | a non-empty location list ends in a digit |
| Render.TrimEndMatches | src/main.rs:651 | `trim_end_matches` returns a prefix of its argument that no longer ends with the pattern |
| Render.TrimmedLocations | src/main.rs:643-660 | the separator-terminated location string of `add_*`, trimmed, is the numbers joined by ", " |
| Render.AccumulatedIsJoinedPlusSeparator | src/main.rs:43-48 | the string `add_*` builds is the joined numbers plus one trailing ", " |
| Assessment.CountsAppend | src/main.rs:643-679 | the contradiction and caution counts of a report add up over its parts |
| Assessment.CountsOfShortReports | src/main.rs:643-679 | the counts of one- and two-line reports |
| Assessment.DecideNeedsTwoAndNoContrary | src/main.rs:664-677 | a verdict needs at least two markers of its kind and none of the other; the two verdicts exclude each other |
| Assessment.FirstIndications | src/main.rs:645-661 | each kind's indication line, with its count and locations, is printed exactly when its count is nonzero; there is no other line; the long one comes first, and there are as many lines as kinds with markers |
| Assessment.FirstConclusion | src/main.rs:663-677 | "appears to be long" exactly when there are two or more long markers and no short one, "appears to be short" likewise, the ramal remark and one contradiction exactly when both kinds have markers, and the insufficient-evidence remark otherwise; the "easier to detect" remark exactly with the insufficient-evidence remark; no line outside the six the source can print; two lines in the contradictory and the insufficient cases, the second being the ramal or the "easier to detect" remark, one line otherwise |
| Assessment.FirstSyllableAssessment | src/main.rs:633-680 | long if and only if more than one long marker and no short one, and short likewise; the report opens with its heading, holds each kind's indication exactly when its count is nonzero, says "appears to be long" or "short" exactly when that verdict is returned, and holds one contradiction exactly when both kinds have markers; the "easier to detect" remark comes exactly with the insufficient-evidence remark; no line outside the heading, the two indications and the six conclusion lines; the indications come right after the heading and before the conclusion, and the report ends with a remark; the report has one line for the heading, one per kind with markers, and two conclusion lines in the contradictory and insufficient cases or one otherwise |
| Assessment.FirstReportLines | src/main.rs:643-677 | the same membership and count facts about the report, proved from its three parts |
| Assessment.FirstReportShape | src/main.rs:643-677 | the report's lines are the heading, the indications and the conclusion lines only, in that order, with the "easier to detect" remark exactly beside the insufficient-evidence remark, and its length is one plus the indications plus the conclusion |
| Assessment.SecondIndication | src/main.rs:694-716 | the indication line, with its count and locations, is printed exactly when the count is nonzero, followed by a caution exactly when the count is one; there is no other line: no line for no markers, the indication and the caution for one marker, the indication alone for more |
| Assessment.SecondConclusion | src/main.rs:718-730 | "appears to be long" or "short" exactly when that kind has two or more markers and the other none, one contradiction exactly when both kinds have markers, and the insufficient-evidence remark otherwise; exactly one line, one of the four the source can print |
| Assessment.SecondSyllableAssessment | src/main.rs:682-733 | the same verdicts as for the first syllable; the report holds each kind's indication exactly when its count is nonzero, says "appears to be long" or "short" exactly when that verdict is returned, and holds one caution for each kind with a single marker; every caution directly follows an indication resting on one marker; the indications and cautions come right after the heading and before the conclusion, which is the last line and one of the four the source can print; no other line occurs; the report has the heading, the conclusion, and per kind no line, two lines for one marker or one line for more |
| Assessment.SecondReportLines | src/main.rs:694-730 | the indications and conclusions of the report, proved from its parts |
| Assessment.SecondReportCounts | src/main.rs:692-730 | the heading, the contradiction and the cautions of the report, proved from its parts |
| Assessment.SecondReportShape | src/main.rs:692-730 | the report is the heading, then the indications with their cautions, then one conclusion line; a caution directly follows an indication with one marker; no other line occurs |
| Assessment.AsGuidance | src/main.rs:744-840 | every sentence of a table row becomes one report line, in order |
| Assessment.FinalAssessment | src/main.rs:736-843 | the report is the heading followed by the sentences of the row the flags select |
| Assessment.OneMeterFlagDrawsConclusions | src/main.rs:836-840 | when exactly one meter flag is set, the report never says that the meter length is unclear |
| Decision.LengthOf | src/main.rs:747-831 | the long flag wins, then the short flag, otherwise the length is indeterminate |
| Decision.Choose | src/main.rs:747-840 | the unclear row is chosen if and only if no meter flag is set; the meter-only rows are chosen when the first syllable is unknown; otherwise the row follows the three lengths |
| Decision.QuestionRestatesTheFlags | src/main.rs:747-831 | a row opens with a question exactly when meter and first syllable are known, and the question restates the three lengths |
| Decision.OnlyUnclearRowIsUnclear | src/main.rs:836-840 | only the unclear row says that the length is unclear, and it says nothing else |
| Decision.RowSizes | src/main.rs:747-835 | every other row holds two or three sentences |
| Scansion.Scan | src/main.rs:100-138 | the result is the first reconstruction error among the first forty hemistichs or, failing that, both syllable assessments and the overall assessment of the tallies and the meter length |
| Scansion.MeterLengthIsNeverUnclear | src/main.rs:836-840 | `main` always sets exactly one meter flag, so the unclear row is never reached |

Several functions have no row of their own because they are the
reference definitions that the rows above are proved against:

- The predicates `Detectors.LongFirstSyllable`, `ShortFirstSyllable`,
  `LongSecondSyllable` and `ShortSecondSyllable` restate the rules of
  src/main.rs:339-571 with bounds checks. Their contract is the agreement
  with the as-written versions above.
- `Detectors.InitialClues` is the clue table of src/main.rs:573-627, and
  `Detectors.HemistichMarkers` lists the markers `analyze_syllables`
  records for one hemistich.
- `Normalizer.Reconstruct` is `reconstruct_hemistich` as a function.
- `Aggregator.ReconstructAll`, `TallyOf` and `LettersOf` are the loop of
  `analyze_hemistichs` as functions.
- `MeterLength.MeterBand` and `IsLong` are the thresholds of
  `analyze_meter_length`.
- `Assessment.Decide` is the verdict branch shared by both assessors.
- `Scansion.ConclusionsOf` is the tail of `main`.
- `Decision.Guidance` is the table of src/main.rs:747-840, and
  `Assessment.LineText` and `Decision.AdviceText` give the exact sentences.

## Left out

- `main`'s command-line parsing, `load_poem` and `preprocess`: file I/O, a regular expression that collapses runs of blank lines, `poem.trim()`, and the `MIN_HEMISTICHS` check. `Scansion.Scan` receives the hemistichs as a sequence of lines, and `lines()` splitting is not modelled.
- The echo of each reconstructed hemistich, the meter-length report text and the `{:.1}` average are not modelled; they only add text to the report.
- The `f64` division of the average is modelled exactly with integers. `Divisor` keeps the cap at forty; zero hemistichs give +infinity (long) or NaN (short), as in IEEE arithmetic.
- `u32`/`usize` counters are unbounded naturals. The marker counters stay at most 80 for forty hemistichs (`Aggregator.MarkersBound`). `total_letters` is a `u32` filled by `hem_nospace.len() as u32`, a cast that would truncate, and a `+=` that would overflow, at src/main.rs:195-197. Neither can happen because `load_poem` refuses files over `MAX_FILE_SIZE`, 10,000 bytes (src/main.rs:81, 149-155). Every code point takes at least one byte, and `Aggregator.LettersBound` shows that the letter total is at most the number of code points read. The file-size cap itself lies outside the model, with `load_poem`.
- The error message's `escape_unicode` text: the error value carries the rejected character.
- `str::trim` is modelled as stripping the Unicode White_Space characters at both ends.
- The `writeln!` formatting errors of the assessors cannot occur on a `String` and are not modelled.
- Normalizer.ReconstructIsIdempotent: stated only for a reconstruction that neither starts nor ends with a space, because a trailing zero-width non-joiner breaks idempotence (`TrailingZwnjIsNotIdempotent`).
- AsWritten.ShortFirstSyllable, AsWritten.LongSecondSyllable, AsWritten.ShortSecondSyllable, AsWritten.ShortSecondLater, AsWritten.AnalyzeSyllables: for lengths between the panic bound and the return bound, the contracts only say that a result, when there is one, agrees with the total detector. Whether those lengths panic depends on which test decides first.
- Other scripts under the repository, such as a line-count helper, are not part of this model.

## Findings

| source | as written | input that shows it | evidently intended | confidence | as-written member | corrected member |
|---|---|---|---|---|---|---|
| src/main.rs:339-627 | the detectors index and slice the hemistich at fixed offsets without bounds checks, so any line shorter than five or six letters panics the whole run | the heading line "غزل" (three letters), which reconstructs without error | a short line gives no evidence and records no marker; the source's own comment at src/main.rs:345 says the slice would panic below five letters | not executed | AsWritten.HeadingLinePanics | Detectors.HeadingLineHasNoMarkers |

The corrected detectors in `Detectors` test bounds rule by rule. The tally
(`Aggregator.TallyOf`, `Aggregator.AnalyzeHemistichs`) is built on them.
