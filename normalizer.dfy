/** The normaliser: `reconstruct_hemistich` maps one line of script to the
    canonical alphabet, or fails on the first code point it does not know. */
module Normalizer {
  import opened Wrappers
  import opened Alphabet

  /** The one error of the core: a code point outside the accepted script. */
  datatype ReconstructionError = UnexpectedCharacter(c: char)

  // Presentation variants and other accepted code points
  const AlifHamzaAbove: char := '\U{0623}'
  const WawHamzaAbove: char := '\U{0624}'
  const YehHamzaAbove: char := '\U{0626}'
  const TehMarbuta: char := '\U{0629}'
  const Zwnj: char := '\U{200C}'
  const ArabicComma: char := '\U{060C}'
  const ArabicQuestionMark: char := '\U{061F}'

  /** Hamza above, fatha, shadda, damma, kasra, sukun, fathatan, dagger alif,
      kasratan and dammatan: dropped without trace. */
  const Diacritics: set<char> :=
    {'\U{0654}', '\U{064E}', '\U{0651}', '\U{064F}', '\U{0650}', '\U{0652}', '\U{064B}',
     '\U{0670}', '\U{064D}', '\U{064C}'}

  /** Comma, question mark and exclamation mark: dropped as well. */
  const LightPunctuation: set<char> := {ArabicComma, ArabicQuestionMark, '!'}

  /** What the normaliser does with one code point. */
  datatype Action = Emit(letter: char) | Skip | Reject

  /** The match on one code point inside the reconstruction loop. */
  function Classify(c: char): (a: Action)
    ensures a.Emit? ==> IsCanonical(a.letter)
    ensures IsCanonical(c) ==> a == Emit(c)
    ensures c == AlifHamzaAbove ==> a == Emit(Alif)
    ensures c == WawHamzaAbove ==> a == Emit(Waw)
    ensures c == YehHamzaAbove ==> a == Emit(Yeh)
    ensures c == TehMarbuta ==> a == Emit(Heh)
    ensures c == Zwnj ==> a == Emit(Space)
    ensures a == Skip <==> c in Diacritics || c in LightPunctuation
    ensures a == Reject <==> (&& !IsCanonical(c) && c !in Diacritics && c !in LightPunctuation
                              && c !in {AlifHamzaAbove, WawHamzaAbove, YehHamzaAbove, TehMarbuta, Zwnj})
  {
    if IsVowel(c) || IsConsonant(c) || c == Space then Emit(c)
    else if c == AlifHamzaAbove then Emit(Alif)
    else if c == WawHamzaAbove then Emit(Waw)
    else if c == YehHamzaAbove then Emit(Yeh)
    else if c == TehMarbuta then Emit(Heh)
    else if c in Diacritics then Skip
    else if c == Zwnj then Emit(Space)
    else if c in LightPunctuation then Skip
    else Reject
  }

  /** The number of whitespace characters `s` starts with. */
  function LeadingWhitespace(s: seq<char>): (n: nat)
    ensures n <= |s|
    ensures forall j :: 0 <= j < n ==> IsWhitespace(s[j])
    ensures n == |s| || !IsWhitespace(s[n])
  {
    if s != [] && IsWhitespace(s[0]) then 1 + LeadingWhitespace(s[1..]) else 0
  }

  /** The number of whitespace characters `s` ends with. */
  function TrailingWhitespace(s: seq<char>): (n: nat)
    ensures n <= |s|
    ensures forall j :: |s| - n <= j < |s| ==> IsWhitespace(s[j])
    ensures n == |s| || !IsWhitespace(s[|s| - 1 - n])
  {
    if s != [] && IsWhitespace(s[|s| - 1]) then 1 + TrailingWhitespace(s[..|s| - 1]) else 0
  }

  /** Rust's `str::trim`: strip Unicode whitespace at both ends. */
  function Trim(s: seq<char>): (t: seq<char>)
    ensures |t| <= |s|
    ensures t == [] || (!IsWhitespace(t[0]) && !IsWhitespace(t[|t| - 1]))
  {
    var lead := LeadingWhitespace(s);
    var rest := s[lead..];
    rest[..|rest| - TrailingWhitespace(rest)]
  }

  /** Trimming removes whitespace from the two ends and nothing else: the
      result is a slice of the line with only whitespace around it. */
  lemma TrimRemovesOnlyTheEnds(s: seq<char>)
    ensures exists a, b :: && 0 <= a <= b <= |s| && Trim(s) == s[a..b]
                           && (forall j :: 0 <= j < a ==> IsWhitespace(s[j]))
                           && (forall j :: b <= j < |s| ==> IsWhitespace(s[j]))
  {
    var a := LeadingWhitespace(s);
    var rest := s[a..];
    var b := a + |rest| - TrailingWhitespace(rest);
    assert Trim(s) == s[a..b];
    forall j | b <= j < |s|
      ensures IsWhitespace(s[j])
    {
      assert s[j] == rest[j - a];
    }
  }

  /** Reconstruction of an already trimmed line: every accepted code point
      contributes at most one letter, and the first rejected one is the error. */
  function ReconstructChars(s: seq<char>): (r: Result<seq<char>, ReconstructionError>)
    ensures r.Ok? ==> |r.value| <= |s|
  {
    if s == [] then Ok([])
    else
      var init := s[..|s| - 1];
      var last := s[|s| - 1];
      match ReconstructChars(init)
      case Err(e) => Err(e)
      case Ok(out) =>
        match Classify(last)
        case Emit(l) => Ok(out + [l])
        case Skip => Ok(out)
        case Reject => Err(UnexpectedCharacter(last))
  }

  /** Every letter of a reconstruction is a vowel, a consonant or a space. */
  lemma {:induction false} ReconstructedTextIsCanonical(s: seq<char>)
    requires ReconstructChars(s).Ok?
    ensures forall i :: 0 <= i < |ReconstructChars(s).value| ==> IsCanonical(ReconstructChars(s).value[i])
  {
    if s != [] {
      ReconstructedTextIsCanonical(s[..|s| - 1]);
    }
  }

  /** The line reconstructs exactly when none of its code points is
      rejected, and a failure names the first rejected one. */
  lemma {:induction false} ReconstructFailsAtFirstRejected(s: seq<char>)
    ensures ReconstructChars(s).Ok? <==> forall i :: 0 <= i < |s| ==> !Classify(s[i]).Reject?
    ensures ReconstructChars(s).Err? ==>
              exists i :: FirstRejectedAt(s, i) && ReconstructChars(s).error == UnexpectedCharacter(s[i])
  {
    if s != [] {
      var init := s[..|s| - 1];
      ReconstructFailsAtFirstRejected(init);
      assert forall i :: 0 <= i < |init| ==> init[i] == s[i];
      if ReconstructChars(init).Err? {
        var i :| FirstRejectedAt(init, i) && ReconstructChars(init).error == UnexpectedCharacter(init[i]);
        assert FirstRejectedAt(s, i);
      } else if Classify(s[|s| - 1]).Reject? {
        assert FirstRejectedAt(s, |s| - 1);
      }
    }
  }

  /** `s[i]` is rejected and nothing before it is. */
  ghost predicate FirstRejectedAt(s: seq<char>, i: int) {
    0 <= i < |s| && Classify(s[i]).Reject? && forall j :: 0 <= j < i ==> !Classify(s[j]).Reject?
  }

  /** The reconstructed hemistich: the trimmed line, character by character. */
  function Reconstruct(hem: seq<char>): Result<seq<char>, ReconstructionError> {
    ReconstructChars(Trim(hem))
  }

  /** `reconstruct_hemistich`: the loop pushes one letter per accepted code
      point and returns at the first rejected one. */
  method ReconstructHemistich(hem: seq<char>) returns (r: Result<seq<char>, ReconstructionError>)
    ensures r == Reconstruct(hem)
  {
    var t := Trim(hem);
    var out: seq<char> := [];
    var i := 0;
    while i < |t|
      invariant 0 <= i <= |t|
      invariant ReconstructChars(t[..i]) == Ok(out)
    {
      var c := t[i];
      assert t[..i + 1][..i] == t[..i];
      match Classify(c) {
        case Emit(l) =>
          out := out + [l];
        case Skip =>
        case Reject =>
          ErrorPersists(t, i + 1);
          return Err(UnexpectedCharacter(c));
      }
      i := i + 1;
    }
    assert t[..i] == t;
    r := Ok(out);
  }

  /** Once a prefix fails, the whole line fails with the same error. */
  lemma {:induction false} ErrorPersists(s: seq<char>, n: nat)
    requires n <= |s| && ReconstructChars(s[..n]).Err?
    ensures ReconstructChars(s) == ReconstructChars(s[..n])
    decreases |s| - n
  {
    if n < |s| {
      assert s[..n + 1][..n] == s[..n];
      ErrorPersists(s, n + 1);
    } else {
      assert s[..n] == s;
    }
  }

  /** `hem_nospace`: the reconstruction with its spaces removed. */
  function RemoveSpaces(s: seq<char>): (r: seq<char>)
    ensures |r| <= |s|
  {
    if s == [] then []
    else
      var init := RemoveSpaces(s[..|s| - 1]);
      if s[|s| - 1] == Space then init else init + [s[|s| - 1]]
  }

  /** Removing spaces keeps every other letter, as often as it occurs, and
      leaves no space behind. */
  lemma {:induction false} RemoveSpacesKeepsLetters(s: seq<char>)
    ensures forall i :: 0 <= i < |RemoveSpaces(s)| ==> RemoveSpaces(s)[i] != Space
    ensures multiset(RemoveSpaces(s))[Space] == 0
    ensures forall c :: c != Space ==> multiset(RemoveSpaces(s))[c] == multiset(s)[c]
  {
    if s != [] {
      var init := s[..|s| - 1];
      RemoveSpacesKeepsLetters(init);
      assert s == init + [s[|s| - 1]];
    }
  }

  /** Removing spaces works piece by piece, so the remaining letters keep
      their order. */
  lemma {:induction false} RemoveSpacesAppend(a: seq<char>, b: seq<char>)
    ensures RemoveSpaces(a + b) == RemoveSpaces(a) + RemoveSpaces(b)
    decreases |b|
  {
    if b == [] {
      assert a + b == a;
    } else {
      var init := b[..|b| - 1];
      assert (a + b)[..|a + b| - 1] == a + init;
      RemoveSpacesAppend(a, init);
    }
  }

  /** Text already in the canonical alphabet, with no whitespace at either
      end, comes back unchanged. */
  lemma CanonicalTextIsUnchanged(s: seq<char>)
    requires forall i :: 0 <= i < |s| ==> IsCanonical(s[i])
    requires s == [] || (!IsWhitespace(s[0]) && !IsWhitespace(s[|s| - 1]))
    ensures Reconstruct(s) == Ok(s)
  {
    TrimKeepsUntrimmed(s);
    ReconstructTrimmedCanonical(s);
  }

  lemma ReconstructTrimmedCanonical(s: seq<char>)
    requires Trim(s) == s
    requires forall i :: 0 <= i < |s| ==> IsCanonical(s[i])
    ensures Reconstruct(s) == Ok(s)
  {
    ReconstructCanonicalChars(s);
  }

  lemma {:induction false} ReconstructCanonicalChars(s: seq<char>)
    requires forall i :: 0 <= i < |s| ==> IsCanonical(s[i])
    ensures ReconstructChars(s) == Ok(s)
  {
    if s != [] {
      ReconstructCanonicalChars(s[..|s| - 1]);
      assert s[..|s| - 1] + [s[|s| - 1]] == s;
    }
  }

  lemma TrimKeepsUntrimmed(s: seq<char>)
    requires s == [] || (!IsWhitespace(s[0]) && !IsWhitespace(s[|s| - 1]))
    ensures Trim(s) == s
  {
  }

  /** Reconstructing a second time changes nothing, provided the first
      result neither starts nor ends with a space. */
  lemma ReconstructIsIdempotent(hem: seq<char>)
    requires Reconstruct(hem).Ok?
    requires var s := Reconstruct(hem).value; s == [] || (!IsWhitespace(s[0]) && !IsWhitespace(s[|s| - 1]))
    ensures Reconstruct(Reconstruct(hem).value) == Reconstruct(hem)
  {
    ReconstructedTextIsCanonical(Trim(hem));
    CanonicalTextIsUnchanged(Reconstruct(hem).value);
  }

  /** Without that proviso it fails: a trailing ZWNJ becomes a space, which
      the next pass trims away. */
  lemma TrailingZwnjIsNotIdempotent()
    ensures Reconstruct([Beh, Zwnj]) == Ok([Beh, Space])
    ensures Reconstruct([Beh, Space]) == Ok([Beh])
  {
    TrailingZwnjBecomesSpace();
    TrailingSpaceIsTrimmed();
  }

  lemma ReconstructBeh()
    ensures ReconstructChars([Beh]) == Ok([Beh])
  {
    var s := [Beh];
    assert s[..0] == [];
    assert ReconstructChars(s[..0]) == Ok([]);
    assert Classify(s[0]) == Emit(Beh);
    assert [] + [Beh] == [Beh];
  }

  lemma TrailingZwnjBecomesSpace()
    ensures Reconstruct([Beh, Zwnj]) == Ok([Beh, Space])
  {
    assert Classify(Zwnj) == Emit(Space);
    TrimKeepsUntrimmed([Beh, Zwnj]);
    ReconstructBeh();
    var s := [Beh, Zwnj];
    assert s[..1] == [Beh];
    assert ReconstructChars(s[..1]) == Ok([Beh]);
    assert [Beh] + [Space] == [Beh, Space];
  }

  lemma TrailingSpaceIsTrimmed()
    ensures Reconstruct([Beh, Space]) == Ok([Beh])
  {
    assert TrailingWhitespace([Beh, Space]) == 1;
    assert [Beh, Space][0..][..1] == [Beh];
    assert Trim([Beh, Space]) == [Beh];
    ReconstructBeh();
  }

  /** A rejected code point that is not whitespace fails the line, wherever
      it stands; whitespace is rejected only inside the line. */
  lemma RejectedCharacterFails(hem: seq<char>, i: nat)
    requires i < |hem| && Classify(hem[i]).Reject? && !IsWhitespace(hem[i])
    ensures Reconstruct(hem).Err?
  {
    var k := LeadingWhitespace(hem);
    var u := hem[k..];
    var t := Trim(hem);
    assert u[i - k] == hem[i];
    assert t[i - k] == hem[i];
    ReconstructFailsAtFirstRejected(t);
  }

  /** For one: a Latin letter. */
  lemma LatinLetterIsRejected(hem: seq<char>, i: nat)
    requires i < |hem| && hem[i] == 'a'
    ensures Reconstruct(hem).Err?
  {
    RejectedCharacterFails(hem, i);
  }
}
