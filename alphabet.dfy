/** The closed script the scansion engine works on: four vowel letters,
    thirty consonants (isolated hamza included) and the space. The
    constants are named after their Unicode character names; Kaf is the
    Persian keheh (U+06A9) and Yeh the Persian yeh (U+06CC). */
module Alphabet {

  // Vowel letters
  const Alif: char := '\U{0627}'
  const AlifMaddah: char := '\U{0622}'
  const Waw: char := '\U{0648}'
  const Yeh: char := '\U{06CC}'

  // Consonants
  const Hamza: char := '\U{0621}'
  const Beh: char := '\U{0628}'
  const Peh: char := '\U{067E}'
  const Teh: char := '\U{062A}'
  const Theh: char := '\U{062B}'
  const Jeem: char := '\U{062C}'
  const Tcheh: char := '\U{0686}'
  const Hah: char := '\U{062D}'
  const Khah: char := '\U{062E}'
  const Dal: char := '\U{062F}'
  const Thal: char := '\U{0630}'
  const Reh: char := '\U{0631}'
  const Zain: char := '\U{0632}'
  const Jeh: char := '\U{0698}'
  const Seen: char := '\U{0633}'
  const Sheen: char := '\U{0634}'
  const Sad: char := '\U{0635}'
  const Dad: char := '\U{0636}'
  const Tah: char := '\U{0637}'
  const Zah: char := '\U{0638}'
  const Ain: char := '\U{0639}'
  const Ghain: char := '\U{063A}'
  const Feh: char := '\U{0641}'
  const Qaf: char := '\U{0642}'
  const Kaf: char := '\U{06A9}'
  const Gaf: char := '\U{06AF}'
  const Lam: char := '\U{0644}'
  const Meem: char := '\U{0645}'
  const Noon: char := '\U{0646}'
  const Heh: char := '\U{0647}'

  const Space: char := ' '

  /** The vowel letters the normaliser passes through. */
  const Vowels: set<char> := {Alif, AlifMaddah, Waw, Yeh}

  /** The consonant table (listed in the source's order). */
  const Consonants: set<char> :=
    {Hamza, Beh, Peh, Teh, Theh, Jeem, Tcheh, Hah, Khah, Dal, Thal, Reh, Zain, Jeh, Seen,
     Sheen, Sad, Dad, Tah, Zah, Ain, Ghain, Feh, Qaf, Kaf, Gaf, Lam, Meem, Noon, Heh}

  predicate IsVowel(c: char) {
    c in Vowels
  }

  predicate IsConsonant(c: char) {
    c in Consonants
  }

  /** A character that may appear in a reconstructed hemistich. */
  predicate IsCanonical(c: char) {
    IsVowel(c) || IsConsonant(c) || c == Space
  }

  /** The Unicode White_Space property, which Rust's `str::trim` strips. */
  predicate IsWhitespace(c: char) {
    ('\U{0009}' <= c <= '\U{000D}') || c == ' ' || c == '\U{0085}' || c == '\U{00A0}'
    || c == '\U{1680}' || ('\U{2000}' <= c <= '\U{200A}') || c == '\U{2028}' || c == '\U{2029}'
    || c == '\U{202F}' || c == '\U{205F}' || c == '\U{3000}'
  }

  /** No consonant is a vowel letter, and no letter of the script is
      whitespace, so trimming never removes a letter. */
  lemma AlphabetIsWellFormed()
    ensures forall c :: IsConsonant(c) ==> !IsVowel(c) && !IsWhitespace(c)
    ensures forall c :: IsVowel(c) ==> !IsWhitespace(c)
  {
  }
}
