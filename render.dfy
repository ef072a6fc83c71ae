/** How the reports print hemistich numbers and location lists. The source
    appends `n.to_string()` and `", "` to a location string at every marker
    and strips the trailing separators with `trim_end_matches(", ")` when it
    prints the list; the model keeps the numbers and joins them. */
module Render {

  function DigitChar(d: nat): (c: char)
    requires d < 10
    ensures '0' <= c <= '9'
  {
    "0123456789"[d]
  }

  function DigitValue(c: char): nat
    requires '0' <= c <= '9'
  {
    c as int - '0' as int
  }

  predicate AllDigits(s: string) {
    forall i :: 0 <= i < |s| ==> '0' <= s[i] <= '9'
  }

  /** `n.to_string()`: decimal digits, most significant first. */
  function NatToString(n: nat): (s: string)
    ensures |s| > 0 && AllDigits(s)
    ensures s[0] == '0' ==> n == 0
  {
    if n < 10 then [DigitChar(n)] else NatToString(n / 10) + [DigitChar(n % 10)]
  }

  /** Reading decimal digits back. */
  function ParseNat(s: string): nat
    requires AllDigits(s)
  {
    if s == [] then 0 else 10 * ParseNat(s[..|s| - 1]) + DigitValue(s[|s| - 1])
  }

  lemma DigitRoundTrip(d: nat)
    requires d < 10
    ensures DigitValue(DigitChar(d)) == d
  {
    assert "0123456789"[d] as int == '0' as int + d;
  }

  /** Printing a number and reading it back gives the number. */
  lemma {:induction false} ParseNatToString(n: nat)
    ensures ParseNat(NatToString(n)) == n
  {
    if n < 10 {
      DigitRoundTrip(n);
      assert NatToString(n)[..0] == [];
    } else {
      var s := NatToString(n);
      ParseNatToString(n / 10);
      DigitRoundTrip(n % 10);
      assert s[..|s| - 1] == NatToString(n / 10);
    }
  }

  /** The location list as printed: the numbers joined by `", "`. */
  function JoinLocations(locs: seq<nat>): (s: string)
    ensures locs != [] ==> |s| > 0 && '0' <= s[|s| - 1] <= '9'
  {
    if locs == [] then ""
    else if |locs| == 1 then NatToString(locs[0])
    else JoinLocations(locs[..|locs| - 1]) + ", " + NatToString(locs[|locs| - 1])
  }

  /** The location string as `add_*` builds it: each number followed by
      `", "`. */
  function AccumulatedLocations(locs: seq<nat>): string {
    if locs == [] then "" else AccumulatedLocations(locs[..|locs| - 1]) + NatToString(locs[|locs| - 1]) + ", "
  }

  /** Rust's `trim_end_matches(pat)`: strips `pat` from the end as long as it
      is there. */
  function TrimEndMatches(s: string, pat: string): (t: string)
    requires |pat| > 0
    ensures |t| <= |s| && t == s[..|t|]
    ensures !(|pat| <= |t| && t[|t| - |pat|..] == pat)
    decreases |s|
  {
    if |pat| <= |s| && s[|s| - |pat|..] == pat then TrimEndMatches(s[..|s| - |pat|], pat) else s
  }

  /** The separator-terminated string of the source, trimmed, is the joined
      list of the model. */
  lemma TrimmedLocations(locs: seq<nat>)
    ensures TrimEndMatches(AccumulatedLocations(locs), ", ") == JoinLocations(locs)
  {
    if locs != [] {
      AccumulatedIsJoinedPlusSeparator(locs);
      var j := JoinLocations(locs);
      assert (j + ", ")[..|j|] == j;
      assert (j + ", ")[|j + ", "| - 2..] == ", ";
    }
  }

  lemma {:induction false} AccumulatedIsJoinedPlusSeparator(locs: seq<nat>)
    requires locs != []
    ensures AccumulatedLocations(locs) == JoinLocations(locs) + ", "
  {
    if |locs| == 1 {
      assert locs[..0] == [];
    } else {
      AccumulatedIsJoinedPlusSeparator(locs[..|locs| - 1]);
    }
  }
}
