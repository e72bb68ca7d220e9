/** `limited(value)`, the size bound both exporters put on free text and
    URLs before writing them: the text of `str(value)` is kept when it has at
    most 180 characters, and otherwise cut to 177 characters followed by
    "...". Callers apply `str` themselves (see PyStr.StrOf). */
module Truncate {

  /** Longest text `limited` lets through. */
  const MaxLength: nat := 180

  /** Characters kept in front of the ellipsis when the text is cut. */
  const KeptLength: nat := 177

  const Ellipsis: string := "..."

  function Limited(s: string): (r: string)
    ensures |r| <= MaxLength
    ensures |s| <= MaxLength ==> r == s
    ensures |s| > MaxLength ==> |r| == MaxLength && r[..KeptLength] == s[..KeptLength]
                                && r[KeptLength..] == Ellipsis
  {
    if |s| <= MaxLength then s else s[..KeptLength] + Ellipsis
  }

  /** A bounded text passes through `limited` unchanged, so applying it
      twice is the same as applying it once. */
  lemma LimitedIdempotent(s: string)
    ensures Limited(Limited(s)) == Limited(s)
  {
  }

  /** Cutting never invents a character other than the dots of the
      ellipsis: a character missing from the input is missing from the
      output. */
  lemma LimitedKeepsOut(s: string, c: char)
    requires c != '.' && c !in s
    ensures c !in Limited(s)
  {
    var r := Limited(s);
    if |s| > MaxLength {
      forall i | 0 <= i < |r| ensures r[i] != c {
        if i < KeptLength {
          assert r[i] == r[..KeptLength][i] == s[..KeptLength][i] == s[i];
        } else {
          assert r[i] == r[KeptLength..][i - KeptLength];
        }
      }
    }
  }
}
