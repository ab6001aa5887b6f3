/** Character classes used by the keyword extractor.

    Python's `str.isdigit` and `str.isalnum` accept every Unicode digit and
    letter; this model restricts them to the ASCII digits and letters. As in
    Python, the empty string is neither all digits nor alphanumeric. */
module Chars {

  predicate IsDigitChar(c: char) {
    '0' <= c <= '9'
  }

  predicate IsLetterChar(c: char) {
    'a' <= c <= 'z' || 'A' <= c <= 'Z'
  }

  predicate IsAlnumChar(c: char) {
    IsDigitChar(c) || IsLetterChar(c)
  }

  /** `s.isdigit()`: non-empty and every character a digit; a string of
      digits is also alphanumeric. */
  predicate IsDigits(s: string)
    ensures IsDigits(s) ==> IsAlnum(s)
  {
    |s| > 0 && forall i :: 0 <= i < |s| ==> IsDigitChar(s[i])
  }

  /** `s.isalnum()`: non-empty and every character a digit or a letter,
      wherever in `s` it occurs. */
  predicate IsAlnum(s: string)
    ensures IsAlnum(s) <==> |s| > 0 && forall c | c in s :: IsAlnumChar(c)
  {
    |s| > 0 && forall i :: 0 <= i < |s| ==> IsAlnumChar(s[i])
  }

  /** Joining two alphanumeric strings gives an alphanumeric string. */
  lemma AlnumConcat(a: string, b: string)
    requires IsAlnum(a) && IsAlnum(b)
    ensures IsAlnum(a + b)
  {
    forall i | 0 <= i < |a + b|
      ensures IsAlnumChar((a + b)[i])
    {
      if i < |a| {
        assert (a + b)[i] == a[i];
      } else {
        assert (a + b)[i] == b[i - |a|];
      }
    }
  }
}
