// Case-insensitive string equality, as used by `string.Equals` with the
// `OrdinalIgnoreCase` and `CurrentCultureIgnoreCase` comparisons.
// Both are modelled by ASCII upper-case folding: two strings are equal when
// they have the same length and their characters agree after folding.
module CaseInsensitive {
  import opened Wrappers

  /** Simple upper-case mapping of one character ('a'..'z' to 'A'..'Z'). */
  function UpperChar(c: char): (u: char)
    // no lower-case letter is left, letters stay letters, and every other
    // character is left as it is
    ensures !('a' <= u <= 'z')
    ensures 'A' <= u <= 'Z' <==> 'A' <= c <= 'Z' || 'a' <= c <= 'z'
    ensures !('a' <= c <= 'z') ==> u == c
  {
    if 'a' <= c <= 'z' then (c as int - 32) as char else c
  }

  /** The whole string folded to upper case: a string of the same length,
      without lower-case letters, equal to the original ignoring case. */
  function Upper(s: string): (u: string)
    ensures |u| == |s|
    ensures forall i :: 0 <= i < |u| ==> !('a' <= u[i] <= 'z')
    ensures EqualsIgnoreCase(s, u)
  {
    seq(|s|, i requires 0 <= i < |s| => UpperChar(s[i]))
  }

  /** `string.Equals(a, b, ...IgnoreCase)` on two non-null strings: the
      comparison walks both strings position by position. */
  predicate EqualsIgnoreCase(a: string, b: string)
  {
    |a| == |b| && forall i :: 0 <= i < |a| ==> UpperChar(a[i]) == UpperChar(b[i])
  }

  /** `string.Equals(a, b, ...IgnoreCase)` on references that may be null:
      two nulls are equal, a null and a string are not. */
  predicate NullableEqualsIgnoreCase(a: Option<string>, b: Option<string>)
  {
    match (a, b)
    case (None, None) => true
    case (Some(x), Some(y)) => EqualsIgnoreCase(x, y)
    case _ => false
  }

  /** The position-wise comparison agrees with comparing the folded strings. */
  lemma EqualsIgnoreCaseIffSameUpper(a: string, b: string)
    ensures EqualsIgnoreCase(a, b) <==> Upper(a) == Upper(b)
  {
    if Upper(a) == Upper(b) {
      forall i | 0 <= i < |a|
        ensures UpperChar(a[i]) == UpperChar(b[i])
      {
        assert Upper(a)[i] == Upper(b)[i];
      }
    }
  }

  /** Case-insensitive equality is an equivalence relation. */
  lemma EqualsIgnoreCaseIsEquivalence(a: string, b: string, c: string)
    ensures EqualsIgnoreCase(a, a)
    ensures EqualsIgnoreCase(a, b) ==> EqualsIgnoreCase(b, a)
    ensures EqualsIgnoreCase(a, b) && EqualsIgnoreCase(b, c) ==> EqualsIgnoreCase(a, c)
  {
  }

  /** The null-aware comparison is an equivalence relation too; in
      particular a null is equal to a null only. */
  lemma NullableEqualsIgnoreCaseIsEquivalence(a: Option<string>, b: Option<string>, c: Option<string>)
    ensures NullableEqualsIgnoreCase(a, a)
    ensures NullableEqualsIgnoreCase(a, b) ==> NullableEqualsIgnoreCase(b, a)
    ensures NullableEqualsIgnoreCase(a, b) && NullableEqualsIgnoreCase(b, c) ==> NullableEqualsIgnoreCase(a, c)
    ensures NullableEqualsIgnoreCase(None, b) <==> b.None?
  {
  }
}
