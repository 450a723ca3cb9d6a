/**
 * Lower-casing of header names, as `String.toLowerCase()` does it for the
 * ASCII letters. Locale-specific mappings (the Turkish dotless i, for
 * instance) and non-ASCII letters are not modelled: every character outside
 * 'A'..'Z' is kept as it is.
 */
module AsciiCase {

  /** An ASCII upper-case letter. */
  predicate IsUpper(c: char) {
    'A' <= c <= 'Z'
  }

  /** A string with no ASCII upper-case letter in it. */
  predicate IsLowerCase(s: string) {
    forall i :: 0 <= i < |s| ==> !IsUpper(s[i])
  }

  /** Lower-cases one character: 'A'..'Z' become 'a'..'z', all else is kept. */
  function LowerChar(c: char): (r: char)
    ensures !IsUpper(r)
    ensures r == c <==> !IsUpper(c)
    ensures IsUpper(c) ==> 'a' <= r <= 'z' && r as int - c as int == 'a' as int - 'A' as int
  {
    if IsUpper(c) then (c as int + ('a' as int - 'A' as int)) as char else c
  }

  /** The lower-case form of a string, character by character. */
  function ToLowerCase(s: string): (r: string)
    ensures |r| == |s|
    ensures IsLowerCase(r)
    ensures forall i :: 0 <= i < |s| ==> r[i] == LowerChar(s[i])
  {
    if s == [] then [] else [LowerChar(s[0])] + ToLowerCase(s[1..])
  }

  /** A string is its own lower-case form exactly when it has no upper-case letter. */
  lemma {:induction false} ToLowerCaseFixedIff(s: string)
    ensures ToLowerCase(s) == s <==> IsLowerCase(s)
  {
    if IsLowerCase(s) {
      forall i | 0 <= i < |s| ensures ToLowerCase(s)[i] == s[i] {
        assert !IsUpper(s[i]);
      }
    }
  }

  /** Lower-casing twice is lower-casing once. */
  lemma {:induction false} ToLowerCaseIdempotent(s: string)
    ensures ToLowerCase(ToLowerCase(s)) == ToLowerCase(s)
  {
    ToLowerCaseFixedIff(ToLowerCase(s));
  }

  /** Two strings have the same lower-case form exactly when they agree letter by letter up to case. */
  lemma {:induction false} ToLowerCaseEqualIff(a: string, b: string)
    ensures ToLowerCase(a) == ToLowerCase(b) <==>
            |a| == |b| && forall i :: 0 <= i < |a| ==> LowerChar(a[i]) == LowerChar(b[i])
  {
    if |a| == |b| && forall i :: 0 <= i < |a| ==> LowerChar(a[i]) == LowerChar(b[i]) {
      forall i | 0 <= i < |a| ensures ToLowerCase(a)[i] == ToLowerCase(b)[i] {
      }
    }
    if ToLowerCase(a) == ToLowerCase(b) {
      forall i | 0 <= i < |a| ensures LowerChar(a[i]) == LowerChar(b[i]) {
        assert ToLowerCase(a)[i] == ToLowerCase(b)[i];
      }
    }
  }

  /** Lower-casing a concatenation lower-cases each part. */
  lemma {:induction false} ToLowerCaseAppend(a: string, b: string)
    ensures ToLowerCase(a + b) == ToLowerCase(a) + ToLowerCase(b)
  {
    forall i | 0 <= i < |a| + |b| ensures ToLowerCase(a + b)[i] == (ToLowerCase(a) + ToLowerCase(b))[i] {
      if i < |a| {
        assert (a + b)[i] == a[i];
      } else {
        assert (a + b)[i] == b[i - |a|];
      }
    }
  }
}
