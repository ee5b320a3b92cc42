/**
 * util/StringUtils.java, together with the character case mapping that
 * `String.toLowerCase` and `String.toUpperCase` perform. Only the ASCII
 * letters are mapped; every other character is left as it is.
 */
module StringUtils {

  predicate IsUpperAscii(c: char) { 'A' <= c <= 'Z' }

  predicate IsLowerAscii(c: char) { 'a' <= c <= 'z' }

  function CharToLower(c: char): (r: char)
    ensures !IsUpperAscii(r)
    ensures IsUpperAscii(c) || r == c
  {
    if IsUpperAscii(c) then (c as int + 32) as char else c
  }

  function CharToUpper(c: char): (r: char)
    ensures !IsLowerAscii(r)
    ensures IsLowerAscii(c) || r == c
  {
    if IsLowerAscii(c) then (c as int - 32) as char else c
  }

  /** `String.toLowerCase`, character by character. */
  function ToLower(s: string): (r: string)
    ensures |r| == |s|
    ensures forall i :: 0 <= i < |s| ==> r[i] == CharToLower(s[i])
  {
    seq(|s|, i requires 0 <= i < |s| => CharToLower(s[i]))
  }

  /** `String.toUpperCase`, character by character. */
  function ToUpper(s: string): (r: string)
    ensures |r| == |s|
    ensures forall i :: 0 <= i < |s| ==> r[i] == CharToUpper(s[i])
  {
    seq(|s|, i requires 0 <= i < |s| => CharToUpper(s[i]))
  }

  /** A lower-cased string holds no upper-case letter. */
  predicate IsLowerCase(s: string) {
    forall i :: 0 <= i < |s| ==> !IsUpperAscii(s[i])
  }

  lemma ToLowerIsLowerCase(s: string)
    ensures IsLowerCase(ToLower(s))
  {
  }

  /** Lower-casing changes exactly the strings that hold an upper-case letter. */
  lemma ToLowerFixedPoints(s: string)
    ensures ToLower(s) == s <==> IsLowerCase(s)
  {
    if IsLowerCase(s) {
      assert forall i :: 0 <= i < |s| ==> ToLower(s)[i] == s[i];
    } else {
      var i :| 0 <= i < |s| && IsUpperAscii(s[i]);
      assert ToLower(s)[i] != s[i];
    }
  }

  lemma ToLowerIdempotent(s: string)
    ensures ToLower(ToLower(s)) == ToLower(s)
  {
    ToLowerIsLowerCase(s);
    ToLowerFixedPoints(ToLower(s));
  }

  /**
   * `titleize`: the first character upper-cased, the rest lower-cased.
   * `substring(0, 1)` throws on the empty string, so the input must not be empty.
   */
  function Titleize(input: string): (r: string)
    requires |input| > 0
    ensures |r| == |input|
    ensures r[0] == CharToUpper(input[0])
    ensures forall i :: 1 <= i < |input| ==> r[i] == CharToLower(input[i])
  {
    ToUpper(input[..1]) + ToLower(input[1..])
  }

  /** A string as `titleize` leaves it: no lower-case letter first, no upper-case letter after. */
  predicate IsTitleCase(s: string) {
    |s| > 0 && !IsLowerAscii(s[0]) && forall i :: 1 <= i < |s| ==> !IsUpperAscii(s[i])
  }

  lemma TitleizeIsTitleCase(s: string)
    requires |s| > 0
    ensures IsTitleCase(Titleize(s))
  {
  }

  /** `titleize` leaves a string unchanged exactly when it is already title case. */
  lemma TitleizeFixedPoints(s: string)
    requires |s| > 0
    ensures Titleize(s) == s <==> IsTitleCase(s)
  {
    var t := Titleize(s);
    if IsTitleCase(s) {
      assert forall i :: 0 <= i < |s| ==> t[i] == s[i];
    } else if IsLowerAscii(s[0]) {
      assert t[0] != s[0];
    } else {
      var i :| 1 <= i < |s| && IsUpperAscii(s[i]);
      assert t[i] != s[i];
    }
  }

  lemma TitleizeIdempotent(s: string)
    requires |s| > 0
    ensures Titleize(Titleize(s)) == Titleize(s)
  {
    TitleizeIsTitleCase(s);
    TitleizeFixedPoints(Titleize(s));
  }
}
