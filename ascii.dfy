/** ASCII character classes and case maps.

    Python's str.isupper, islower, isdigit, isspace, upper, lower and capitalize follow
    Unicode; this module gives their ASCII behaviour, which is what the model assumes
    throughout. On strings made of ASCII letters and digits the two agree.
 */
module Ascii {

  predicate IsUpper(c: char) { 'A' <= c <= 'Z' }

  predicate IsLower(c: char) { 'a' <= c <= 'z' }

  predicate IsDigit(c: char) { '0' <= c <= '9' }

  /** The class [a-zA-Z0-9] of a regular expression. */
  predicate IsAlnum(c: char) { IsUpper(c) || IsLower(c) || IsDigit(c) }

  /** ASCII whitespace as str.isspace sees it: space, \t \n \v \f \r and \x1c-\x1f. */
  predicate IsSpace(c: char) { c == ' ' || 9 <= c as int <= 13 || 28 <= c as int <= 31 }

  function ToUpper(c: char): (d: char)
    ensures IsLower(c) ==> IsUpper(d) && d as int == c as int - 32
    ensures !IsLower(c) ==> d == c
  {
    if IsLower(c) then (c as int - 32) as char else c
  }

  function ToLower(c: char): (d: char)
    ensures IsUpper(c) ==> IsLower(d) && d as int == c as int + 32
    ensures !IsUpper(c) ==> d == c
  {
    if IsUpper(c) then (c as int + 32) as char else c
  }

  /** str.upper on a whole string. */
  function Upper(s: string): (r: string)
    ensures |r| == |s|
  {
    seq(|s|, i requires 0 <= i < |s| => ToUpper(s[i]))
  }

  /** str.lower on a whole string. */
  function Lower(s: string): (r: string)
    ensures |r| == |s|
  {
    seq(|s|, i requires 0 <= i < |s| => ToLower(s[i]))
  }

  /** str.capitalize: the first character upper-cased, every other one lower-cased. */
  function Capitalize(w: string): (r: string)
    ensures |r| == |w|
    ensures |w| > 0 ==> r[0] == ToUpper(w[0])
    ensures forall i | 0 < i < |w| :: r[i] == ToLower(w[i])
  {
    if |w| == 0 then [] else [ToUpper(w[0])] + Lower(w[1..])
  }

  lemma {:induction false} LowerIdempotent(s: string)
    ensures Lower(Lower(s)) == Lower(s)
  {
    var once := Lower(s);
    forall i | 0 <= i < |s| ensures Lower(once)[i] == once[i] {
      assert !IsUpper(once[i]);
    }
  }

  /** Case maps never produce a space from a non-space, nor the reverse. */
  lemma CaseMapsKeepSpaces(c: char)
    ensures (ToUpper(c) == ' ') == (c == ' ')
    ensures (ToLower(c) == ' ') == (c == ' ')
  {
  }
}
