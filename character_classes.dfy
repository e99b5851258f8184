/** The five character-class predicates both strength assessors count, and the
    strength tiers they report. */
module CharacterClasses {
  import opened Ascii

  /** The tiers assess_strength returns, in increasing order; Label() is the string
      the Python function returns. */
  datatype Strength = VeryWeak | Weak | Normal | Strong | VeryStrong
  {
    function Rank(): (k: nat)
      ensures k <= 4
    {
      match this
      case VeryWeak => 0
      case Weak => 1
      case Normal => 2
      case Strong => 3
      case VeryStrong => 4
    }

    function Label(): string {
      match this
      case VeryWeak => "Very Weak"
      case Weak => "Weak"
      case Normal => "Normal"
      case Strong => "Strong"
      case VeryStrong => "Very Strong"
    }
  }

  /** The characters of '@#$%^&*()_+!~`'. */
  const SPECIAL_CHARS: string := "@#$%^&*()_+!~`"

  predicate LongEnough(p: string) { |p| >= 12 }

  predicate HasUpper(p: string) { exists i | 0 <= i < |p| :: IsUpper(p[i]) }

  predicate HasLower(p: string) { exists i | 0 <= i < |p| :: IsLower(p[i]) }

  predicate HasDigit(p: string) { exists i | 0 <= i < |p| :: IsDigit(p[i]) }

  predicate HasSpecial(p: string) { exists i | 0 <= i < |p| :: p[i] in SPECIAL_CHARS }

  function Count(b: bool): nat { if b then 1 else 0 }

  /** sum([length_score, upper_case, lower_case, digits, special_chars]) */
  function CharacterTypes(p: string): (n: nat)
    ensures n <= 5
  {
    Count(LongEnough(p)) + Count(HasUpper(p)) + Count(HasLower(p)) + Count(HasDigit(p)) + Count(HasSpecial(p))
  }

  /** Appending a character can only turn predicates on: each one is monotone in the
      string's prefix order. */
  lemma {:induction false} CharacterTypesGrow(p: string, c: char)
    ensures CharacterTypes(p) <= CharacterTypes(p + [c])
  {
    var q := p + [c];
    assert forall i | 0 <= i < |p| :: q[i] == p[i];
    if HasUpper(p) {
      var i :| 0 <= i < |p| && IsUpper(p[i]);
      assert IsUpper(q[i]);
    }
    if HasLower(p) {
      var i :| 0 <= i < |p| && IsLower(p[i]);
      assert IsLower(q[i]);
    }
    if HasDigit(p) {
      var i :| 0 <= i < |p| && IsDigit(p[i]);
      assert IsDigit(q[i]);
    }
    if HasSpecial(p) {
      var i :| 0 <= i < |p| && p[i] in SPECIAL_CHARS;
      assert q[i] in SPECIAL_CHARS;
    }
  }
}
