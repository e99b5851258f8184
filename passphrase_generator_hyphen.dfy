/** The model of passphrase-generator.py (the file with a hyphen in its name): the
    module-level five-vowel table, an assessor without a short-string cut-off and a
    100-character cap. */
module PassphraseGeneratorHyphen {
  import opened Ascii
  import opened Translation
  import opened CharacterClasses
  import E = PassphraseEngine

  /** vowel_replacements = str.maketrans('aeiou', '@31µ0') */
  const VOWELS: string := "aeiou"
  const REPLACEMENTS: string := "@31µ0"
  const MAX_LENGTH: nat := 100

  const SETTINGS: E.Config := E.Config(VOWELS, REPLACEMENTS, MAX_LENGTH)

  /** replace_vowels: a, e, i, o, u become @, 3, 1, µ, 0 by position in the table;
      upper-case vowels and every other character stay as they are. */
  function ReplaceVowels(word: string): (r: string)
    ensures |r| == |word|
    ensures forall i | 0 <= i < |word| ::
      r[i] == if word[i] == 'a' then '@'
              else if word[i] == 'e' then '3'
              else if word[i] == 'i' then '1'
              else if word[i] == 'o' then 'µ'
              else if word[i] == 'u' then '0'
              else word[i]
  {
    Translate(VOWELS, REPLACEMENTS, word)
  }

  /** None of @, 3, 1, µ, 0 is a vowel of the table, so a second pass changes
      nothing and no lower-case vowel is left. */
  lemma ReplaceVowelsIdempotent(word: string)
    ensures ReplaceVowels(ReplaceVowels(word)) == ReplaceVowels(word)
    ensures forall i | 0 <= i < |word| :: ReplaceVowels(word)[i] !in VOWELS
  {
    TranslateIdempotent(VOWELS, REPLACEMENTS, word);
  }

  lemma ReplaceVowelsExamples()
    ensures ReplaceVowels("hello") == "h3llµ"
    ensures ReplaceVowels("umbrella") == "0mbr3ll@"
  {
    assert ReplaceVowels("hello") == "h3llµ";
    assert ReplaceVowels("umbrella") == "0mbr3ll@";
  }

  /** assess_strength: total; the tier is the number of classes present, capped at
      4 ("Very Strong" for 4 or 5), with 0 classes "Very Weak". */
  function AssessStrength(passphrase: string): (r: Strength)
    ensures r.Rank() == if CharacterTypes(passphrase) >= 4 then 4 else CharacterTypes(passphrase)
  {
    var characterTypes := CharacterTypes(passphrase);
    if characterTypes == 0 then VeryWeak
    else if characterTypes == 1 then Weak
    else if characterTypes == 2 then Normal
    else if characterTypes == 3 then Strong
    else VeryStrong
  }

  /** The tier is non-decreasing in the number of classes present. */
  lemma MoreClassesNeverWeaker(p: string, q: string)
    requires CharacterTypes(p) <= CharacterTypes(q)
    ensures AssessStrength(p).Rank() <= AssessStrength(q).Rank()
  {
  }

  /** Appending a character never lowers the tier. */
  lemma AppendNeverWeakens(passphrase: string, c: char)
    ensures AssessStrength(passphrase).Rank() <= AssessStrength(passphrase + [c]).Rank()
  {
    CharacterTypesGrow(passphrase, c);
  }

  /** The unit test's inputs, rated by this file's assessor: "short" has one class
      (lower case) and no short-string cut-off applies. */
  lemma AssessStrengthShort()
    ensures AssessStrength("short").Label() == "Weak"
  {
    var short := "short";
    assert IsLower(short[0]);
    assert !HasUpper(short) && !HasDigit(short) && !HasSpecial(short);
  }

  lemma AssessStrengthLonger()
    ensures AssessStrength("LongerPassphrase123!").Label() == "Very Strong"
  {
    var p := "LongerPassphrase123!";
    assert IsUpper(p[0]) && IsLower(p[1]) && IsDigit(p[16]) && p[19] in SPECIAL_CHARS;
  }

  /** Where the other file's assessor says "Very Strong", this one says "Very Weak". */
  lemma AssessStrengthBlank()
    ensures AssessStrength("        ").Label() == "Very Weak"
  {
    var blank := "        ";
    assert !HasUpper(blank) && !HasLower(blank) && !HasDigit(blank) && !HasSpecial(blank);
  }

  /** generate_passphrase of this file: the same attempt and retry loop, with this
      file's vowel table and a 100-character cap. */
  method GeneratePassphrase(wordList: seq<string>, numWords: nat := 4, useSpecialChars: bool := false, draws: seq<E.Draw>)
    returns (r: E.Result<string>)
    requires numWords <= |wordList| ==> E.ValidDraws(SETTINGS, wordList, numWords, useSpecialChars, draws)
    ensures r == E.Err(E.NotEnoughWords) <==> numWords > |wordList|
    ensures r.Ok? ==> 10 < |r.value| <= 100
    ensures r.Err? && r.error.TooLong? ==> r.error.limit == 100
    ensures r == E.GenerateSpec(SETTINGS, wordList, numWords, useSpecialChars, draws)
  {
    r := E.Generate(SETTINGS, wordList, numWords, useSpecialChars, draws);
  }
}
