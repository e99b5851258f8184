/** The model of passphrase_generator.py: replace_vowels without 'u', an assessor
    with a short-string cut-off, a 127-character cap and get_language. */
module PassphraseGenerator {
  import opened Ascii
  import opened Translation
  import opened CharacterClasses
  import E = PassphraseEngine

  /** The table replace_vowels passes to str.maketrans. */
  const VOWELS: string := "aeio"
  const REPLACEMENTS: string := "@310"
  const MAX_LENGTH: nat := 127

  const SETTINGS: E.Config := E.Config(VOWELS, REPLACEMENTS, MAX_LENGTH)

  /** replace_vowels: a, e, i, o become @, 3, 1, 0; 'u', upper-case vowels and every
      other character stay as they are. */
  function ReplaceVowels(word: string): (r: string)
    ensures |r| == |word|
    ensures forall i | 0 <= i < |word| ::
      r[i] == if word[i] == 'a' then '@'
              else if word[i] == 'e' then '3'
              else if word[i] == 'i' then '1'
              else if word[i] == 'o' then '0'
              else word[i]
  {
    Translate(VOWELS, REPLACEMENTS, word)
  }

  /** The output holds none of a, e, i, o, so a second pass changes nothing. */
  lemma ReplaceVowelsIdempotent(word: string)
    ensures ReplaceVowels(ReplaceVowels(word)) == ReplaceVowels(word)
    ensures forall i | 0 <= i < |word| :: ReplaceVowels(word)[i] !in VOWELS
  {
    TranslateIdempotent(VOWELS, REPLACEMENTS, word);
  }

  /** The expected values of the unit test. */
  lemma ReplaceVowelsExamples()
    ensures ReplaceVowels("hello") == "h3ll0"
    ensures ReplaceVowels("banana") == "b@n@n@"
    ensures ReplaceVowels("umbrella") == "umbr3ll@"
  {
    assert ReplaceVowels("hello") == "h3ll0";
    assert ReplaceVowels("banana") == "b@n@n@";
    assert ReplaceVowels("umbrella") == "umbr3ll@";
  }

  /** assess_strength as written: under 8 characters it is "Very Weak"; otherwise a
      count of 1, 2 or 3 classes gives Weak, Normal or Strong, and every other count
      (0, 4 or 5) falls into the else branch, "Very Strong". Both sides of every
      `if language == 'es'` are the same string. */
  function AssessStrength(passphrase: string, language: string := "en"): (r: Strength)
    ensures |passphrase| < 8 ==> r == VeryWeak
    ensures |passphrase| >= 8 ==>
      r.Rank() == if 1 <= CharacterTypes(passphrase) <= 3 then CharacterTypes(passphrase) else 4
  {
    var characterTypes := CharacterTypes(passphrase);
    if |passphrase| < 8 then (if language == "es" then VeryWeak else VeryWeak)
    else if characterTypes == 1 then (if language == "es" then Weak else Weak)
    else if characterTypes == 2 then Normal
    else if characterTypes == 3 then (if language == "es" then Strong else Strong)
    else (if language == "es" then VeryStrong else VeryStrong)
  }

  /** The language argument never changes the verdict. */
  lemma AssessStrengthIgnoresLanguage(passphrase: string, language: string)
    ensures AssessStrength(passphrase, language) == AssessStrength(passphrase, "en")
  {
  }

  /** The expected values of the unit test. */
  lemma AssessStrengthExamples()
    ensures AssessStrength("short").Label() == "Very Weak"
    ensures AssessStrength("LongerPassphrase123!").Label() == "Very Strong"
  {
    var p := "LongerPassphrase123!";
    assert IsUpper(p[0]) && IsLower(p[1]) && IsDigit(p[16]) && p[19] in SPECIAL_CHARS;
    assert CharacterTypes(p) == 5;
  }

  /** Eight blanks hold no character class, fall into the else branch and are rated
      "Very Strong"; adding a letter drops the rating to "Weak". */
  lemma BlankIsVeryStrong()
    ensures AssessStrength("        ").Label() == "Very Strong"
    ensures AssessStrength("        a").Label() == "Weak"
  {
    var blank := "        ";
    assert !HasUpper(blank) && !HasLower(blank) && !HasDigit(blank) && !HasSpecial(blank);
    var withLetter := "        a";
    assert !HasUpper(withLetter) && !HasDigit(withLetter) && !HasSpecial(withLetter);
    assert IsLower(withLetter[8]);
  }

  /** The assessor as evidently intended: no class at all is "Very Weak", as in
      passphrase-generator.py, and the short-string cut-off is kept. */
  function AssessStrengthCorrected(passphrase: string, language: string := "en"): (r: Strength)
    ensures |passphrase| < 8 ==> r == VeryWeak
    ensures |passphrase| >= 8 ==>
      r.Rank() == if CharacterTypes(passphrase) >= 4 then 4 else CharacterTypes(passphrase)
  {
    var characterTypes := CharacterTypes(passphrase);
    if |passphrase| < 8 || characterTypes == 0 then VeryWeak
    else if characterTypes == 1 then Weak
    else if characterTypes == 2 then Normal
    else if characterTypes == 3 then Strong
    else VeryStrong
  }

  /** The corrected assessor never rates a string lower after a character is
      appended: more length and more classes never weaken it. */
  lemma AppendNeverWeakensCorrected(passphrase: string, c: char)
    ensures AssessStrengthCorrected(passphrase).Rank() <= AssessStrengthCorrected(passphrase + [c]).Rank()
  {
    CharacterTypesGrow(passphrase, c);
  }

  /** capitalize(), replace_vowels and capitalize_random_characters composed as in
      generate_passphrase, with a 127-character cap. */
  method GeneratePassphrase(wordList: seq<string>, numWords: nat := 4, useSpecialChars: bool := false, draws: seq<E.Draw>)
    returns (r: E.Result<string>)
    requires numWords <= |wordList| ==> E.ValidDraws(SETTINGS, wordList, numWords, useSpecialChars, draws)
    ensures r == E.Err(E.NotEnoughWords) <==> numWords > |wordList|
    ensures r.Ok? ==> 10 < |r.value| <= 127
    ensures r.Err? && r.error.TooLong? ==> r.error.limit == 127
    ensures r == E.GenerateSpec(SETTINGS, wordList, numWords, useSpecialChars, draws)
  {
    r := E.Generate(SETTINGS, wordList, numWords, useSpecialChars, draws);
  }

  /** As the unit test expects: a passphrase from space-free words splits into
      num_words pieces. */
  lemma GeneratedPassphraseHasNumWords(wordList: seq<string>, numWords: nat, useSpecialChars: bool, draws: seq<E.Draw>, p: string)
    requires numWords <= |wordList| ==> forall k | 0 <= k < |draws| :: E.WellFormedDraw(wordList, numWords, draws[k])
    requires forall w | w in wordList :: ' ' !in w
    requires E.GenerateSpec(SETTINGS, wordList, numWords, useSpecialChars, draws) == E.Ok(p)
    ensures |E.SplitOnSpace(p)| == numWords
  {
    E.GeneratedSplitsIntoWords(SETTINGS, wordList, numWords, useSpecialChars, draws, p);
  }

  const LANGUAGES: seq<string> := ["es", "en"]

  /** get_language: the first argument that is 'es' or 'en', or 'en' when none is. */
  function GetLanguage(args: seq<string>): (r: string)
    ensures r in LANGUAGES
    ensures (exists k | 0 <= k < |args| :: args[k] == r && forall j | 0 <= j < k :: args[j] !in LANGUAGES)
         || (r == "en" && forall j | 0 <= j < |args| :: args[j] !in LANGUAGES)
  {
    if |args| == 0 then "en"
    else if args[0] in LANGUAGES then args[0]
    else
      var r := GetLanguage(args[1..]);
      assert forall j | 0 <= j < |args| - 1 :: args[1..][j] == args[j + 1];
      r
  }
}
