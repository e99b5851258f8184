# Passphrase generator and word-list cleaner, modelled in Dafny

This project models a small Python tool with three parts, and proves properties about each:

- `passphrase_generator.py` builds a passphrase from a word list. It picks `num_words` words at distinct positions of the list and capitalises some of them. On request it replaces vowels in up to half the words with look-alike symbols. It joins the words with spaces and upper-cases a random sample of characters. It retries while the result is 10 characters or fewer, and raises when the result is over 127. It also rates a passphrase's strength by counting character classes, and picks the output language from the command-line arguments.
- `passphrase-generator.py` is a second variant of the same algorithm. It has a five-vowel table, no short-string cut-off in the strength rating, and a 100-character cap.
- `wordlist-cleaner.py` is a chain of ten list transforms that turns raw lines into a clean list of words with no duplicates.

Randomness is an input. Each attempt of the generator takes a `PassphraseEngine.Draw`, which holds the values that `random.sample`, `secrets.randbelow`, `random.randint` and `random.choice` returned. The predicate `ValidDraw` states what those library calls promise about their results: distinct positions, in range, and a count between 1 and half the length. The `while True` loop of `generate_passphrase` runs over a finite sequence of such draws. When the sequence runs out, the result is the extra error `DrawsExhausted`.

Their `generate_passphrase` functions differ only in the vowel table `replace_vowels` uses, the length cap and the random source, which makes the same promises in both. These share one engine, `PassphraseEngine`, parameterised by a `Config`. The modules `PassphraseGenerator` and `PassphraseGeneratorHyphen` fix the two settings and restate the engine's guarantees with their own constants.

Modules:
- `Ascii`: character classes and case mapping.
- `Translation`: `str.translate` with a `str.maketrans` table.
- `CharacterClasses`: the five strength criteria.
- `PassphraseEngine`: `capitalize_random_characters`, one attempt, and the retry loop.
- `PassphraseGenerator` and `PassphraseGeneratorHyphen`: the two generator files.
- `Sequences`: filtering comprehensions.
- `WordlistCleaner`: the word-list cleaner.

The code's comments and its behaviour differ in places; the model follows the behaviour:
- The comment at `passphrase_generator.py:125` says the first letter of a word is capitalised. `word.capitalize()` at line 127 upper-cases the first character and also lower-cases all the others (`Ascii.Capitalize`).
- The comments at `passphrase_generator.py:91` ("At least 1 character") and `:134` ("At least 1 word") promise a count of at least one. `secrets.randbelow(0)` raises `ValueError` when the half is 0, and so does `random.randint(1, 0)` at `passphrase-generator.py:47` and `:76`. This happens with special characters and fewer than two words, and for a joined string shorter than two characters. The model returns `EmptyRange` in those cases.

Facts about the two files:
- `passphrase_generator.py:45` replaces with the table `aeio -> @310`: 'u' is kept.
- `passphrase-generator.py:6` replaces with the table `aeiou -> @31µ0`.
- The length cap is 127 in `passphrase_generator.py:148` and 100 in `passphrase-generator.py:90`.

## Model

| member | source | states |
|---|---|---|
| PassphraseGenerator.ReplaceVowels | passphrase_generator.py:43-45 | each character maps by position: a→@, e→3, i→1, o→0; 'u', upper-case letters and everything else are unchanged; the length is kept |
| PassphraseGenerator.ReplaceVowelsIdempotent | passphrase_generator.py:45 | no lower-case a, e, i or o is left, so a second replacement changes nothing |
| PassphraseGenerator.ReplaceVowelsExamples | test_passphrase_generator.py:16-20 | hello→h3ll0, banana→b@n@n@, umbrella→umbr3ll@ ('u' is not replaced) |
| PassphraseGenerator.AssessStrength | passphrase_generator.py:58-77 | under 8 characters it is Very Weak; otherwise the tier is the class count when that count is 1, 2 or 3, and Very Strong for any other count, 0 included |
| PassphraseGenerator.AssessStrengthIgnoresLanguage | passphrase_generator.py:68-77 | the language argument never changes the verdict (both sides of every `language == 'es'` branch are equal) |
| PassphraseGenerator.AssessStrengthExamples | test_passphrase_generator.py:22-25 | 'short' is Very Weak; 'LongerPassphrase123!' is Very Strong |
| PassphraseGenerator.BlankIsVeryStrong | passphrase_generator.py:76-77 | eight spaces (no character class) are rated Very Strong, while eight spaces followed by 'a' are rated Weak |
| PassphraseGenerator.AssessStrengthCorrected | passphrase_generator.py:68-77 | the assessor with the 0-class case mapped to Very Weak: under 8 characters Very Weak, otherwise the class count capped at 4 |
| PassphraseGenerator.AppendNeverWeakensCorrected | passphrase_generator.py:58-77 | appending a character never lowers the corrected rating |
| CharacterClasses.CharacterTypes | passphrase_generator.py:58-65 | the sum of the five criteria (length ≥ 12, upper, lower, digit, one of ``@#$%^&*()_+!~` ``) is at most 5 |
| CharacterClasses.CharacterTypesGrow | passphrase-generator.py:23-30 | appending a character never lowers the number of criteria met |
| Ascii.Capitalize | passphrase_generator.py:127 | word.capitalize(): same length, first character upper-cased, every other character lower-cased |
| PassphraseEngine.CapitalizeRandomCharacters | passphrase_generator.py:89-102 | fails exactly when the string is shorter than 2, because the count comes from an empty range; otherwise, with the array updated in place, exactly the sampled positions are upper-cased, the length is kept and the text is unchanged apart from case (the same operation as passphrase-generator.py:44-58) |
| PassphraseEngine.CapitalizedWords | passphrase_generator.py:126-129 | one part per selected word: a word whose coin is true becomes word.capitalize() (`Ascii.Capitalize`), a word whose coin is false is kept as it is; either way the part has its word's length and equals it up to letter case |
| PassphraseEngine.Join | passphrase_generator.py:142 | ' '.join of k ≥ 1 parts is as long as the parts together plus k-1 separators |
| PassphraseEngine.ReplaceVowelsAt | passphrase_generator.py:137-139 | with the parts array updated in place, the parts at the sampled (distinct) positions are vowel-replaced and every other part keeps its value |
| PassphraseEngine.AttemptSpec | passphrase_generator.py:123-151 | one pass of the loop body: it fails with EmptyRange exactly when special characters are on and num_words // 2 is 0, or the joined candidate is shorter than 2; otherwise with TooLong(cap) exactly when the candidate is over the cap; it is too short exactly when the candidate has at most 10 characters; an accepted passphrase has length in (10, cap] and is the candidate with exactly the characters at the sampled positions upper-cased and every other character kept |
| PassphraseEngine.Attempt | passphrase_generator.py:123-151 | one loop pass with the parts list updated in place gives the outcome of the reference AttemptSpec: selection, capitalisation coins, vowel replacement at the sampled word positions, join, random capitals, then raise if over the cap, accept if over 10, otherwise retry |
| PassphraseEngine.Generate | passphrase_generator.py:119-151 | the vocabulary check, then the loop that discards short attempts, equal to the reference GenerateSpec |
| PassphraseEngine.Retry | passphrase_generator.py:122-151 | the `while True` loop over a stream of attempts: any passphrase it returns is longer than 10 and at most the cap, and it fails only with EmptyRange, TooLong carrying the configured cap, or running out of attempts |
| PassphraseEngine.CandidateLength | passphrase_generator.py:123-142 | the joined candidate's length is fixed by the words selected: capitalisation and vowel replacement keep each word's length |
| PassphraseEngine.CandidatePieces | passphrase_generator.py:123-142 | for space-free words and replacements, the joined candidate splits on ' ' into exactly num_words pieces, and piece i is selected word i, capitalize()d when its coin is true and passed through replace_vowels when special characters are on and i was sampled (lines 137-139) |
| PassphraseEngine.SplitJoin | passphrase_generator.py:142 | splitting the ' '.join of space-free parts on ' ' gives the parts back |
| PassphraseEngine.SplitCountBySpaces | passphrase_generator.py:142-145 | two strings with spaces at the same positions split into the same number of pieces |
| PassphraseEngine.AcceptedSplitsIntoWords | passphrase_generator.py:123-151 | when the words hold no space, an accepted passphrase splits on ' ' into exactly num_words pieces |
| PassphraseEngine.RetryStopsAtFirstDecisive | passphrase_generator.py:122-151 | if every attempt before k was too short and attempt k was not, the loop's result is attempt k's acceptance or error |
| PassphraseEngine.RetryAcceptsFirstDecisive | passphrase_generator.py:122-151 | conversely, a returned passphrase is the one produced by the first attempt that was not too short |
| PassphraseEngine.GeneratedSplitsIntoWords | passphrase_generator.py:119-151 | a passphrase generated from space-free words splits on ' ' into exactly num_words pieces |
| PassphraseGenerator.GeneratePassphrase | passphrase_generator.py:104-151 | defaults num_words=4 and use_special_chars=False; the result is NotEnoughWords exactly when num_words exceeds the list; a result longer than 10 and at most 127; TooLong names 127; the result equals the engine's reference with this file's table |
| PassphraseGenerator.GeneratedPassphraseHasNumWords | test_passphrase_generator.py:27-32 | with this file's settings, a generated passphrase of space-free words splits into num_words pieces |
| PassphraseGenerator.GetLanguage | passphrase_generator.py:163-167 | the result is 'es' or 'en': it is the first argument that is one of them, or 'en' when no argument is |
| PassphraseGeneratorHyphen.ReplaceVowels | passphrase-generator.py:19-20 | each character maps by position in the table `aeiou -> @31µ0`: a→@, e→3, i→1, o→µ, u→0; everything else is unchanged; the length is kept |
| PassphraseGeneratorHyphen.ReplaceVowelsIdempotent | passphrase-generator.py:6 | no lower-case vowel is left, so a second replacement changes nothing |
| PassphraseGeneratorHyphen.ReplaceVowelsExamples | passphrase-generator.py:6 | hello→h3llµ, umbrella→0mbr3ll@ |
| PassphraseGeneratorHyphen.AssessStrength | passphrase-generator.py:22-42 | the tier is the class count, capped at 4: 0 is Very Weak and 4 or 5 is Very Strong |
| PassphraseGeneratorHyphen.MoreClassesNeverWeaker | passphrase-generator.py:33-42 | the tier is monotone in the class count |
| PassphraseGeneratorHyphen.AppendNeverWeakens | passphrase-generator.py:22-42 | appending a character never lowers the tier |
| PassphraseGeneratorHyphen.AssessStrengthShort | passphrase-generator.py:22-42 | 'short' is rated Weak by this assessor, which has no short-string cut-off |
| PassphraseGeneratorHyphen.AssessStrengthLonger | passphrase-generator.py:22-42 | 'LongerPassphrase123!' is Very Strong |
| PassphraseGeneratorHyphen.AssessStrengthBlank | passphrase-generator.py:33-34 | eight spaces are Very Weak |
| PassphraseGeneratorHyphen.GeneratePassphrase | passphrase-generator.py:60-93 | defaults num_words=4 and use_special_chars=False; the result is NotEnoughWords exactly when num_words exceeds the list; a result longer than 10 and at most 100; TooLong names 100; the result equals the engine's reference with this file's table |
| Translation.Lookup | passphrase-generator.py:6 | a character outside the table is unchanged; one in it maps to the replacement at one of its positions in the table |
| Translation.Translate | passphrase_generator.py:45 | word.translate keeps the length and every character outside the table, and turns every key into a replacement paired with it in the table; when no replacement is itself a key, no key of the table is left in the output |
| Translation.TranslateIdempotent | passphrase_generator.py:45 | when no replacement is itself a key, translating twice equals translating once |
| Ascii.LowerIdempotent | wordlist-cleaner.py:9 | lower-casing twice equals lower-casing once |
| Sequences.Filter | wordlist-cleaner.py:17 | a filtering comprehension keeps, in order, exactly the elements that satisfy the condition, each as often as it occurs; it keeps no duplicates when the input has none |
| WordlistCleaner.KeepAlnum | wordlist-cleaner.py:5 | re.sub('[^a-zA-Z0-9]', '', word) keeps, in order, exactly the ASCII letters and digits |
| WordlistCleaner.RemoveSpecialCharacters | wordlist-cleaner.py:3-5 | one output word per input word, which keeps exactly its ASCII letters and digits |
| WordlistCleaner.ConvertToLowercase | wordlist-cleaner.py:7-9 | each word is lower-cased character by character; no upper-case letter is left |
| WordlistCleaner.ConvertToLowercaseIdempotent | wordlist-cleaner.py:7-9 | lower-casing the list twice equals lower-casing it once |
| WordlistCleaner.StripLeading | wordlist-cleaner.py:13 | removes a whitespace-only prefix, and the result does not start with whitespace |
| WordlistCleaner.StripTrailing | wordlist-cleaner.py:13 | removes a whitespace-only suffix, and the result does not end with whitespace |
| WordlistCleaner.Strip | wordlist-cleaner.py:13 | the result is a slice w[a..b] of the word where everything before a and from b on is whitespace, and a non-empty result neither starts nor ends with whitespace, so exactly the leading and trailing whitespace is removed |
| WordlistCleaner.StripWithoutSpaces | wordlist-cleaner.py:13 | a word with no whitespace is unchanged by strip() |
| WordlistCleaner.TrimSpaces | wordlist-cleaner.py:11-13 | one output word per input word, each the strip of its input word: no longer, and not starting or ending with whitespace |
| WordlistCleaner.RemoveShortWords | wordlist-cleaner.py:15-17 | keeps, in order and with multiplicity, exactly the words of length ≥ 3 |
| WordlistCleaner.HasTripleRun | wordlist-cleaner.py:21 | the regex `(.)\1{2,}` finds a match exactly when, for some k ≥ 3, a character other than a newline occurs k times in a row |
| WordlistCleaner.RemoveLongRepeatedCharacters | wordlist-cleaner.py:19-21 | keeps exactly the words without a run of three equal characters other than newline (what `(.)\1{2,}` finds) |
| WordlistCleaner.RemoveDuplicates | wordlist-cleaner.py:23-25 | the result has no duplicates and holds exactly the input's distinct words |
| WordlistCleaner.RemoveNumericCharacters | wordlist-cleaner.py:27-29 | keeps exactly the words containing no digit |
| WordlistCleaner.RemoveEmptyLines | wordlist-cleaner.py:31-33 | keeps exactly the non-empty words |
| WordlistCleaner.FilterByLength | wordlist-cleaner.py:35-37 | keeps exactly the words whose length is within [min_length, max_length], 3 and 15 by default |
| WordlistCleaner.RemoveCommonWords | wordlist-cleaner.py:39-41 | keeps exactly the words not in common_words |
| WordlistCleaner.TrimAfterSpecialRemovalIsIdentity | wordlist-cleaner.py:49-51 | after special characters are removed, trim_spaces changes nothing, with or without lower-casing first |
| WordlistCleaner.LoweredAlnumChars | wordlist-cleaner.py:49-50 | after the first two steps every character is a lower-case ASCII letter or a digit |
| WordlistCleaner.NormalizedWords | wordlist-cleaner.py:49-53 | after the first five steps every word is lower-case alphanumeric, at least 3 long and has no triple run |
| WordlistCleaner.FinishCleaningVetted | wordlist-cleaner.py:54-58 | for any duplicate-free ordering of the distinct words, the last four steps give a duplicate-free list of exactly the admitted words, and each is vetted |
| WordlistCleaner.CleanWordList | wordlist-cleaner.py:43-58 | the cleaned list has no duplicates; a word is in it exactly when it survives the first five steps, has no digit, is 3 to 15 long and is not a common word; every such word is lower-case alphanumeric with no triple run |

## Left out

- Reading and writing files is not modelled: `load_word_list` in both generators, and the `with open(...)` steps of `clean_word_list`. `CleanWordList` takes the lines and returns the words that would be written.
- The command-line front ends (`__main__`) are not modelled, because they only parse arguments, print and exit:
  - `passphrase_generator.py:169-229` reads a count, a true/false flag and a language from free arguments. It rejects counts outside 2..16. It prints in colour, in English or Spanish, and turns exceptions into an exit.
  - `passphrase-generator.py:95-151` takes a count and a true/false flag as positional arguments. It rejects a missing count and counts outside 2..16, and checks the flag. It prints in plain text and turns exceptions into an exit.
  - `wordlist-cleaner.py:65-72` fixes the file names and the common-word list, calls `clean_word_list` and prints one line.
- The distribution and security of the random sources are outside the model. It captures only what each random call promises about its result, through `ValidDraw`.
- `PassphraseEngine.Generate`: the unbounded `while True` becomes a loop over a finite sequence of attempts. Running out of attempts ends with `DrawsExhausted`, which the source cannot produce.
- Character classes use ASCII semantics. Python's `isupper`, `islower`, `isdigit`, `upper`, `lower` and `capitalize` are Unicode-aware. For example, 'µ' counts as lower case and upper-cases to 'Μ'. The model's case maps leave every non-ASCII character unchanged.
- `WordlistCleaner.Strip`: `str.strip()` also removes non-ASCII whitespace, such as U+00A0 and U+2028. The model's `IsSpace` covers only the ASCII whitespace characters, because the model uses ASCII character classes throughout.
- `WordlistCleaner.RemoveDuplicates`: `list(set(...))` has an unspecified order. The model keeps the last occurrence of each word. The pipeline lemma `FinishCleaningVetted` holds for every duplicate-free ordering, so no property proved depends on that choice.
- The regular expressions are modelled by what they match, not by a regex engine.
- The module-level table at `passphrase_generator.py:16` is execution at import time and is not modelled. As the text of that line reads, `'@31Âµ0'` has six characters (`Â` and `µ` are two) against the five of `'aeiou'`. So `str.maketrans` raises `ValueError` on import, and neither `passphrase_generator.py` nor the test module that imports it can load. The model assumes the module loads. That file's `replace_vowels` (line 45) builds its own table and does not use this one.
- `PassphraseGenerator.GeneratePassphrase` and `PassphraseGeneratorHyphen.GeneratePassphrase` take `num_words` as a natural number. A negative count passes the check at `passphrase_generator.py:119`, and `random.sample` then raises `ValueError` at line 123 (`passphrase-generator.py:65` in the other file). That error path is not modelled. No caller in the repository reaches it: `passphrase_generator.py:183` keeps only `isdigit()` arguments, and both front ends exit on a count below 2 (`passphrase_generator.py:197`, `passphrase-generator.py:111`).
- `PassphraseGenerator.GeneratedPassphraseHasNumWords`: the unit test counts pieces with `split()` on any whitespace. The lemma counts pieces of `split(' ')` and assumes words without spaces.

## Findings

| source | as written | input that shows it | evidently intended | confidence | as-written member | corrected member |
|---|---|---|---|---|---|---|
| passphrase_generator.py:76-77 | a string of 8 or more characters that meets no criterion falls into the final `else` and is rated "Very Strong" | eight spaces: rated "Very Strong", while eight spaces followed by "a" are rated "Weak" | a count of 0 is "Very Weak", as in passphrase-generator.py:33-34, and the rating never drops when a character is appended | not executed | PassphraseGenerator.BlankIsVeryStrong | PassphraseGenerator.AssessStrengthCorrected |
