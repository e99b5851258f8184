/** The model of wordlist-cleaner.py: ten list transforms and the pipeline
    clean_word_list runs between reading the input file and writing the output. */
module WordlistCleaner {
  import opened Ascii
  import opened Sequences
  import CharacterClasses

  // ---------------------------------------------------------------------------
  // Element-wise maps

  /** re.sub(r'[^a-zA-Z0-9]', '', word): the word's letters and digits, in order. */
  function KeepAlnum(word: string): (r: string)
    ensures KeepsExactly(word, r, IsAlnum)
    ensures forall i | 0 <= i < |r| :: IsAlnum(r[i])
  {
    Filter(IsAlnum, word)
  }

  /** remove_special_characters keeps the list's length and reduces every word to
      its [a-zA-Z0-9] characters. */
  function RemoveSpecialCharacters(wordList: seq<string>): (r: seq<string>)
    ensures |r| == |wordList|
    ensures forall i | 0 <= i < |r| :: KeepsExactly(wordList[i], r[i], IsAlnum)
    ensures forall i | 0 <= i < |r| :: forall k | 0 <= k < |r[i]| :: IsAlnum(r[i][k])
  {
    seq(|wordList|, i requires 0 <= i < |wordList| => KeepAlnum(wordList[i]))
  }

  /** convert_to_lowercase keeps the list's length and lower-cases every word. */
  function ConvertToLowercase(wordList: seq<string>): (r: seq<string>)
    ensures |r| == |wordList|
    ensures forall i | 0 <= i < |r| :: |r[i]| == |wordList[i]| && forall k | 0 <= k < |r[i]| :: r[i][k] == ToLower(wordList[i][k])
    ensures forall i | 0 <= i < |r| :: forall k | 0 <= k < |r[i]| :: !IsUpper(r[i][k])
  {
    seq(|wordList|, i requires 0 <= i < |wordList| => Lower(wordList[i]))
  }

  lemma ConvertToLowercaseIdempotent(wordList: seq<string>)
    ensures ConvertToLowercase(ConvertToLowercase(wordList)) == ConvertToLowercase(wordList)
  {
    forall i | 0 <= i < |wordList| {
      LowerIdempotent(wordList[i]);
    }
  }

  /** str.strip's left half: drop leading whitespace. */
  function StripLeading(w: string): (r: string)
    ensures |r| <= |w| && r == w[|w| - |r|..]
    ensures forall i | 0 <= i < |w| - |r| :: IsSpace(w[i])
    ensures |r| > 0 ==> !IsSpace(r[0])
  {
    if |w| > 0 && IsSpace(w[0]) then StripLeading(w[1..]) else w
  }

  /** str.strip's right half: drop trailing whitespace. */
  function StripTrailing(w: string): (r: string)
    ensures |r| <= |w| && r == w[..|r|]
    ensures forall i | |r| <= i < |w| :: IsSpace(w[i])
    ensures |r| > 0 ==> !IsSpace(r[|r| - 1])
  {
    if |w| > 0 && IsSpace(w[|w| - 1]) then StripTrailing(w[..|w| - 1]) else w
  }

  /** word.strip(): the word without its leading and its trailing whitespace; the
      result neither starts nor ends with whitespace. */
  function Strip(w: string): (r: string)
    ensures |r| <= |w|
    ensures exists a, b | 0 <= a <= b <= |w| ::
      && r == w[a..b]
      && (forall i | 0 <= i < a :: IsSpace(w[i]))
      && (forall i | b <= i < |w| :: IsSpace(w[i]))
    ensures |r| > 0 ==> !IsSpace(r[0]) && !IsSpace(r[|r| - 1])
  {
    var left := StripLeading(w);
    var r := StripTrailing(left);
    var a := |w| - |left|;
    var b := a + |r|;
    assert r == w[a..b];
    assert forall i | b <= i < |w| :: IsSpace(w[i]) by {
      forall i | b <= i < |w| ensures IsSpace(w[i]) {
        assert w[i] == left[i - a];
      }
    }
    r
  }

  /** A word without whitespace is its own strip. */
  lemma {:induction false} StripWithoutSpaces(w: string)
    requires forall i | 0 <= i < |w| :: !IsSpace(w[i])
    ensures Strip(w) == w
  {
    assert StripLeading(w) == w;
    assert StripTrailing(w) == w;
  }

  /** trim_spaces keeps the list's length and strips every word. */
  function TrimSpaces(wordList: seq<string>): (r: seq<string>)
    ensures |r| == |wordList|
    ensures forall i | 0 <= i < |r| :: |r[i]| <= |wordList[i]| && (|r[i]| > 0 ==> !IsSpace(r[i][0]) && !IsSpace(r[i][|r[i]| - 1]))
    ensures forall i | 0 <= i < |r| :: r[i] == Strip(wordList[i])
  {
    seq(|wordList|, i requires 0 <= i < |wordList| => Strip(wordList[i]))
  }

  // ---------------------------------------------------------------------------
  // Filters

  predicate NotShort(w: string) { |w| >= 3 }

  /** remove_short_words keeps exactly the words of at least three characters. */
  function RemoveShortWords(wordList: seq<string>): (r: seq<string>)
    ensures KeepsExactly(wordList, r, NotShort)
    ensures forall w :: w in r <==> w in wordList && |w| >= 3
  {
    Filter(NotShort, wordList)
  }

  /** w[i..i+k] is k copies of one character other than a newline, which is what
      `(.)\1{k-1}` matches at i ('.' does not match a newline). */
  predicate RunAt(w: string, i: nat, k: nat)
    requires i + k <= |w| && k > 0
  {
    w[i] != '\n' && forall j | i <= j < i + k :: w[j] == w[i]
  }

  /** re.search(r'(.)\1{2,}', w) succeeds: somewhere a character other than a
      newline is repeated three or more times in a row. */
  predicate HasTripleRun(w: string)
    ensures HasTripleRun(w) <==> exists i: nat, k: nat | 3 <= k && i + k <= |w| :: RunAt(w, i, k)
  {
    assert (exists i: nat, k: nat | 3 <= k && i + k <= |w| :: RunAt(w, i, k)) ==>
           (exists i: nat | i + 3 <= |w| :: RunAt(w, i, 3)) by {
      if exists i: nat, k: nat | 3 <= k && i + k <= |w| :: RunAt(w, i, k) {
        var i: nat, k: nat :| 3 <= k && i + k <= |w| && RunAt(w, i, k);
        assert RunAt(w, i, 3);
      }
    }
    exists i: nat | i + 3 <= |w| :: RunAt(w, i, 3)
  }

  predicate NoTripleRun(w: string) { !HasTripleRun(w) }

  /** remove_long_repeated_characters keeps exactly the words with no run of three
      or more equal characters. */
  function RemoveLongRepeatedCharacters(wordList: seq<string>): (r: seq<string>)
    ensures KeepsExactly(wordList, r, NoTripleRun)
    ensures forall w :: w in r <==> w in wordList && !HasTripleRun(w)
  {
    Filter(NoTripleRun, wordList)
  }

  /** list(set(word_list)). Python's set gives no order; this model keeps the last
      occurrence of every word. */
  function RemoveDuplicates(wordList: seq<string>): (r: seq<string>)
    ensures NoDuplicates(r)
    ensures forall w :: w in r <==> w in wordList
  {
    if |wordList| == 0 then []
    else
      var rest := RemoveDuplicates(wordList[1..]);
      if wordList[0] in rest then rest else [wordList[0]] + rest
  }

  predicate NoDigit(w: string) { !CharacterClasses.HasDigit(w) }

  /** remove_numeric_characters keeps exactly the words without a digit. */
  function RemoveNumericCharacters(wordList: seq<string>): (r: seq<string>)
    ensures KeepsExactly(wordList, r, NoDigit)
    ensures forall w :: w in r <==> w in wordList && !CharacterClasses.HasDigit(w)
  {
    Filter(NoDigit, wordList)
  }

  predicate NonEmpty(w: string) { |w| > 0 }

  /** remove_empty_lines keeps exactly the non-empty words. */
  function RemoveEmptyLines(wordList: seq<string>): (r: seq<string>)
    ensures KeepsExactly(wordList, r, NonEmpty)
    ensures forall w :: w in r <==> w in wordList && |w| > 0
  {
    Filter(NonEmpty, wordList)
  }

  /** filter_by_length keeps exactly the words whose length is within the bounds
      (3 and 15 unless given). */
  function FilterByLength(wordList: seq<string>, minLength: int := 3, maxLength: int := 15): (r: seq<string>)
    ensures KeepsExactly(wordList, r, w => minLength <= |w| <= maxLength)
    ensures forall w :: w in r <==> w in wordList && minLength <= |w| <= maxLength
  {
    Filter(w => minLength <= |w| <= maxLength, wordList)
  }

  /** remove_common_words keeps exactly the words that are not common words. */
  function RemoveCommonWords(wordList: seq<string>, commonWords: seq<string>): (r: seq<string>)
    ensures KeepsExactly(wordList, r, w => w !in commonWords)
    ensures forall w :: w in r <==> w in wordList && w !in commonWords
  {
    Filter(w => w !in commonWords, wordList)
  }

  // ---------------------------------------------------------------------------
  // The pipeline of clean_word_list

  /** The five steps before remove_duplicates. */
  function Normalize(lines: seq<string>): (words: seq<string>) {
    RemoveLongRepeatedCharacters(RemoveShortWords(TrimSpaces(ConvertToLowercase(RemoveSpecialCharacters(lines)))))
  }

  /** The four steps after remove_duplicates. */
  function FinishCleaning(unique: seq<string>, commonWords: seq<string>): (words: seq<string>) {
    RemoveCommonWords(FilterByLength(RemoveEmptyLines(RemoveNumericCharacters(unique))), commonWords)
  }

  /** What a word of the cleaned list looks like. */
  predicate Vetted(w: string, commonWords: seq<string>) {
    && (forall i | 0 <= i < |w| :: IsLower(w[i]))
    && 3 <= |w| <= 15
    && !HasTripleRun(w)
    && w !in commonWords
  }

  /** The tests the four steps after remove_duplicates apply. */
  predicate Admitted(w: string, commonWords: seq<string>) {
    !CharacterClasses.HasDigit(w) && |w| > 0 && 3 <= |w| <= 15 && w !in commonWords
  }

  /** After remove_special_characters and convert_to_lowercase a word holds no
      whitespace, so trim_spaces changes nothing. */
  lemma TrimAfterSpecialRemovalIsIdentity(lines: seq<string>)
    ensures TrimSpaces(ConvertToLowercase(RemoveSpecialCharacters(lines))) == ConvertToLowercase(RemoveSpecialCharacters(lines))
    ensures TrimSpaces(RemoveSpecialCharacters(lines)) == RemoveSpecialCharacters(lines)
  {
    var alnum := RemoveSpecialCharacters(lines);
    var lowered := ConvertToLowercase(alnum);
    forall i | 0 <= i < |lines|
      ensures Strip(lowered[i]) == lowered[i] && Strip(alnum[i]) == alnum[i]
    {
      forall k | 0 <= k < |lowered[i]| ensures !IsSpace(lowered[i][k]) {
        assert lowered[i][k] == ToLower(alnum[i][k]);
      }
      StripWithoutSpaces(lowered[i]);
      StripWithoutSpaces(alnum[i]);
    }
  }

  lemma LoweredAlnumChars(lines: seq<string>, w: string)
    requires w in ConvertToLowercase(RemoveSpecialCharacters(lines))
    ensures forall i | 0 <= i < |w| :: IsLower(w[i]) || IsDigit(w[i])
  {
    var alnum := RemoveSpecialCharacters(lines);
    var lowered := ConvertToLowercase(alnum);
    var j :| 0 <= j < |lowered| && lowered[j] == w;
    var word := alnum[j];
    assert |w| == |word|;
    forall i | 0 <= i < |w| ensures IsLower(w[i]) || IsDigit(w[i]) {
      assert w[i] == ToLower(word[i]);
      assert IsAlnum(word[i]);
    }
  }

  /** Every word after the first five steps is made of lower-case letters and
      digits, has at least three characters and no triple run. */
  lemma NormalizedWords(lines: seq<string>, w: string)
    requires w in Normalize(lines)
    ensures forall i | 0 <= i < |w| :: IsLower(w[i]) || IsDigit(w[i])
    ensures |w| >= 3 && !HasTripleRun(w)
  {
    var lowered := ConvertToLowercase(RemoveSpecialCharacters(lines));
    TrimAfterSpecialRemovalIsIdentity(lines);
    var long := RemoveShortWords(lowered);
    assert w in RemoveLongRepeatedCharacters(long);
    assert w in long && !HasTripleRun(w);
    assert w in lowered && |w| >= 3;
    LoweredAlnumChars(lines, w);
  }

  /** The four steps after remove_duplicates keep exactly the admitted words of any
      duplicate-free enumeration of the normalised words, whatever order the set
      gives them, once each, and every one of them is vetted. */
  lemma FinishCleaningVetted(lines: seq<string>, commonWords: seq<string>, unique: seq<string>)
    requires NoDuplicates(unique)
    requires forall w :: w in unique <==> w in Normalize(lines)
    ensures NoDuplicates(FinishCleaning(unique, commonWords))
    ensures forall w :: w in FinishCleaning(unique, commonWords) <==> w in Normalize(lines) && Admitted(w, commonWords)
    ensures forall w | w in FinishCleaning(unique, commonWords) :: Vetted(w, commonWords)
  {
    forall w | w in FinishCleaning(unique, commonWords) ensures Vetted(w, commonWords) {
      NormalizedWords(lines, w);
    }
  }

  /** clean_word_list without its file I/O: the lines of the input file in, the
      lines of the output file out. Every output word consists of 3 to 15 lower-case
      letters, has no triple run, is not a common word and appears once; and every
      normalised word that passes the later filters is kept. */
  function CleanWordList(lines: seq<string>, commonWords: seq<string> := []): (r: seq<string>)
    ensures NoDuplicates(r)
    ensures forall w | w in r :: Vetted(w, commonWords)
    ensures forall w :: w in r <==> w in Normalize(lines) && Admitted(w, commonWords)
  {
    var unique := RemoveDuplicates(Normalize(lines));
    FinishCleaningVetted(lines, commonWords, unique);
    FinishCleaning(unique, commonWords)
  }
}
