/** One generation attempt and the retry loop of generate_passphrase, shared by both
    generator files. The two files run the same algorithm and differ only in the
    maketrans table replace_vowels uses and in the length cap, which a Config names.

    The random draws of an attempt are passed in as a Draw: what random.sample,
    secrets.randbelow, random.randint and random.choice returned. ValidDraw is what
    those library calls promise about their results.
 */
module PassphraseEngine {
  import opened Ascii
  import opened Translation

  datatype Error =
    | NotEnoughWords   // "Not enough unique words in the list."
    | EmptyRange       // randbelow(0) or randint(1, 0): ValueError from the random source
    | TooLong(limit: nat)  // "The passphrase cannot exceed <limit> characters."
    | DrawsExhausted   // the supplied attempts ran out before one was accepted

  datatype Result<T> = Ok(value: T) | Err(error: Error)

  /** A generator variant: replace_vowels is translate(maketrans(vowels, replacements)),
      and a passphrase longer than maxLength raises. */
  datatype Config = Config(vowels: string, replacements: string, maxLength: nat)

  predicate ValidConfig(cfg: Config) { TableOk(cfg.vowels, cfg.replacements) }

  /** A passphrase must be longer than this; a shorter attempt is retried. */
  const MIN_EXCLUSIVE_LENGTH: nat := 10

  /** The random choices of one attempt:
      selected   -- random.sample(word_list, num_words), as positions in word_list;
      capitalize -- the per-word coin deciding word.capitalize();
      special    -- random.sample(range(num_words), num_special_words);
      capitals   -- random.sample(range(total_chars), num_to_capitalize). */
  datatype Draw = Draw(selected: seq<nat>, capitalize: seq<bool>, special: seq<nat>, capitals: seq<nat>)

  /** s could be random.sample(range(n), |s|): distinct values below n. */
  predicate IsSample(s: seq<nat>, n: nat) {
    (forall i | 0 <= i < |s| :: s[i] < n) && (forall i, j | 0 <= i < j < |s| :: s[i] != s[j])
  }

  /** s could be random.sample(range(n), randbelow(max) + 1) for max > 0. */
  predicate IsBoundedSample(s: seq<nat>, n: nat, max: nat) {
    1 <= |s| <= max && IsSample(s, n)
  }

  predicate WellFormedDraw(words: seq<string>, n: nat, d: Draw) {
    |d.selected| == n && |d.capitalize| == n && IsSample(d.selected, |words|)
  }

  /** The list comprehension: each selected word, capitalised when its coin says so. */
  function CapitalizedWords(words: seq<string>, n: nat, d: Draw): (parts: seq<string>)
    requires WellFormedDraw(words, n, d)
    ensures |parts| == n
    ensures forall i | 0 <= i < n ::
      |parts[i]| == |words[d.selected[i]]| && Lower(parts[i]) == Lower(words[d.selected[i]])
    ensures forall i | 0 <= i < n :: d.capitalize[i] ==> parts[i] == Capitalize(words[d.selected[i]])
    ensures forall i | 0 <= i < n :: !d.capitalize[i] ==> parts[i] == words[d.selected[i]]
  {
    seq(n, i requires 0 <= i < n =>
      var w := words[d.selected[i]];
      if d.capitalize[i] then Capitalize(w) else w)
  }

  /** The parts after replace_vowels has been applied at the positions in special. */
  function Substitute(cfg: Config, parts: seq<string>, special: seq<nat>): (r: seq<string>)
    requires ValidConfig(cfg)
    ensures |r| == |parts|
  {
    seq(|parts|, i requires 0 <= i < |parts| =>
      if i in special then Translate(cfg.vowels, cfg.replacements, parts[i]) else parts[i])
  }

  /** ' '.join(parts): the parts with one space between each two. */
  function Join(parts: seq<string>): (r: string)
    ensures |parts| > 0 ==> |r| == TotalLength(parts) + |parts| - 1
  {
    if |parts| == 0 then ""
    else if |parts| == 1 then parts[0]
    else parts[0] + " " + Join(parts[1..])
  }

  /** The passphrase of an attempt before capitalize_random_characters. */
  function Candidate(cfg: Config, words: seq<string>, n: nat, useSpecial: bool, d: Draw): (joined: string)
    requires ValidConfig(cfg) && WellFormedDraw(words, n, d)
  {
    var parts := CapitalizedWords(words, n, d);
    Join(if useSpecial then Substitute(cfg, parts, d.special) else parts)
  }

  /** What the random calls of one attempt promise: a sample of distinct word
      positions, one coin per word, 1..n/2 distinct positions for substitution and
      1..len/2 distinct character positions to upper-case (when those ranges are not
      empty; when they are, the attempt raises before using the draw). */
  predicate ValidDraw(cfg: Config, words: seq<string>, n: nat, useSpecial: bool, d: Draw) {
    && ValidConfig(cfg)
    && WellFormedDraw(words, n, d)
    && (useSpecial && n / 2 > 0 ==> IsBoundedSample(d.special, n, n / 2))
    && (var m := |Candidate(cfg, words, n, useSpecial, d)|;
        m / 2 > 0 ==> IsBoundedSample(d.capitals, m, m / 2))
  }

  /** Every attempt of a stream satisfies ValidDraw. */
  predicate ValidDraws(cfg: Config, words: seq<string>, n: nat, useSpecial: bool, draws: seq<Draw>)
    ensures ValidDraws(cfg, words, n, useSpecial, draws) ==>
      forall k | 0 <= k < |draws| :: WellFormedDraw(words, n, draws[k])
  {
    forall k | 0 <= k < |draws| :: ValidDraw(cfg, words, n, useSpecial, draws[k])
  }

  /** s with the characters at the positions in idx upper-cased. */
  function CapitalizeAt(s: string, idx: seq<nat>): (r: string)
    ensures |r| == |s|
  {
    seq(|s|, i requires 0 <= i < |s| => if i in idx then ToUpper(s[i]) else s[i])
  }

  /** capitalize_random_characters: upper-cases the characters at the sampled
      positions of a list copy of the passphrase. It raises when the string has fewer
      than two characters, since the count is drawn from an empty range. */
  method CapitalizeRandomCharacters(passphrase: string, indices: seq<nat>) returns (r: Result<string>)
    requires |passphrase| / 2 > 0 ==> IsBoundedSample(indices, |passphrase|, |passphrase| / 2)
    ensures r.Err? <==> |passphrase| < 2
    ensures r.Err? ==> r.error == EmptyRange
    ensures r.Ok? ==> |r.value| == |passphrase| && Upper(r.value) == Upper(passphrase)
    ensures r.Ok? ==> forall i | 0 <= i < |passphrase| ::
      r.value[i] == if i in indices then ToUpper(passphrase[i]) else passphrase[i]
    ensures r.Ok? ==> r.value == CapitalizeAt(passphrase, indices)
  {
    var totalChars := |passphrase|;
    var maxCapitalize := totalChars / 2;
    if maxCapitalize == 0 {
      return Err(EmptyRange);
    }
    var passphraseList := new char[totalChars](i requires 0 <= i < totalChars => passphrase[i]);
    for k := 0 to |indices|
      invariant forall i | 0 <= i < totalChars ::
        passphraseList[i] == if i in indices[..k] then ToUpper(passphrase[i]) else passphrase[i]
    {
      var index := indices[k];
      passphraseList[index] := ToUpper(passphraseList[index]);
      assert indices[..k + 1] == indices[..k] + [index];
    }
    assert indices[..|indices|] == indices;
    var result := passphraseList[..];
    assert result == CapitalizeAt(passphrase, indices);
    return Ok(result);
  }

  datatype Outcome = Accepted(passphrase: string) | TooShort | Failed(error: Error)

  /** The outcome of one pass through the body of the `while True` loop: it raises
      exactly when a random range is empty or the passphrase is over the cap, and
      otherwise accepts exactly the passphrases longer than 10: the joined candidate
      with the characters at the sampled positions upper-cased. */
  function AttemptSpec(cfg: Config, words: seq<string>, n: nat, useSpecial: bool, d: Draw): (o: Outcome)
    requires ValidConfig(cfg) && WellFormedDraw(words, n, d)
    ensures var m := |Candidate(cfg, words, n, useSpecial, d)|;
      o == Failed(EmptyRange) <==> (useSpecial && n / 2 == 0) || m < 2
    ensures var m := |Candidate(cfg, words, n, useSpecial, d)|;
      o == Failed(TooLong(cfg.maxLength)) <==> !(useSpecial && n / 2 == 0) && 2 <= m && m > cfg.maxLength
    ensures o.Failed? ==> o.error in {EmptyRange, TooLong(cfg.maxLength)}
    ensures o.TooShort? <==>
      !(useSpecial && n / 2 == 0) && 2 <= |Candidate(cfg, words, n, useSpecial, d)| <= MIN_EXCLUSIVE_LENGTH
         && |Candidate(cfg, words, n, useSpecial, d)| <= cfg.maxLength
    ensures o.Accepted? ==>
      && MIN_EXCLUSIVE_LENGTH < |o.passphrase| <= cfg.maxLength
      && |o.passphrase| == |Candidate(cfg, words, n, useSpecial, d)|
      && Upper(o.passphrase) == Upper(Candidate(cfg, words, n, useSpecial, d))
    ensures o.Accepted? ==> var c := Candidate(cfg, words, n, useSpecial, d);
      forall i | 0 <= i < |c| :: o.passphrase[i] == if i in d.capitals then ToUpper(c[i]) else c[i]
  {
    if useSpecial && n / 2 == 0 then Failed(EmptyRange)
    else
      var joined := Candidate(cfg, words, n, useSpecial, d);
      if |joined| / 2 == 0 then Failed(EmptyRange)
      else
        var p := CapitalizeAt(joined, d.capitals);
        if |p| > cfg.maxLength then Failed(TooLong(cfg.maxLength))
        else if |p| > MIN_EXCLUSIVE_LENGTH then Accepted(p)
        else TooShort
  }

  /** The `for index in special_indices` loop: replace_vowels applied in place to
      the parts at the sampled positions. */
  method ReplaceVowelsAt(cfg: Config, parts: array<string>, specialIndices: seq<nat>)
    requires ValidConfig(cfg)
    requires IsSample(specialIndices, parts.Length)
    modifies parts
    ensures parts[..] == Substitute(cfg, old(parts[..]), specialIndices)
  {
    ghost var original := parts[..];
    for k := 0 to |specialIndices|
      invariant forall i | 0 <= i < parts.Length ::
        parts[i] == if i in specialIndices[..k]
          then Translate(cfg.vowels, cfg.replacements, original[i]) else original[i]
    {
      var index := specialIndices[k];
      parts[index] := Translate(cfg.vowels, cfg.replacements, parts[index]);
      assert specialIndices[..k + 1] == specialIndices[..k] + [index];
    }
    assert specialIndices[..|specialIndices|] == specialIndices;
  }

  /** One attempt, with passphrase_parts updated in place. */
  method Attempt(cfg: Config, words: seq<string>, n: nat, useSpecial: bool, d: Draw) returns (o: Outcome)
    requires ValidDraw(cfg, words, n, useSpecial, d)
    ensures o == AttemptSpec(cfg, words, n, useSpecial, d)
  {
    var selectedWords := seq(n, i requires 0 <= i < n => words[d.selected[i]]);
    var passphraseParts := new string[n](i requires 0 <= i < n =>
      if d.capitalize[i] then Capitalize(selectedWords[i]) else selectedWords[i]);
    ghost var capitalized := CapitalizedWords(words, n, d);
    assert passphraseParts[..] == capitalized;
    if useSpecial {
      var maxSpecialWords := n / 2;
      if maxSpecialWords == 0 {
        return Failed(EmptyRange);
      }
      ReplaceVowelsAt(cfg, passphraseParts, d.special);
    }
    var passphrase := Join(passphraseParts[..]);
    assert passphrase == Candidate(cfg, words, n, useSpecial, d);
    var capitalizedResult := CapitalizeRandomCharacters(passphrase, d.capitals);
    if capitalizedResult.Err? {
      return Failed(capitalizedResult.error);
    }
    var p := capitalizedResult.value;
    if |p| > cfg.maxLength {
      return Failed(TooLong(cfg.maxLength));
    }
    if |p| > MIN_EXCLUSIVE_LENGTH {
      return Accepted(p);
    }
    return TooShort;
  }

  /** The `while True` loop over a stream of attempts: a short attempt is discarded
      and the next one tried, anything else ends the loop. */
  function Retry(cfg: Config, words: seq<string>, n: nat, useSpecial: bool, draws: seq<Draw>): (r: Result<string>)
    requires ValidConfig(cfg)
    requires forall k | 0 <= k < |draws| :: WellFormedDraw(words, n, draws[k])
    ensures r.Ok? ==> MIN_EXCLUSIVE_LENGTH < |r.value| <= cfg.maxLength
    ensures r.Err? ==> r.error in {EmptyRange, TooLong(cfg.maxLength), DrawsExhausted}
    decreases |draws|
  {
    if |draws| == 0 then Err(DrawsExhausted)
    else match AttemptSpec(cfg, words, n, useSpecial, draws[0])
      case Accepted(p) => Ok(p)
      case Failed(e) => Err(e)
      case TooShort => Retry(cfg, words, n, useSpecial, draws[1..])
  }

  /** generate_passphrase: the vocabulary check happens once, before any attempt. */
  function GenerateSpec(cfg: Config, words: seq<string>, n: nat, useSpecial: bool, draws: seq<Draw>): (r: Result<string>)
    requires ValidConfig(cfg)
    requires n <= |words| ==> forall k | 0 <= k < |draws| :: WellFormedDraw(words, n, draws[k])
  {
    if n > |words| then Err(NotEnoughWords) else Retry(cfg, words, n, useSpecial, draws)
  }

  /** Unfolding the loop once at attempt k. */
  lemma RetryStep(cfg: Config, words: seq<string>, n: nat, useSpecial: bool, draws: seq<Draw>, k: nat)
    requires ValidConfig(cfg)
    requires forall j | 0 <= j < |draws| :: WellFormedDraw(words, n, draws[j])
    requires k < |draws|
    ensures var o := AttemptSpec(cfg, words, n, useSpecial, draws[k]);
      Retry(cfg, words, n, useSpecial, draws[k..]) ==
        if o.TooShort? then Retry(cfg, words, n, useSpecial, draws[k + 1..]) else Decision(o)
  {
    assert draws[k..][0] == draws[k] && draws[k..][1..] == draws[k + 1..];
  }

  method Generate(cfg: Config, words: seq<string>, n: nat, useSpecial: bool, draws: seq<Draw>)
    returns (r: Result<string>)
    requires ValidConfig(cfg)
    requires n <= |words| ==> ValidDraws(cfg, words, n, useSpecial, draws)
    ensures r == GenerateSpec(cfg, words, n, useSpecial, draws)
  {
    if n > |words| {
      return Err(NotEnoughWords);
    }
    var k := 0;
    while k < |draws|
      invariant 0 <= k <= |draws|
      invariant Retry(cfg, words, n, useSpecial, draws) == Retry(cfg, words, n, useSpecial, draws[k..])
    {
      var o := Attempt(cfg, words, n, useSpecial, draws[k]);
      RetryStep(cfg, words, n, useSpecial, draws, k);
      match o {
        case Accepted(p) => return Ok(p);
        case Failed(e) => return Err(e);
        case TooShort =>
      }
      k := k + 1;
    }
    return Err(DrawsExhausted);
  }

  // ---------------------------------------------------------------------------
  // Properties of an attempt

  function TotalLength(ws: seq<string>): (total: nat) {
    if |ws| == 0 then 0 else |ws[0]| + TotalLength(ws[1..])
  }

  lemma {:induction false} TotalLengthPointwise(a: seq<string>, b: seq<string>)
    requires |a| == |b|
    requires forall i | 0 <= i < |a| :: |a[i]| == |b[i]|
    ensures TotalLength(a) == TotalLength(b)
  {
    if |a| > 0 {
      TotalLengthPointwise(a[1..], b[1..]);
    }
  }

  /** Capitalisation and vowel replacement keep every word's length, so the
      candidate is as long as the selected words plus one separator between each
      two: whether an attempt is too long or too short depends on the selection only. */
  lemma CandidateLength(cfg: Config, words: seq<string>, n: nat, useSpecial: bool, d: Draw)
    requires ValidConfig(cfg) && WellFormedDraw(words, n, d)
    requires n > 0
    ensures |Candidate(cfg, words, n, useSpecial, d)|
      == TotalLength(seq(n, i requires 0 <= i < n => words[d.selected[i]])) + n - 1
  {
    var parts := CapitalizedWords(words, n, d);
    var joinedParts := if useSpecial then Substitute(cfg, parts, d.special) else parts;
    var selectedWords := seq(n, i requires 0 <= i < n => words[d.selected[i]]);
    TotalLengthPointwise(joinedParts, selectedWords);
  }

  // ---------------------------------------------------------------------------
  // Splitting on spaces

  /** Python's s.split(' '): the pieces between single spaces, empty ones included. */
  function SplitOnSpace(s: string): (r: seq<string>)
    ensures |r| > 0
  {
    if |s| == 0 then [""]
    else if s[0] == ' ' then [""] + SplitOnSpace(s[1..])
    else var rest := SplitOnSpace(s[1..]); [[s[0]] + rest[0]] + rest[1..]
  }

  lemma {:induction false} SplitWord(w: string)
    requires ' ' !in w
    ensures SplitOnSpace(w) == [w]
  {
    if |w| > 0 {
      SplitWord(w[1..]);
      assert [w[0]] + w[1..] == w;
    }
  }

  lemma {:induction false} SplitWordThenSpace(w: string, t: string)
    requires ' ' !in w
    ensures SplitOnSpace(w + " " + t) == [w] + SplitOnSpace(t)
  {
    if |w| == 0 {
      assert w + " " + t == [' '] + t;
      assert (w + " " + t)[1..] == t;
    } else {
      var s := w + " " + t;
      assert s[1..] == w[1..] + " " + t;
      SplitWordThenSpace(w[1..], t);
      assert [w[0]] + w[1..] == w;
    }
  }

  /** Joining words that hold no space and splitting on spaces gives the words back. */
  lemma {:induction false} SplitJoin(parts: seq<string>)
    requires |parts| > 0
    requires forall i | 0 <= i < |parts| :: ' ' !in parts[i]
    ensures SplitOnSpace(Join(parts)) == parts
  {
    if |parts| == 1 {
      SplitWord(parts[0]);
    } else {
      SplitWordThenSpace(parts[0], Join(parts[1..]));
      SplitJoin(parts[1..]);
    }
  }

  /** The number of pieces depends only on where the spaces are. */
  lemma {:induction false} SplitCountBySpaces(s: string, t: string)
    requires |s| == |t|
    requires forall i | 0 <= i < |s| :: (s[i] == ' ') == (t[i] == ' ')
    ensures |SplitOnSpace(s)| == |SplitOnSpace(t)|
  {
    if |s| > 0 {
      SplitCountBySpaces(s[1..], t[1..]);
    }
  }

  /** When no word of the list and no replacement character is a space, the joined
      candidate splits on spaces back into its n words: word i is the selected word,
      capitalised when its coin says so and vowel-replaced when i was sampled for
      special characters. */
  lemma CandidatePieces(cfg: Config, words: seq<string>, n: nat, useSpecial: bool, d: Draw)
    requires ValidConfig(cfg) && WellFormedDraw(words, n, d)
    requires n > 0
    requires forall w | w in words :: ' ' !in w
    requires ' ' !in cfg.replacements
    ensures |SplitOnSpace(Candidate(cfg, words, n, useSpecial, d))| == n
    ensures forall i | 0 <= i < n ::
              SplitOnSpace(Candidate(cfg, words, n, useSpecial, d))[i] ==
                (var w := if d.capitalize[i] then Capitalize(words[d.selected[i]]) else words[d.selected[i]];
                 if useSpecial && i in d.special then Translate(cfg.vowels, cfg.replacements, w) else w)
  {
    var parts := CapitalizedWords(words, n, d);
    var joinedParts := if useSpecial then Substitute(cfg, parts, d.special) else parts;
    var joined := Join(joinedParts);
    forall i | 0 <= i < n ensures ' ' !in joinedParts[i] {
      var w := words[d.selected[i]];
      assert w in words;
      assert ' ' !in parts[i] by {
        forall k | 0 <= k < |w| ensures parts[i][k] != ' ' {
          CaseMapsKeepSpaces(w[k]);
        }
      }
      if useSpecial && i in d.special {
        var t := Translate(cfg.vowels, cfg.replacements, parts[i]);
        forall k | 0 <= k < |t| ensures t[k] != ' ' {
          if parts[i][k] in cfg.vowels {
            var j :| 0 <= j < |cfg.vowels| && cfg.vowels[j] == parts[i][k] && t[k] == cfg.replacements[j];
          }
        }
      }
    }
    SplitJoin(joinedParts);
  }

  /** When no word of the list and no replacement character is a space, an accepted
      passphrase splits on spaces into exactly num_words pieces. */
  lemma AcceptedSplitsIntoWords(cfg: Config, words: seq<string>, n: nat, useSpecial: bool, d: Draw, p: string)
    requires ValidConfig(cfg) && WellFormedDraw(words, n, d)
    requires forall w | w in words :: ' ' !in w
    requires ' ' !in cfg.replacements
    requires AttemptSpec(cfg, words, n, useSpecial, d) == Accepted(p)
    ensures |SplitOnSpace(p)| == n
  {
    var joined := Candidate(cfg, words, n, useSpecial, d);
    CandidatePieces(cfg, words, n, useSpecial, d);
    forall i | 0 <= i < |joined| ensures (p[i] == ' ') == (joined[i] == ' ') {
      CaseMapsKeepSpaces(joined[i]);
    }
    SplitCountBySpaces(p, joined);
  }

  // ---------------------------------------------------------------------------
  // Properties of the retry loop

  function Decision(o: Outcome): (r: Result<string>)
    requires !o.TooShort?
  {
    match o
    case Accepted(p) => Ok(p)
    case Failed(e) => Err(e)
  }

  predicate AllTooShort(cfg: Config, words: seq<string>, n: nat, useSpecial: bool, draws: seq<Draw>, k: nat)
    requires ValidConfig(cfg)
    requires k <= |draws|
    requires forall j | 0 <= j < |draws| :: WellFormedDraw(words, n, draws[j])
  {
    forall j | 0 <= j < k :: AttemptSpec(cfg, words, n, useSpecial, draws[j]) == TooShort
  }

  /** A short first attempt followed by k short attempts makes k + 1 short ones. */
  lemma AllTooShortCons(cfg: Config, words: seq<string>, n: nat, useSpecial: bool, draws: seq<Draw>, k: nat)
    requires ValidConfig(cfg)
    requires forall j | 0 <= j < |draws| :: WellFormedDraw(words, n, draws[j])
    requires k < |draws|
    requires AttemptSpec(cfg, words, n, useSpecial, draws[0]) == TooShort
    requires AllTooShort(cfg, words, n, useSpecial, draws[1..], k)
    ensures AllTooShort(cfg, words, n, useSpecial, draws, k + 1)
  {
    forall j | 0 <= j < k + 1 ensures AttemptSpec(cfg, words, n, useSpecial, draws[j]) == TooShort {
      if j > 0 { assert draws[j] == draws[1..][j - 1]; }
    }
  }

  /** Short attempts are skipped: the first attempt that is not too short decides the
      result, whether it is accepted or raises. */
  lemma {:induction false} RetryStopsAtFirstDecisive(cfg: Config, words: seq<string>, n: nat, useSpecial: bool, draws: seq<Draw>, k: nat)
    requires ValidConfig(cfg)
    requires forall j | 0 <= j < |draws| :: WellFormedDraw(words, n, draws[j])
    requires k < |draws|
    requires AllTooShort(cfg, words, n, useSpecial, draws, k)
    requires !AttemptSpec(cfg, words, n, useSpecial, draws[k]).TooShort?
    ensures Retry(cfg, words, n, useSpecial, draws) == Decision(AttemptSpec(cfg, words, n, useSpecial, draws[k]))
  {
    if k > 0 {
      assert AttemptSpec(cfg, words, n, useSpecial, draws[0]) == TooShort;
      var rest := draws[1..];
      assert forall j | 0 <= j < k - 1 :: rest[j] == draws[j + 1];
      RetryStopsAtFirstDecisive(cfg, words, n, useSpecial, rest, k - 1);
    }
  }

  /** Conversely, a returned passphrase is the one of the first attempt that was not
      too short. */
  lemma {:induction false} RetryAcceptsFirstDecisive(cfg: Config, words: seq<string>, n: nat, useSpecial: bool, draws: seq<Draw>, p: string)
    requires ValidConfig(cfg)
    requires forall j | 0 <= j < |draws| :: WellFormedDraw(words, n, draws[j])
    requires Retry(cfg, words, n, useSpecial, draws) == Ok(p)
    ensures exists k | 0 <= k < |draws| ::
      AllTooShort(cfg, words, n, useSpecial, draws, k) && AttemptSpec(cfg, words, n, useSpecial, draws[k]) == Accepted(p)
  {
    if AttemptSpec(cfg, words, n, useSpecial, draws[0]) != Accepted(p) {
      var rest := draws[1..];
      RetryAcceptsFirstDecisive(cfg, words, n, useSpecial, rest, p);
      var k :| 0 <= k < |rest| &&
        AllTooShort(cfg, words, n, useSpecial, rest, k) && AttemptSpec(cfg, words, n, useSpecial, rest[k]) == Accepted(p);
      assert rest[k] == draws[k + 1];
      AllTooShortCons(cfg, words, n, useSpecial, draws, k);
    } else {
      assert AllTooShort(cfg, words, n, useSpecial, draws, 0);
    }
  }

  /** A passphrase generate_passphrase returns from a list of space-free words splits
      on spaces into exactly num_words pieces. */
  lemma GeneratedSplitsIntoWords(cfg: Config, words: seq<string>, n: nat, useSpecial: bool, draws: seq<Draw>, p: string)
    requires ValidConfig(cfg)
    requires n <= |words| ==> forall j | 0 <= j < |draws| :: WellFormedDraw(words, n, draws[j])
    requires forall w | w in words :: ' ' !in w
    requires ' ' !in cfg.replacements
    requires GenerateSpec(cfg, words, n, useSpecial, draws) == Ok(p)
    ensures |SplitOnSpace(p)| == n
  {
    RetryAcceptsFirstDecisive(cfg, words, n, useSpecial, draws, p);
    var k :| 0 <= k < |draws| &&
      AllTooShort(cfg, words, n, useSpecial, draws, k) && AttemptSpec(cfg, words, n, useSpecial, draws[k]) == Accepted(p);
    AcceptedSplitsIntoWords(cfg, words, n, useSpecial, draws[k], p);
  }
}
