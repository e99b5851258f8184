/** Python's `word.translate(str.maketrans(src, dst))` on one-character tables. */
module Translation {

  /** The table str.maketrans(src, dst) builds: src[j] maps to dst[j]; when a character
      occurs twice in src the later pair wins, as in the dict maketrans fills in order. */
  function Lookup(src: string, dst: string, c: char): (d: char)
    requires |src| == |dst|
    ensures c !in src ==> d == c
    ensures c in src ==> exists j | 0 <= j < |src| :: src[j] == c && d == dst[j]
  {
    if |src| == 0 then c
    else if src[|src| - 1] == c then dst[|dst| - 1]
    else Lookup(src[..|src| - 1], dst[..|dst| - 1], c)
  }

  /** str.maketrans raises unless both strings have the same length. */
  predicate TableOk(src: string, dst: string) { |src| == |dst| }

  /** word.translate(table): every character outside the table is kept, every key
      becomes a replacement paired with it in the table, and when no replacement is
      itself a key, no key of the table is left. */
  function Translate(src: string, dst: string, w: string): (r: string)
    requires TableOk(src, dst)
    ensures |r| == |w|
    ensures forall i | 0 <= i < |w| :: w[i] !in src ==> r[i] == w[i]
    ensures forall i | 0 <= i < |w| :: w[i] in src ==> exists j | 0 <= j < |src| :: src[j] == w[i] && r[i] == dst[j]
    ensures (forall j | 0 <= j < |dst| :: dst[j] !in src) ==> forall i | 0 <= i < |r| :: r[i] !in src
  {
    var r := seq(|w|, i requires 0 <= i < |w| => Lookup(src, dst, w[i]));
    assert (forall j | 0 <= j < |dst| :: dst[j] !in src) ==> forall i | 0 <= i < |r| :: r[i] !in src by {
      if forall j | 0 <= j < |dst| :: dst[j] !in src {
        forall i | 0 <= i < |r| ensures r[i] !in src {
          if w[i] in src {
            var j :| 0 <= j < |src| && src[j] == w[i] && r[i] == dst[j];
          }
        }
      }
    }
    r
  }

  /** When no replacement character is itself a key of the table, translating twice
      changes nothing more than translating once. */
  lemma {:induction false} TranslateIdempotent(src: string, dst: string, w: string)
    requires TableOk(src, dst)
    requires forall j | 0 <= j < |dst| :: dst[j] !in src
    ensures Translate(src, dst, Translate(src, dst, w)) == Translate(src, dst, w)
  {
    var once := Translate(src, dst, w);
    forall i | 0 <= i < |w|
      ensures Lookup(src, dst, once[i]) == once[i]
    {
      if w[i] in src {
        var j :| 0 <= j < |src| && src[j] == w[i] && once[i] == dst[j];
        assert once[i] !in src;
      }
    }
  }
}
