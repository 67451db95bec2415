/**
 * The sliding receive window: a circular bitmap of 129 words over the last 8192
 * sequence numbers, refining the plain set of every sequence ever accepted.
 */
module Replay {
  import opened Bytes

  const WINDOW_SIZE: nat := 8192
  const WORD_BITS: nat := 64
  /** `WINDOW_SIZE / WORD_BITS` words and one more for the oldest partial word. */
  const WORD_COUNT: nat := 129

  datatype Verdict = Acceptable | Duplicate | TooOld

  // ---------------------------------------------------------------- set model

  /** Largest element of a set of sequences. */
  ghost function Highest(accepted: set<nat>): (m: nat)
    requires accepted != {}
    ensures m in accepted && forall s :: s in accepted ==> s <= m
  {
    var s :| s in accepted;
    if accepted == {s} then s
    else
      var rest := accepted - {s};
      assert accepted == rest + {s};
      assert rest != {};
      var m := Highest(rest);
      if m > s then m else s
  }

  /** The verdict of a receiver that simply remembers every accepted sequence. */
  ghost function SetVerdict(accepted: set<nat>, sequence: nat): Verdict {
    if accepted == {} || sequence > Highest(accepted) then Acceptable
    else if Highest(accepted) - sequence >= WINDOW_SIZE then TooOld
    else if sequence in accepted then Duplicate
    else Acceptable
  }

  lemma HighestUnique(accepted: set<nat>, m: nat)
    requires m in accepted && forall s :: s in accepted ==> s <= m
    ensures Highest(accepted) == m
  {
  }

  /** The verdict in terms of what was accepted: 8192 behind is too old, else once is enough. */
  lemma VerdictExactly(accepted: set<nat>, sequence: nat)
    ensures SetVerdict(accepted, sequence) == TooOld <==> exists s :: s in accepted && s >= sequence + 8192
    ensures SetVerdict(accepted, sequence) == Duplicate <==>
            sequence in accepted && !exists s :: s in accepted && s >= sequence + 8192
  {
    if accepted != {} && Highest(accepted) >= sequence + 8192 { assert Highest(accepted) in accepted; }
  }

  // ------------------------------------------------------------------- window

  /** `1 << (sequence % 64)` */
  function Mask(sequence: nat): (m: u64)
    ensures m == Pow2(sequence % WORD_BITS)
  {
    BinaryWidths();
    Pow2Increases(sequence % WORD_BITS, 64);
    Pow2(sequence % WORD_BITS)
  }

  /** `word | 1 << (sequence % 64)` */
  function SetWord(word: u64, sequence: nat): u64 {
    BinaryWidths();
    Or(word, Mask(sequence), WORD_BITS)
  }

  function Index(word: nat): (i: nat)
    ensures i < WORD_COUNT
  {
    word % WORD_COUNT
  }

  /** Two words at most 128 apart share a ring slot only if they are the same word. */
  lemma IndexInjective(v: nat, w: nat)
    requires v - WORD_COUNT < w < v + WORD_COUNT && Index(v) == Index(w)
    ensures v == w
  {
    var i := Index(v);
    assert v == WORD_COUNT * (v / WORD_COUNT) + i;
    assert w == WORD_COUNT * (w / WORD_COUNT) + i;
  }

  /** The sequence recorded by bit `k` of `word`. */
  function Numbered(word: nat, k: nat): (s: nat)
  {
    WORD_BITS * word + k
  }

  lemma Renumbered(word: nat, k: nat)
    requires k < WORD_BITS
    ensures Numbered(word, k) / WORD_BITS == word && Numbered(word, k) % WORD_BITS == k
  {
  }

  /** `word` is one of the `WORD_COUNT` words ending at `top`. */
  predicate Live(word: nat, top: nat) {
    word <= top < word + WORD_COUNT
  }

  lemma WordsBelow(accepted: set<nat>, m: nat)
    requires forall s :: s in accepted ==> s <= m
    ensures forall s :: s in accepted ==> s / WORD_BITS <= m / WORD_BITS
  {
  }

  /** A ring agrees with a set on each word that ends at `top`. */
  ghost predicate Agrees(ring: seq<u64>, top: nat, accepted: set<nat>) {
    && |ring| == WORD_COUNT
    && forall word: nat, k: nat :: Live(word, top) && k < WORD_BITS ==>
         (Digit(ring[Index(word)], k) <==> Numbered(word, k) in accepted)
  }

  /** Opening word `top + 1` by clearing its slot keeps agreement. */
  lemma OpenWord(ring: seq<u64>, top: nat, accepted: set<nat>)
    requires Agrees(ring, top, accepted)
    requires forall s :: s in accepted ==> s / WORD_BITS <= top
    ensures Agrees(ring[Index(top + 1) := 0], top + 1, accepted)
  {
    var next := ring[Index(top + 1) := 0];
    forall word: nat, k: nat | Live(word, top + 1) && k < WORD_BITS
      ensures Digit(next[Index(word)], k) <==> Numbered(word, k) in accepted
    {
      if word <= top {
        if Index(word) == Index(top + 1) { IndexInjective(word, top + 1); }
        assert Live(word, top);
      } else {
        ZeroDigits(k);
        Renumbered(word, k);
      }
    }
  }

  /** A cleared ring agrees wherever nothing was accepted. */
  lemma ClearedRing(ring: seq<u64>, top: nat, accepted: set<nat>)
    requires |ring| == WORD_COUNT && forall i :: 0 <= i < WORD_COUNT ==> ring[i] == 0
    requires forall s :: s in accepted ==> s / WORD_BITS + WORD_COUNT <= top
    ensures Agrees(ring, top, accepted)
  {
    forall word: nat, k: nat | Live(word, top) && k < WORD_BITS
      ensures Digit(ring[Index(word)], k) <==> Numbered(word, k) in accepted
    {
      ZeroDigits(k);
      Renumbered(word, k);
    }
  }

  /** Setting the bit of `s` adds `s` and nothing else. */
  lemma MarkBit(ring: seq<u64>, top: nat, accepted: set<nat>, s: nat)
    requires Agrees(ring, top, accepted)
    requires Live(s / WORD_BITS, top)
    ensures var i := Index(s / WORD_BITS);
            Agrees(ring[i := SetWord(ring[i], s)], top, accepted + {s})
  {
    var i := Index(s / WORD_BITS);
    var next := ring[i := SetWord(ring[i], s)];
    forall word: nat, k: nat | Live(word, top) && k < WORD_BITS
      ensures Digit(next[Index(word)], k) <==> Numbered(word, k) in accepted + {s}
    {
      Renumbered(word, k);
      if Index(word) == i {
        IndexInjective(word, s / WORD_BITS);
        OrDigits(ring[i], Mask(s), WORD_BITS, k);
        PowerDigits(s % WORD_BITS, k);
      }
    }
  }

  class ReplayWindow {
    var highest: Option<u64>
    const seen: array<u64>
    /** Every sequence ever marked; the window itself keeps only the bitmap. */
    ghost var accepted: set<nat>

    /** The ring agrees with the set on each of the 129 words that end at the highest one. */
    ghost predicate Valid()
      reads this, seen
    {
      && seen.Length == WORD_COUNT
      && (highest.None? <==> accepted == {})
      && (highest.None? ==> forall i :: 0 <= i < WORD_COUNT ==> seen[i] == 0)
      && (highest.Some? ==>
            && highest.value in accepted
            && (forall s :: s in accepted ==> s <= highest.value)
            && Agrees(seen[..], highest.value / WORD_BITS, accepted))
    }

    constructor ()
      ensures Valid() && fresh(seen) && accepted == {}
    {
      highest := None;
      seen := new u64[WORD_COUNT](_ => 0);
      accepted := {};
    }

    method EnsureAcceptable(sequence: u64) returns (v: Verdict)
      requires Valid()
      ensures v == SetVerdict(accepted, sequence)
    {
      if highest.None? {
        return Acceptable;
      }
      HighestUnique(accepted, highest.value);
      if sequence > highest.value {
        return Acceptable;
      }
      if highest.value - sequence >= WINDOW_SIZE {
        return TooOld;
      }
      Renumbered(sequence / WORD_BITS, sequence % WORD_BITS);
      AndPower(seen[Index(sequence / WORD_BITS)], sequence % WORD_BITS, WORD_BITS);
      if And(seen[Index(sequence / WORD_BITS)], Mask(sequence), WORD_BITS) != 0 {
        return Duplicate;
      }
      return Acceptable;
    }

    /** Clears every slot that sequences above `highest` and up to `sequence` will use. */
    method OpenUpTo(sequence: u64)
      requires Valid() && highest.Some? && sequence > highest.value
      modifies seen
      ensures Agrees(seen[..], sequence / WORD_BITS, accepted)
    {
      var previousWord, nextWord := highest.value / WORD_BITS, sequence / WORD_BITS;
      WordsBelow(accepted, highest.value);
      if nextWord - previousWord >= WORD_COUNT {
        for i := 0 to WORD_COUNT
          invariant forall j :: 0 <= j < i ==> seen[j] == 0
        {
          seen[i] := 0;
        }
        ClearedRing(seen[..], nextWord, accepted);
      } else {
        for word := previousWord + 1 to nextWord + 1
          invariant Agrees(seen[..], word - 1, accepted)
        {
          OpenWord(seen[..], word - 1, accepted);
          seen[Index(word)] := 0;
        }
      }
    }

    method MarkAuthenticated(sequence: u64)
      requires Valid()
      requires SetVerdict(accepted, sequence) != TooOld
      modifies this, seen
      ensures Valid()
      ensures accepted == old(accepted) + {sequence}
    {
      ghost var top := sequence / WORD_BITS;
      if highest.None? {
        ClearedRing(seen[..], top, accepted);
      } else {
        HighestUnique(accepted, highest.value);
        if sequence > highest.value {
          OpenUpTo(sequence);
        } else {
          top := highest.value / WORD_BITS;
        }
      }
      MarkBit(seen[..], top, accepted, sequence);
      seen[Index(sequence / WORD_BITS)] := SetWord(seen[Index(sequence / WORD_BITS)], sequence);
      if highest.None? || sequence > highest.value {
        highest := Some(sequence);
      }
      accepted := accepted + {sequence};
    }
  }
}
