/** The allocation bitmaps of kernel/fs/fs.c: 32-bit words, bit x of a map standing for item x. */
module Bitmap {

  const WORD_BITS := 32

  type Word = w: int | 0 <= w < 0x1_0000_0000

  function Pow2(n: nat): nat {
    if n == 0 then 1 else 2 * Pow2(n - 1)
  }

  /** (w >> j) & 1 */
  predicate Bit(w: nat, j: nat) {
    if j == 0 then w % 2 == 1 else Bit(w / 2, j - 1)
  }

  function SetBit(w: nat, j: nat): nat {
    if j == 0 then w / 2 * 2 + 1 else SetBit(w / 2, j - 1) * 2 + w % 2
  }

  function ClearBit(w: nat, j: nat): nat {
    if j == 0 then w / 2 * 2 else ClearBit(w / 2, j - 1) * 2 + w % 2
  }

  lemma {:induction false} SetBitEffect(w: nat, j: nat, k: nat)
    ensures Bit(SetBit(w, j), k) <==> Bit(w, k) || k == j
    decreases j
  {
    if j == 0 {
      if k > 0 { assert SetBit(w, 0) / 2 == w / 2; }
    } else {
      var v := SetBit(w / 2, j - 1);
      assert (v * 2 + w % 2) % 2 == w % 2 && (v * 2 + w % 2) / 2 == v;
      if k > 0 { SetBitEffect(w / 2, j - 1, k - 1); }
    }
  }

  lemma {:induction false} ClearBitEffect(w: nat, j: nat, k: nat)
    ensures Bit(ClearBit(w, j), k) <==> Bit(w, k) && k != j
    decreases j
  {
    if j == 0 {
      if k > 0 { assert ClearBit(w, 0) / 2 == w / 2; }
    } else {
      var v := ClearBit(w / 2, j - 1);
      assert (v * 2 + w % 2) % 2 == w % 2 && (v * 2 + w % 2) / 2 == v;
      if k > 0 { ClearBitEffect(w / 2, j - 1, k - 1); }
    }
  }

  lemma {:induction false} BitsFit(w: nat, j: nat, n: nat)
    requires w < Pow2(n) && j < n
    ensures SetBit(w, j) < Pow2(n) && ClearBit(w, j) < Pow2(n)
    decreases n
  {
    assert w / 2 < Pow2(n - 1);
    if j > 0 { BitsFit(w / 2, j - 1, n - 1); }
  }

  lemma Pow2Of32()
    ensures Pow2(32) == 0x1_0000_0000
  {
    assert Pow2(8) == 256;
    assert Pow2(16) == 256 * Pow2(8);
    assert Pow2(24) == 256 * Pow2(16);
    assert Pow2(32) == 256 * Pow2(24);
  }

  /** map[i] |= (1 << j) */
  function SetWord(w: Word, j: nat): Word
    requires j < WORD_BITS
  {
    Pow2Of32(); BitsFit(w, j, WORD_BITS);
    SetBit(w, j)
  }

  /** map[i] &= ~(1 << j) */
  function ClearWord(w: Word, j: nat): Word
    requires j < WORD_BITS
  {
    Pow2Of32(); BitsFit(w, j, WORD_BITS);
    ClearBit(w, j)
  }

  // ---------------------------------------------------------------- maps of words

  predicate BitAt(words: seq<Word>, k: int) {
    0 <= k < WORD_BITS * |words| && Bit(words[k / WORD_BITS], k % WORD_BITS)
  }

  function Mark(words: seq<Word>, k: int): (r: seq<Word>)
    ensures |r| == |words|
  {
    if 0 <= k < WORD_BITS * |words|
    then words[k / WORD_BITS := SetWord(words[k / WORD_BITS], k % WORD_BITS)] else words
  }

  function Unmark(words: seq<Word>, k: int): (r: seq<Word>)
    ensures |r| == |words|
  {
    if 0 <= k < WORD_BITS * |words|
    then words[k / WORD_BITS := ClearWord(words[k / WORD_BITS], k % WORD_BITS)] else words
  }

  lemma SameBit(i: int, k: int)
    requires i / WORD_BITS == k / WORD_BITS && i % WORD_BITS == k % WORD_BITS
    ensures i == k
  {}

  /** Marking sets exactly one bit. */
  lemma MarkEffect(words: seq<Word>, k: int, i: int)
    requires 0 <= k < WORD_BITS * |words|
    ensures BitAt(Mark(words, k), i) <==> BitAt(words, i) || i == k
  {
    if 0 <= i < WORD_BITS * |words| {
      SetBitEffect(words[k / WORD_BITS], k % WORD_BITS, i % WORD_BITS);
      if i / WORD_BITS == k / WORD_BITS && i % WORD_BITS == k % WORD_BITS { SameBit(i, k); }
    }
  }

  /** Unmarking clears exactly one bit. */
  lemma UnmarkEffect(words: seq<Word>, k: int, i: int)
    requires 0 <= k < WORD_BITS * |words|
    ensures BitAt(Unmark(words, k), i) <==> BitAt(words, i) && i != k
  {
    if 0 <= i < WORD_BITS * |words| {
      ClearBitEffect(words[k / WORD_BITS], k % WORD_BITS, i % WORD_BITS);
      if i / WORD_BITS == k / WORD_BITS && i % WORD_BITS == k % WORD_BITS { SameBit(i, k); }
    }
  }

  // ---------------------------------------------------------------- the search for a clear bit

  /** How many of the low bits are set before the first clear one, at most n. */
  function Ones(w: nat, n: nat): (j: nat)
    ensures j <= n
    decreases n
  {
    if n == 0 || w % 2 == 0 then 0 else 1 + Ones(w / 2, n - 1)
  }

  lemma {:induction false} OnesAreSet(w: nat, n: nat, k: nat)
    ensures k < Ones(w, n) ==> Bit(w, k)
    ensures Ones(w, n) < n ==> !Bit(w, Ones(w, n))
    decreases n
  {
    if n > 0 && w % 2 == 1 { OnesAreSet(w / 2, n - 1, if k == 0 then 0 else k - 1); }
  }

  function FirstClear(words: seq<Word>): (k: int)
    ensures -1 <= k < WORD_BITS * |words| || k == -1
  {
    if words == [] then -1
    else if Ones(words[0], WORD_BITS) < WORD_BITS then Ones(words[0], WORD_BITS)
    else var r := FirstClear(words[1..]); if r == -1 then -1 else WORD_BITS + r
  }

  lemma BitOfTail(words: seq<Word>, k: int)
    requires words != []
    ensures BitAt(words[1..], k - WORD_BITS) <==> WORD_BITS <= k && BitAt(words, k)
  {
    if WORD_BITS <= k {
      assert (k - WORD_BITS) / WORD_BITS == k / WORD_BITS - 1;
    }
  }

  lemma BitOfHead(words: seq<Word>, k: int)
    requires words != [] && 0 <= k < WORD_BITS
    ensures k < Ones(words[0], WORD_BITS) ==> BitAt(words, k)
    ensures k == Ones(words[0], WORD_BITS) ==> !BitAt(words, k)
  {
    OnesAreSet(words[0], WORD_BITS, k);
    assert k / WORD_BITS == 0 && k % WORD_BITS == k;
  }

  /** The search finds the least clear bit, and finds none exactly when every bit is set. */
  lemma {:induction false} FirstClearIsLeast(words: seq<Word>, k: int)
    requires 0 <= k < WORD_BITS * |words|
    ensures FirstClear(words) == -1 ==> BitAt(words, k)
    ensures 0 <= k < FirstClear(words) ==> BitAt(words, k)
    ensures k == FirstClear(words) ==> !BitAt(words, k)
    decreases |words|
  {
    hide Bit, BitAt, Ones;
    if k < WORD_BITS {
      BitOfHead(words, k);
    } else {
      FirstClearIsLeast(words[1..], k - WORD_BITS);
      BitOfTail(words, k);
    }
  }

  /** The double loop shared by iarray_alloc and darray_alloc. */
  method Scan(words: array<Word>) returns (k: int)
    ensures k == FirstClear(words[..])
  {
    var i := 0;
    while i < words.Length
      invariant 0 <= i <= words.Length
      invariant FirstClear(words[..])
        == if FirstClear(words[i..]) == -1 then -1 else WORD_BITS * i + FirstClear(words[i..])
    {
      var t: nat := words[i];
      var j := 0;
      while t % 2 == 1 && j < WORD_BITS
        invariant 0 <= j <= WORD_BITS
        invariant Ones(words[i], WORD_BITS) == j + Ones(t, WORD_BITS - j)
      {
        t := t / 2;
        j := j + 1;
      }
      assert words[i..][1..] == words[i + 1..];
      if j != WORD_BITS {
        return i * WORD_BITS + j;
      }
      i := i + 1;
    }
    return -1;
  }
}
