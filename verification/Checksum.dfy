/** The rolling checksum of an FTDI EEPROM image (the loops of ftdi_eeprom_build and ftdi_eeprom_decode). */
module Checksum {
  import opened Bits

  type word = bv16

  function Word(lo: byte, hi: byte): word {
    (lo as word) | ((hi as word) << 8)
  }

  function Low(w: word): byte { (w & 0xFF) as byte }

  function High(w: word): byte { (w >> 8) as byte }

  lemma WordOfBytes(w: word)
    ensures Word(Low(w), High(w)) == w
  {
  }

  function RotateLeft(w: word): word { (w << 1) | (w >> 15) }

  function Xor(a: word, b: word): word { a ^ b }

  /** One round: a word is mixed in and the result rotated. */
  function Mix(sum: word, w: word): word { RotateLeft(Xor(w, sum)) }

  /** The checksum of a list of words that starts from `sum`. */
  function Fold(sum: word, words: seq<word>): word {
    if words == [] then sum else Mix(Fold(sum, words[..|words| - 1]), words[|words| - 1])
  }

  function RotateBy(w: word, n: nat): word {
    if n == 0 then w else RotateLeft(RotateBy(w, n - 1))
  }

  /** The xor of the words, each rotated by the number of rounds that follow its own start. */
  function RotatedXor(words: seq<word>, n: nat): word
    requires n >= |words|
  {
    if words == [] then 0 else Xor(RotateBy(words[0], n), if n > 0 then RotatedXor(words[1..], n - 1) else 0)
  }

  lemma RotateLeftXor(a: word, b: word)
    ensures RotateLeft(a ^ b) == RotateLeft(a) ^ RotateLeft(b)
  {
  }

  lemma RotateLeftInjective(a: word, b: word)
    ensures RotateLeft(a) == RotateLeft(b) ==> a == b
  {
  }

  lemma {:induction false} RotateByLeft(w: word, n: nat)
    ensures RotateBy(RotateLeft(w), n) == RotateBy(w, n + 1)
  {
    if n > 0 { RotateByLeft(w, n - 1); }
  }

  lemma {:induction false} RotateByXor(a: word, b: word, n: nat)
    ensures RotateBy(Xor(a, b), n) == Xor(RotateBy(a, n), RotateBy(b, n))
  {
    if n > 0 {
      RotateByXor(a, b, n - 1);
      RotateLeftXor(RotateBy(a, n - 1), RotateBy(b, n - 1));
    }
  }

  lemma Tail(words: seq<word>, sum: word)
    requires words != []
    ensures Fold(sum, words) == Fold(Mix(sum, words[0]), words[1..])
    decreases |words|
  {
    if |words| > 1 {
      var last := |words| - 1;
      Tail(words[..last], sum);
      assert words[..last][1..] == words[1..][..last - 1];
      assert words[..last][0] == words[0];
    }
  }

  /** The checksum is the xor of the start value and all words, each rotated by the rounds it goes through. */
  lemma {:induction false} FoldIsXor(sum: word, words: seq<word>)
    ensures Fold(sum, words) == Xor(RotateBy(sum, |words|), RotatedXor(words, |words|))
    decreases |words|
  {
    var n := |words|;
    if n == 0 {
      XorZero(sum);
    } else {
      hide RotateLeft, Xor, Fold, RotateBy, RotatedXor;
      var first, rest := words[0], RotatedXor(words[1..], n - 1);
      Tail(words, sum);
      FoldIsXor(Mix(sum, first), words[1..]);
      RotateByLeft(Xor(first, sum), n - 1);
      RotateByXor(first, sum, n);
      XorSwap(RotateBy(first, n), RotateBy(sum, n), rest);
      XorStep(words);
    }
  }

  lemma XorZero(a: word)
    ensures Xor(a, 0) == a
  {
  }

  lemma XorStep(words: seq<word>)
    requires words != []
    ensures RotatedXor(words, |words|) == Xor(RotateBy(words[0], |words|), RotatedXor(words[1..], |words| - 1))
  {
  }

  lemma XorSwap(a: word, b: word, c: word)
    ensures Xor(Xor(a, b), c) == Xor(b, Xor(a, c))
  {
  }

  /** A change of one word changes the checksum, whatever the other words are. */
  lemma {:induction false} FoldDetects(sum: word, words: seq<word>, k: nat, w: word)
    requires k < |words|
    ensures Fold(sum, words[k := w]) == Fold(sum, words) <==> w == words[k]
    decreases |words|
  {
    var last := |words| - 1;
    var changed := words[k := w];
    if k == last {
      assert changed[..last] == words[..last];
      MixInjective(Fold(sum, words[..last]), Fold(sum, words[..last]), words[last], w);
    } else {
      FoldDetects(sum, words[..last], k, w);
      assert changed[..last] == words[..last][k := w];
      MixInjective(Fold(sum, changed[..last]), Fold(sum, words[..last]), words[last], words[last]);
    }
  }

  lemma MixInjective(a: word, b: word, v: word, w: word)
    ensures a == b ==> (Mix(a, v) == Mix(b, w) <==> v == w)
    ensures v == w ==> (Mix(a, v) == Mix(b, w) <==> a == b)
  {
    RotateLeftInjective(v ^ a, w ^ b);
    XorCancels(a, v, w);
    XorCancels(v, a, b);
  }

  lemma XorCancels(a: word, v: word, w: word)
    ensures v ^ a == w ^ a <==> v == w
    ensures a ^ v == a ^ w <==> v == w
  {
  }

  // Images. `skips` holds for the FT230X, whose user section in the middle is not part of the checksum.

  const START: word := 0xAAAA

  predicate Image(b: seq<byte>, size: nat) {
    |b| == 256 && (size == 0x80 || size == 0x100)
  }

  function WordAt(b: seq<byte>, i: nat): word
    requires 2 * i + 1 < |b|
  {
    Word(b[2 * i], b[2 * i + 1])
  }

  /** The number of words the loop takes, and the k-th of them. */
  function Count(size: nat, skips: bool): (n: nat)
    requires size == 0x80 || size == 0x100
  {
    if !skips then size / 2 - 1 else if size == 0x80 then 0x13 else 0x51
  }

  function Index(k: nat, skips: bool): nat {
    if skips && k >= 0x12 then k + 0x2E else k
  }

  function Words(b: seq<byte>, size: nat, skips: bool): (r: seq<word>)
    requires Image(b, size)
    ensures |r| == Count(size, skips)
  {
    seq(Count(size, skips), k requires 0 <= k < Count(size, skips) => WordAt(b, Index(k, skips)))
  }

  function Sum(b: seq<byte>, size: nat, skips: bool): word
    requires Image(b, size)
  {
    Fold(START, Words(b, size, skips))
  }

  /** The loop of the two functions over the image in `buf`. */
  method ComputeChecksum(buf: array<byte>, size: nat, skips: bool) returns (checksum: word)
    requires Image(buf[..], size)
    ensures checksum == Sum(buf[..], size, skips)
  {
    checksum := START;
    hide Word, RotateLeft, Xor;
    ghost var n, words := 0, Words(buf[..], size, skips);
    var i := 0;
    while i < size / 2 - 1
      invariant n <= Count(size, skips) && i == (if n == 0 then 0 else Index(n - 1, skips) + 1)
      invariant i >= size / 2 - 1 ==> n == Count(size, skips)
      invariant checksum == Fold(START, words[..n])
      decreases Count(size, skips) - n
    {
      if skips && i == 0x12 {
        i := 0x40;
      }
      var value := Word(buf[2 * i], buf[2 * i + 1]);
      assert words[n] == value && words[..n + 1][..n] == words[..n];
      checksum := RotateLeft(Xor(value, checksum));
      i, n := i + 1, n + 1;
    }
    assert words[..n] == words;
  }

  /** The image carries its own checksum in its last two bytes. */
  predicate Passes(b: seq<byte>, size: nat, skips: bool)
    requires Image(b, size)
  {
    Word(b[size - 2], b[size - 1]) == Sum(b, size, skips)
  }

  predicate Covered(i: nat, size: nat, skips: bool) {
    if skips then i < 0x12 || (0x40 <= i < size / 2 - 1) || (size == 0x80 && i == 0x40) else i < size / 2 - 1
  }

  /** Every change confined to one word of a correct image is found exactly when the word is covered or is the checksum
      itself. */
  lemma OneWordDetected(b: seq<byte>, c: seq<byte>, size: nat, skips: bool, i: nat)
    requires Image(b, size) && Image(c, size) && Passes(b, size, skips) && i < 0x80
    requires forall k :: 0 <= k < 256 && k / 2 != i ==> c[k] == b[k]
    ensures Passes(c, size, skips) <==>
      WordAt(c, i) == WordAt(b, i) || !(Covered(i, size, skips) || i == size / 2 - 1)
  {
    hide Fold, Word;
    var was, now := Words(b, size, skips), Words(c, size, skips);
    if Covered(i, size, skips) {
      var k := if skips && i >= 0x40 then i - 0x2E else i;
      assert now == was[k := WordAt(c, i)];
      FoldDetects(START, was, k, WordAt(c, i));
      assert c[size - 2] == b[size - 2] && c[size - 1] == b[size - 1];
    } else {
      assert now == was;
      if i != size / 2 - 1 {
        assert c[size - 2] == b[size - 2] && c[size - 1] == b[size - 1];
      }
    }
  }

  /** The checksum of an image is the xor of its covered words, each rotated by the rounds that follow it. */
  lemma SumIsXor(b: seq<byte>, size: nat, skips: bool)
    requires Image(b, size)
    ensures var words := Words(b, size, skips);
      Sum(b, size, skips) == Xor(RotateBy(START, |words|), RotatedXor(words, |words|))
  {
    FoldIsXor(START, Words(b, size, skips));
  }

  // ----- the checksum bit by bit

  function Mask16(k: nat): word
    requires k < 16
  {
    if k == 0 then 0x0001 else if k == 1 then 0x0002 else if k == 2 then 0x0004 else if k == 3 then 0x0008
    else if k == 4 then 0x0010 else if k == 5 then 0x0020 else if k == 6 then 0x0040 else if k == 7 then 0x0080
    else if k == 8 then 0x0100 else if k == 9 then 0x0200 else if k == 10 then 0x0400 else if k == 11 then 0x0800
    else if k == 12 then 0x1000 else if k == 13 then 0x2000 else if k == 14 then 0x4000 else 0x8000
  }

  predicate WordBit(w: word, k: nat)
    requires k < 16
  {
    w & Mask16(k) != 0
  }

  /** An odd number of these hold. */
  predicate Odd(bits: seq<bool>) {
    bits != [] && Odd(bits[..|bits| - 1]) != bits[|bits| - 1]
  }

  /** Bit `k` of word `i` of an image, whose bytes come low end first. */
  predicate ImageBit(b: seq<byte>, i: nat, k: nat)
    requires 2 * i + 1 < |b| && k < 16
  {
    Bit(b[2 * i + k / 8], k % 8)
  }

  /** The place from which `n` rotations bring a bit to place `j`. */
  function Turned(j: nat, n: nat): (k: nat)
    ensures k < 16
  {
    (j + 15 * n) % 16
  }

  /** The bits of the image that make up bit `j` of its checksum: word by word one bit, which every round that follows
      moves up by one place. */
  function Taps(b: seq<byte>, size: nat, skips: bool, j: nat): seq<bool>
    requires Image(b, size)
  {
    var n := Count(size, skips);
    seq(n, i requires 0 <= i < n => ImageBit(b, Index(i, skips), Turned(j, n - i)))
  }

  /** A bit of the checksum tells whether an odd number of those bits is set; it starts from 1 at the odd places. */
  lemma SumBits(b: seq<byte>, size: nat, skips: bool, j: nat)
    requires Image(b, size) && j < 16
    ensures WordBit(Sum(b, size, skips), j) ==
      Odd([(j + 15 * Count(size, skips)) % 2 == 1] + Taps(b, size, skips, j))
  {
    hide *;
    SumIs(b, size, skips);
    FoldBits(START, Words(b, size, skips), j);
    StartBits(Turned(j, Count(size, skips)));
    TurnedOdd(j, Count(size, skips));
    TapsAre(b, size, skips, j);
  }

  lemma SumIs(b: seq<byte>, size: nat, skips: bool)
    requires Image(b, size)
    ensures Sum(b, size, skips) == Fold(START, Words(b, size, skips)) && (size == 0x80 || size == 0x100)
    ensures |Words(b, size, skips)| == Count(size, skips)
  {
    hide Fold, Words;
  }

  lemma TapsAre(b: seq<byte>, size: nat, skips: bool, j: nat)
    requires Image(b, size)
    ensures WordTaps(Words(b, size, skips), j) == Taps(b, size, skips, j)
  {
    hide *;
    SumIs(b, size, skips);
    TapsLength(b, size, skips, j);
    forall i | 0 <= i < Count(size, skips) ensures WordTaps(Words(b, size, skips), j)[i] == Taps(b, size, skips, j)[i] {
      TapIs(b, size, skips, j, i);
    }
  }

  lemma TapsLength(b: seq<byte>, size: nat, skips: bool, j: nat)
    requires Image(b, size) && |Words(b, size, skips)| == Count(size, skips)
    ensures |WordTaps(Words(b, size, skips), j)| == |Taps(b, size, skips, j)| == Count(size, skips)
  {
    hide WordBit, ImageBit, Words, Count, Index, Turned;
  }

  lemma TapIs(b: seq<byte>, size: nat, skips: bool, j: nat, i: nat)
    requires Image(b, size) && i < Count(size, skips) == |Words(b, size, skips)|
    requires |WordTaps(Words(b, size, skips), j)| == |Taps(b, size, skips, j)| == Count(size, skips)
    ensures WordTaps(Words(b, size, skips), j)[i] == Taps(b, size, skips, j)[i]
  {
    assert 2 * Index(i, skips) + 1 < 256;
    hide WordBit, ImageBit, Word, Turned;
    BitOfWord(b, Index(i, skips), Turned(j, Count(size, skips) - i));
  }

  lemma TurnedOdd(j: nat, n: nat)
    ensures Turned(j, n) % 2 == (j + 15 * n) % 2
  {
  }

  function WordTaps(words: seq<word>, j: nat): seq<bool> {
    var n := |words|;
    seq(n, i requires 0 <= i < n => WordBit(words[i], Turned(j, n - i)))
  }

  lemma StartBits(k: nat)
    requires k < 16
    ensures WordBit(START, k) <==> k % 2 == 1
  {
  }

  lemma BitOfWord(b: seq<byte>, i: nat, k: nat)
    requires 2 * i + 1 < |b| && k < 16
    ensures WordBit(WordAt(b, i), k) == ImageBit(b, i, k)
  {
    WordBits(b[2 * i], b[2 * i + 1], k);
    hide Word, WordBit, Bit;
  }

  lemma WordBits(lo: byte, hi: byte, k: nat)
    requires k < 16
    ensures WordBit(Word(lo, hi), k) == if k < 8 then Bit(lo, k) else Bit(hi, k - 8)
  {
  }

  lemma {:induction false} FoldBits(sum: word, words: seq<word>, j: nat)
    requires j < 16
    ensures WordBit(Fold(sum, words), j) == Odd([WordBit(sum, Turned(j, |words|))] + WordTaps(words, j))
  {
    var n := |words|;
    if n == 0 {
      NoTaps(sum, j);
    } else {
      hide *;
      var before, k := words[..n - 1], Turned(j, 1);
      var x := WordBit(words[n - 1], k);
      FoldUnfold(sum, words);
      MixBit(Fold(sum, before), words[n - 1], j);
      FoldBits(sum, before, k);
      TurnMore(j, n - 1);
      TapsMore(words, j);
      OneMoreBit([WordBit(sum, Turned(j, n))] + WordTaps(before, k), x);
      assert [WordBit(sum, Turned(j, n))] + (WordTaps(before, k) + [x])
        == [WordBit(sum, Turned(j, n))] + WordTaps(before, k) + [x];
    }
  }

  lemma TurnMore(j: nat, n: nat)
    ensures Turned(Turned(j, 1), n) == Turned(j, n + 1)
  {
  }

  lemma TapsMore(words: seq<word>, j: nat)
    requires words != []
    ensures
      var n, k := |words| - 1, Turned(j, 1);
      WordTaps(words, j) == WordTaps(words[..n], k) + [WordBit(words[n], k)]
  {
    var n, k := |words| - 1, Turned(j, 1);
    hide Turned, WordBit;
    forall i | 0 <= i < n ensures WordTaps(words, j)[i] == WordTaps(words[..n], k)[i] { TurnMore(j, n - i); }
  }

  lemma NoTaps(sum: word, j: nat)
    requires j < 16
    ensures WordBit(Fold(sum, []), j) == Odd([WordBit(sum, Turned(j, 0))] + WordTaps([], j))
  {
    hide WordBit;
    var bits := [WordBit(sum, j)];
    assert bits[..0] == [] && bits + WordTaps([], j) == bits;
    assert Odd(bits) == bits[0];
  }

  lemma FoldUnfold(sum: word, words: seq<word>)
    requires words != []
    ensures Fold(sum, words) == Mix(Fold(sum, words[..|words| - 1]), words[|words| - 1])
  {
  }

  lemma OneMoreBit(bits: seq<bool>, x: bool)
    ensures Odd(bits + [x]) == (Odd(bits) != x)
  {
    assert (bits + [x])[..|bits|] == bits;
  }

  lemma MixBit(sum: word, w: word, j: nat)
    requires j < 16
    ensures WordBit(Mix(sum, w), j) == (WordBit(sum, Turned(j, 1)) != WordBit(w, Turned(j, 1)))
  {
    RotateBit(Xor(w, sum), j);
    XorBit(w, sum, Turned(j, 1));
    hide WordBit, RotateLeft, Xor;
  }

  lemma RotateBit(w: word, j: nat)
    requires j < 16
    ensures WordBit(RotateLeft(w), j) == WordBit(w, Turned(j, 1))
  {
    assert Turned(j, 1) == if j == 0 then 15 else j - 1;
  }

  lemma XorBit(a: word, b: word, k: nat)
    requires k < 16
    ensures WordBit(Xor(a, b), k) == (WordBit(a, k) != WordBit(b, k))
  {
    OneBit(k);
    hide Mask16;
    XorMask(a, b, Mask16(k));
  }

  lemma OneBit(k: nat)
    requires k < 16
    ensures Mask16(k) & (Mask16(k) - 1) == 0
  {
  }

  lemma XorMask(a: word, b: word, m: word)
    requires m & (m - 1) == 0
    ensures (a ^ b) & m != 0 <==> ((a & m != 0) != (b & m != 0))
  {
  }
}
