/**
 Finding the lowest set bit of a word by table lookup (`kservice.c`), the way the scheduler finds the
 most urgent ready priority. A word is the sequence of its bits, least significant first.
 */
module ReadyBits {

  type Word = w: seq<bool> | |w| == 32 witness seq(32, i => false)

  function BitValue(b: bool): (n: int) { if b then 1 else 0 }

  /** The value of bits 0 to 3, or of any four bits. */
  function Nibble(a: bool, b: bool, c: bool, d: bool): (n: int)
    ensures 0 <= n < 16
  {
    BitValue(a) + 2 * BitValue(b) + 4 * BitValue(c) + 8 * BitValue(d)
  }

  /** The value of byte `k` of the word. */
  function Byte(w: Word, k: int): (n: int)
    requires 0 <= k < 4
    ensures 0 <= n < 256
  {
    var i := 8 * k;
    Nibble(w[i], w[i + 1], w[i + 2], w[i + 3]) + 16 * Nibble(w[i + 4], w[i + 5], w[i + 6], w[i + 7])
  }

  /** All rows of the table are alike but for their first entries. */
  const ROW: seq<int> := [0, 0, 1, 0, 2, 0, 1, 0, 3, 0, 1, 0, 2, 0, 1, 0]
  const FIRST: seq<int> := [0, 4, 5, 4, 6, 4, 5, 4, 7, 4, 5, 4, 6, 4, 5, 4]

  /** __lowest_bit_bitmap. */
  function LowestBit(b: int): (n: int)
    requires 0 <= b < 256
  {
    if b % 16 == 0 then FIRST[b / 16] else ROW[b % 16]
  }

  /** __rt_ffs. */
  function Ffs(w: Word): (n: int) {
    if w == seq(32, i => false) then 0
    else if Byte(w, 0) != 0 then LowestBit(Byte(w, 0)) + 1
    else if Byte(w, 1) != 0 then LowestBit(Byte(w, 1)) + 9
    else if Byte(w, 2) != 0 then LowestBit(Byte(w, 2)) + 17
    else LowestBit(Byte(w, 3)) + 25
  }

  /** The first of four bits that is set. */
  function FirstOf(a: bool, b: bool, c: bool, d: bool): (n: int) {
    if a then 0 else if b then 1 else if c then 2 else 3
  }

  lemma NibbleRow(a: bool, b: bool, c: bool, d: bool)
    ensures Nibble(a, b, c, d) == 0 <==> !a && !b && !c && !d
    ensures Nibble(a, b, c, d) != 0 ==> ROW[Nibble(a, b, c, d)] == FirstOf(a, b, c, d)
    ensures Nibble(a, b, c, d) != 0 ==> FIRST[Nibble(a, b, c, d)] == 4 + FirstOf(a, b, c, d)
  {
    if a { if b { if c { } } else { if c { } } } else { if b { if c { } } else { if c { } } }
  }

  lemma Halves(lo: int, hi: int)
    requires 0 <= lo < 16 && 0 <= hi < 16
    ensures (lo + 16 * hi) % 16 == lo && (lo + 16 * hi) / 16 == hi
    ensures LowestBit(lo + 16 * hi) == if lo == 0 then FIRST[hi] else ROW[lo]
  {
  }

  lemma ByteLowest(w: Word, k: int)
    requires 0 <= k < 4
    ensures Byte(w, k) == 0 <==> forall j :: 8 * k <= j < 8 * k + 8 ==> !w[j]
    ensures Byte(w, k) != 0 ==> var n := 8 * k + LowestBit(Byte(w, k));
      8 * k <= n < 8 * k + 8 && w[n] && forall j :: 8 * k <= j < n ==> !w[j]
  {
    hide Nibble, LowestBit;
    var i := 8 * k;
    var lo, hi := Nibble(w[i], w[i + 1], w[i + 2], w[i + 3]), Nibble(w[i + 4], w[i + 5], w[i + 6], w[i + 7]);
    NibbleRow(w[i], w[i + 1], w[i + 2], w[i + 3]);
    NibbleRow(w[i + 4], w[i + 5], w[i + 6], w[i + 7]);
    Halves(lo, hi);
  }

  ghost predicate NoneBelow(w: Word, n: int)
    requires n <= 32
  {
    forall j :: 0 <= j < n ==> !w[j]
  }

  /** The result is zero for an empty word, and otherwise one more than the lowest set bit. */
  lemma FfsIsLowest(w: Word)
    ensures Ffs(w) == 0 <==> NoneBelow(w, 32)
    ensures 0 <= Ffs(w) <= 32
    ensures Ffs(w) > 0 ==> w[Ffs(w) - 1] && NoneBelow(w, Ffs(w) - 1)
  {
    hide Byte, LowestBit;
    ByteLowest(w, 0);
    ByteLowest(w, 1);
    ByteLowest(w, 2);
    ByteLowest(w, 3);
    var empty := seq(32, i => false);
    assert forall j :: 0 <= j < 32 ==> !empty[j];
    assert NoneBelow(w, 32) ==> w == empty;
  }
}
