/**
 Cells, little-endian memory and the virtual machine of the finsh shell: one function per
 operation of `finsh_ops.c` and the fetch loop of `finsh_vm.c`.

 A stack cell is the union of a char, a short and a long, so an operation of width `w` rewrites
 only the low `w` bytes of a cell and leaves the others as they were.
 */
module FinshMachine {
  import opened Words

  /** Addressable memory; reading or writing an address outside it is a fault. */
  type Memory = map<int, byte>

  datatype Option<+T> = None | Some(value: T)

  /** FINSH_DATA_TYPE_BYTE, WORD and DWORD. */
  datatype Width = W1 | W2 | W4 {
    function Bytes(): (n: int)
      ensures 1 <= n <= 4
    {
      match this case W1 => 1 case W2 => 2 case W4 => 4
    }
  }

  // ---------------------------------------------------------------- cells

  /** Four bytes, least significant first. */
  datatype Cell = Cell(b0: byte, b1: byte, b2: byte, b3: byte)

  const ZERO_CELL := Cell(0, 0, 0, 0)

  /** `cell` after its union member of width `w` was assigned the low bytes of `v`. */
  function SetLow(w: Width, cell: Cell, v: Cell): (c: Cell) {
    match w
    case W1 => cell.(b0 := v.b0)
    case W2 => cell.(b0 := v.b0, b1 := v.b1)
    case W4 => v
  }

  /** The bytes of `cell` that its union member of width `w` reads, the others zero. */
  function Low(w: Width, cell: Cell): (v: Cell) {
    SetLow(w, ZERO_CELL, cell)
  }

  function FromBytes(b0: int, b1: int, b2: int, b3: int): (x: int) {
    b0 + 0x100 * b1 + 0x1_0000 * b2 + 0x100_0000 * b3
  }

  function ToWord(c: Cell): (x: word) {
    FromBytes(c.b0, c.b1, c.b2, c.b3)
  }

  /** The two's complement cell of an integer, cut to 32 bits. */
  function FromInt(v: int): (c: Cell) {
    Cell(v % 0x100, v / 0x100 % 0x100, v / 0x100 / 0x100 % 0x100, v / 0x100 / 0x100 / 0x100 % 0x100)
  }

  /** A 32 bit number is recovered from its bytes. */
  lemma ToWordOfFromInt(x: word)
    ensures ToWord(FromInt(x)) == x
  {
    var q := x / 0x100;
    var p := q / 0x100;
    var r := p / 0x100;
    assert r < 0x100;
  }

  // ----------------------------------------------------------------- memory

  predicate Mapped(m: Memory, a: int, w: Width) {
    forall i :: a <= i < a + w.Bytes() ==> i in m
  }

  /** `*(char *)a`, `*(short *)a` or `*(long *)a`. */
  function Load(m: Memory, a: int, w: Width): (r: Option<Cell>) {
    if !Mapped(m, a, w) then None
    else match w
      case W1 => Some(Cell(m[a], 0, 0, 0))
      case W2 => Some(Cell(m[a], m[a + 1], 0, 0))
      case W4 => Some(Cell(m[a], m[a + 1], m[a + 2], m[a + 3]))
  }

  function Store(m: Memory, a: int, w: Width, v: Cell): (r: Option<Memory>) {
    if !Mapped(m, a, w) then None
    else match w
      case W1 => Some(m[a := v.b0])
      case W2 => Some(m[a := v.b0][a + 1 := v.b1])
      case W4 => Some(m[a := v.b0][a + 1 := v.b1][a + 2 := v.b2][a + 3 := v.b3])
  }

  /** Loading what was stored at the same width returns its low bytes; no other byte changes. */
  lemma LoadOfStore(m: Memory, a: int, w: Width, v: Cell)
    requires Mapped(m, a, w)
    ensures Store(m, a, w, v).Some?
    ensures Load(Store(m, a, w, v).value, a, w) == Some(Low(w, v))
    ensures Store(m, a, w, v).value.Keys == m.Keys
    ensures forall i :: i in m && !(a <= i < a + w.Bytes()) ==> Store(m, a, w, v).value[i] == m[i]
  {
    assert a in m;
    assert w != W1 ==> a + 1 in m;
    assert w == W4 ==> a + 2 in m && a + 3 in m;
  }

  lemma LoadsOfMapped(m: Memory, a: int, w: Width)
    requires Mapped(m, a, W4)
    ensures Load(m, a, w).Some? && Mapped(m, a, w)
  {
  }

  // ------------------------------------------------------------- arithmetic

  datatype BinOp = Add | Sub | Div | Mod | Mul | And | Or | Xor | Shl | Shr

  /** The C value of a union member: short and long are signed, char is as the ABI says. */
  function Value(w: Width, c: Cell, charSigned: bool): (x: int) {
    match w
    case W1 => if charSigned && c.b0 >= 0x80 then c.b0 - 0x100 else c.b0
    case W2 => var u := FromBytes(c.b0, c.b1, 0, 0); if u >= 0x8000 then u - 0x1_0000 else u
    case W4 => var u := ToWord(c); if u >= 0x8000_0000 then u - 0x1_0000_0000 else u
  }

  /** C division truncates toward zero. */
  function TruncDiv(a: int, b: int): (q: int)
    requires b != 0
  {
    if a >= 0 then a / b else -(-a / b)
  }

  function Pow2(n: nat): (p: int)
    ensures p >= 1
  {
    if n == 0 then 1 else 2 * Pow2(n - 1)
  }

  /**
   The C operator on promoted operands. None where C leaves the result undefined: a zero divisor,
   the overflowing quotient, a shift count outside 0..31.
   */
  function IntOp(op: BinOp, a: int, b: int): (r: Option<int>)
    requires !op.And? && !op.Or? && !op.Xor?
  {
    match op
    case Add => Some(a + b)
    case Sub => Some(a - b)
    case Mul => Some(a * b)
    case Div => if b == 0 || (a == -0x8000_0000 && b == -1) then None else Some(TruncDiv(a, b))
    case Mod => if b == 0 || (a == -0x8000_0000 && b == -1) then None else Some(a - b * TruncDiv(a, b))
    case Shl => if 0 <= b < 32 then Some(a * Pow2(b)) else None
    case Shr => if 0 <= b < 32 then Some(a / Pow2(b)) else None
  }

  /** The operator on one bit. */
  predicate OnBits(op: BinOp, a: bool, b: bool) {
    match op
    case And => a && b
    case Or => a || b
    case _ => a != b
  }

  /** The operator on the lowest `n` bits, one by one. */
  function BitwiseOp(op: BinOp, x: nat, y: nat, n: nat): (r: nat)
    ensures r < Pow2(n)
  {
    if n == 0 then 0
    else (if OnBits(op, x % 2 == 1, y % 2 == 1) then 1 else 0) + 2 * BitwiseOp(op, x / 2, y / 2, n - 1)
  }

  lemma BytePower()
    ensures Pow2(8) == 0x100 && Pow2(16) == 0x1_0000 && Pow2(32) == 0x1_0000_0000
  {
    assert Pow2(4) == 16;
    assert Pow2(8) == 0x100;
    assert Pow2(12) == 0x1000;
    assert Pow2(16) == 0x1_0000;
    assert Pow2(20) == 0x10_0000;
    assert Pow2(24) == 0x100_0000;
    assert Pow2(28) == 0x1000_0000;
  }

  function BitOp8(op: BinOp, x: byte, y: byte): (r: byte) {
    BytePower();
    BitwiseOp(op, x, y, 8)
  }

  function BitOp(op: BinOp, x: Cell, y: Cell): (c: Cell) {
    Cell(BitOp8(op, x.b0, y.b0), BitOp8(op, x.b1, y.b1), BitOp8(op, x.b2, y.b2), BitOp8(op, x.b3, y.b3))
  }

  /** The operator on the union members of width `w`; overflow wraps when the result is stored. */
  function Arith(op: BinOp, w: Width, x: Cell, y: Cell, charSigned: bool): (r: Option<Cell>) {
    if op.And? || op.Or? || op.Xor? then Some(BitOp(op, Low(w, x), Low(w, y)))
    else match IntOp(op, Value(w, x, charSigned), Value(w, y, charSigned))
      case None => None
      case Some(v) => Some(FromInt(v))
  }

  /** `~` on the member of width `w`. */
  function Complement(w: Width, x: Cell, charSigned: bool): (r: Cell) {
    FromInt(-1 - Value(w, x, charSigned))
  }

  /** The integers a union member of width `w` can hold. */
  predicate Fits(w: Width, v: int, charSigned: bool) {
    match w
    case W1 => if charSigned then -0x80 <= v < 0x80 else 0 <= v < 0x100
    case W2 => -0x8000 <= v < 0x8000
    case W4 => -0x8000_0000 <= v < 0x8000_0000
  }

  /** An integer that fits a width is what that width reads back. */
  lemma ValueOfFromInt(w: Width, v: int, charSigned: bool)
    requires Fits(w, v, charSigned)
    ensures Value(w, FromInt(v), charSigned) == v
  {
    match w {
      case W1 => TopByte(v);
      case W2 =>
        var q := v / 0x100;
        assert v == v % 0x100 + 0x100 * q;
        TopByte(q);
      case W4 => WordOfFromInt(v);
    }
  }

  lemma TopByte(t: int)
    requires -0x80 <= t < 0x100
    ensures t % 0x100 == if t < 0 then t + 0x100 else t
  {
  }

  lemma WordOfFromInt(v: int)
    requires -0x8000_0000 <= v < 0x8000_0000
    ensures ToWord(FromInt(v)) == if v < 0 then v + 0x1_0000_0000 else v
  {
    var q := v / 0x100;
    var r := q / 0x100;
    var t := r / 0x100;
    var a, b, c := v % 0x100, q % 0x100, r % 0x100;
    assert v == a + 0x100 * q && q == b + 0x100 * r && r == c + 0x100 * t;
    TopByte(t);
    assert ToWord(FromInt(v)) == FromBytes(a, b, c, t % 0x100);
  }

  /** Where the mathematical result fits, an operator computes it: no operand order or sign is lost. */
  lemma ArithIsExact(op: BinOp, w: Width, x: Cell, y: Cell, charSigned: bool)
    requires !op.And? && !op.Or? && !op.Xor?
    ensures var r := IntOp(op, Value(w, x, charSigned), Value(w, y, charSigned));
      && (r.None? <==> Arith(op, w, x, y, charSigned).None?)
      && (r.Some? && Fits(w, r.value, charSigned) ==>
            Value(w, Arith(op, w, x, y, charSigned).value, charSigned) == r.value)
  {
    hide IntOp, Value, FromInt;
    var r := IntOp(op, Value(w, x, charSigned), Value(w, y, charSigned));
    if r.Some? && Fits(w, r.value, charSigned) {
      ValueOfFromInt(w, r.value, charSigned);
    }
  }

  // ------------------------------------------------------------------ bits

  /** Bit `k` of an integer in two's complement. */
  predicate Bit(x: int, k: nat) { x / Pow2(k) % 2 == 1 }

  lemma HalfQuotient(x: int, p: int)
    requires p >= 1
    ensures x / (2 * p) == x / 2 / p
  {
    var q, r := x / 2 / p, x / 2 % p;
    assert x / 2 == p * q + r;
    assert x == 2 * (p * q + r) + x % 2;
    QuotientIs(x, 2 * p, q, 2 * r + x % 2);
  }

  lemma QuotientIs(x: int, d: int, q: int, r: int)
    requires x == d * q + r && 0 <= r < d
    ensures x / d == q
  {
    var e := x / d - q;
    assert x == d * (x / d) + x % d;
    assert d * (x / d) == d * q + d * e;
    assert -d < d * e < d;
    Stretched(d, e);
  }

  lemma Stretched(d: int, e: int)
    requires d > 0
    ensures (e >= 1 ==> d * e >= d) && (e <= -1 ==> d * e <= -d)
  {
    assert d * e - d == d * (e - 1);
    assert d * e + d == d * (e + 1);
  }

  lemma HalfOfSum(x: int, z: int)
    ensures (x + 2 * z) / 2 == x / 2 + z && (x + 2 * z) % 2 == x % 2
  {
  }

  lemma PowerTimes(n: nat, q: int)
    requires n > 0
    ensures Pow2(n) * q == 2 * (Pow2(n - 1) * q)
  {
  }

  lemma BitHalf(x: int, k: nat)
    requires k > 0
    ensures Bit(x, k) <==> Bit(x / 2, k - 1)
  {
    HalfQuotient(x, Pow2(k - 1));
  }

  lemma BitZero(x: int)
    ensures Bit(x, 0) <==> x % 2 == 1
  {
  }

  lemma {:induction false} BitwiseBit(op: BinOp, x: nat, y: nat, n: nat, k: nat)
    requires k < n
    ensures Bit(BitwiseOp(op, x, y, n), k) <==> OnBits(op, Bit(x, k), Bit(y, k))
  {
    hide Bit;
    var r := BitwiseOp(op, x, y, n);
    BitZero(x);
    BitZero(y);
    BitZero(r);
    assert r / 2 == BitwiseOp(op, x / 2, y / 2, n - 1);
    if k > 0 {
      BitwiseBit(op, x / 2, y / 2, n - 1, k - 1);
      BitHalf(x, k);
      BitHalf(y, k);
      BitHalf(r, k);
    }
  }

  /** What is added above bit `k` does not change it. */
  lemma {:induction false} BitBelow(x: int, q: int, n: nat, k: nat)
    requires k < n
    ensures Bit(x + Pow2(n) * q, k) <==> Bit(x, k)
    decreases n
  {
    hide Bit;
    var z := Pow2(n - 1) * q;
    PowerTimes(n, q);
    HalfOfSum(x, z);
    if k == 0 {
      BitZero(x);
      BitZero(x + 2 * z);
    } else {
      BitBelow(x / 2, q, n - 1, k - 1);
      BitHalf(x, k);
      BitHalf(x + 2 * z, k);
    }
  }

  lemma {:induction false} BitNot(x: int, k: nat)
    ensures Bit(-1 - x, k) <==> !Bit(x, k)
    decreases k
  {
    hide Bit;
    if k == 0 {
      BitZero(x);
      BitZero(-1 - x);
    } else {
      assert (-1 - x) / 2 == -1 - x / 2;
      BitNot(x / 2, k - 1);
      BitHalf(x, k);
      BitHalf(-1 - x, k);
    }
  }

  /** Bit `k` moves up by `n`; zeros come in below. */
  lemma {:induction false} BitUp(x: int, n: nat, k: nat)
    ensures Bit(x * Pow2(n), k) <==> k >= n && Bit(x, k - n)
  {
    hide Bit;
    if n > 0 {
      var y := x * Pow2(n - 1);
      assert x * Pow2(n) == 2 * y;
      if k == 0 {
        BitZero(2 * y);
      } else {
        BitHalf(2 * y, k);
        BitUp(x, n - 1, k - 1);
      }
    }
  }

  /** Bit `k` comes from `n` bits above. */
  lemma {:induction false} BitDown(x: int, n: nat, k: nat)
    ensures Bit(x / Pow2(n), k) <==> Bit(x, k + n)
    decreases n
  {
    hide Bit;
    if n > 0 {
      HalfQuotient(x, Pow2(n - 1));
      BitDown(x / 2, n - 1, k);
      BitHalf(x, k + n);
    }
  }

  /** The bits of a cell are those of its bytes. */
  lemma CellBit(c: Cell, k: nat)
    requires k < 32
    ensures Bit(ToWord(c), k) <==>
      if k < 8 then Bit(c.b0, k) else if k < 16 then Bit(c.b1, k - 8)
      else if k < 24 then Bit(c.b2, k - 16) else Bit(c.b3, k - 24)
  {
    hide Bit;
    BytePower();
    var w1, w2 := c.b1 + 0x100 * c.b2 + 0x1_0000 * c.b3, c.b2 + 0x100 * c.b3;
    Upper(c.b0, w1, ToWord(c), k);
    if k >= 8 { Upper(c.b1, w2, w1, k - 8); }
    if k >= 16 { Upper(c.b2, c.b3, w2, k - 16); }
  }

  lemma Upper(b: byte, rest: int, x: int, k: nat)
    requires x == b + 0x100 * rest
    ensures Bit(x, k) <==> if k < 8 then Bit(b, k) else Bit(rest, k - 8)
  {
    hide Bit;
    BytePower();
    if k < 8 {
      BitBelow(b, rest, 8, k);
    } else {
      QuotientIs(x, 0x100, rest, b);
      BitDown(x, 8, k - 8);
    }
  }

  /** A union member has the bits of the cell it lies in. */
  lemma ValueBit(w: Width, c: Cell, charSigned: bool, k: nat)
    requires k < 8 * w.Bytes()
    ensures Bit(Value(w, c, charSigned), k) <==> Bit(ToWord(c), k)
  {
    hide Bit;
    BytePower();
    var v := Value(w, c, charSigned);
    match w {
      case W1 =>
        var sign := if v == c.b0 then 0 else 1;
        BitBelow(v, c.b1 + 0x100 * c.b2 + 0x1_0000 * c.b3 + sign, 8, k);
      case W2 =>
        var sign := if v == FromBytes(c.b0, c.b1, 0, 0) then 0 else 1;
        BitBelow(v, c.b2 + 0x100 * c.b3 + sign, 16, k);
      case W4 =>
        var sign := if v == ToWord(c) then 0 else 1;
        BitBelow(v, sign, 32, k);
    }
  }

  /** The two's complement cell of an integer has its low bits. */
  lemma FromIntBit(v: int, k: nat)
    requires k < 32
    ensures Bit(ToWord(FromInt(v)), k) <==> Bit(v, k)
  {
    hide Bit, ToWord;
    var q := v / 0x100;
    var p := q / 0x100;
    var r := p / 0x100;
    CellBit(FromInt(v), k);
    Upper(v % 0x100, q, v, k);
    if k >= 8 { Upper(q % 0x100, p, q, k - 8); }
    if k >= 16 { Upper(p % 0x100, r, p, k - 16); }
    if k >= 24 { Upper(r % 0x100, r / 0x100, r, k - 24); }
  }

  /** A stored value lies in memory with its least significant byte first. */
  lemma StoredBits(m: Memory, a: int, w: Width, v: Cell, i: nat, j: nat)
    requires Mapped(m, a, w) && i < w.Bytes() && j < 8
    ensures var r := Store(m, a, w, v);
      r.Some? && a + i in r.value && (Bit(r.value[a + i], j) <==> Bit(ToWord(v), 8 * i + j))
  {
    hide Bit, ToWord;
    assert a + i in m;
    CellBit(v, 8 * i + j);
  }

  /**
   Bit by bit, at every width and with whatever overflow: sums, differences and products have the low bits of the
   mathematical result, shifts move bits, and the bitwise operators work on each bit alone.
   */
  lemma ArithBits(op: BinOp, w: Width, x: Cell, y: Cell, charSigned: bool, k: nat)
    requires k < 8 * w.Bytes() && !op.Div? && !op.Mod?
    ensures var a, b, r := Value(w, x, charSigned), Value(w, y, charSigned), Arith(op, w, x, y, charSigned);
      && (r.Some? <==> (op.Shl? || op.Shr? ==> 0 <= b < 32))
      && (r.Some? ==>
            var bit := Bit(ToWord(r.value), k);
            && (op.Add? ==> (bit <==> Bit(a + b, k)))
            && (op.Sub? ==> (bit <==> Bit(a - b, k)))
            && (op.Mul? ==> (bit <==> Bit(a * b, k)))
            && (op.And? ==> (bit <==> Bit(ToWord(x), k) && Bit(ToWord(y), k)))
            && (op.Or? ==> (bit <==> Bit(ToWord(x), k) || Bit(ToWord(y), k)))
            && (op.Xor? ==> (bit <==> Bit(ToWord(x), k) != Bit(ToWord(y), k)))
            && (op.Shl? ==> (bit <==> k >= b && Bit(a, k - b)))
            && (op.Shr? ==> (bit <==> Bit(a, k + b))))
  {
    hide Bit, Value;
    var a, b, r := Value(w, x, charSigned), Value(w, y, charSigned), Arith(op, w, x, y, charSigned);
    if op.And? || op.Or? || op.Xor? {
      BitwiseCell(op, w, x, y, k);
    } else if r.Some? {
      FromIntBit(IntOp(op, a, b).value, k);
      if op.Shl? { BitUp(a, b, k); }
      if op.Shr? { BitDown(a, b, k); }
    }
  }

  lemma BitwiseCell(op: BinOp, w: Width, x: Cell, y: Cell, k: nat)
    requires k < 8 * w.Bytes() && (op.And? || op.Or? || op.Xor?)
    ensures Bit(ToWord(BitOp(op, Low(w, x), Low(w, y))), k) <==> OnBits(op, Bit(ToWord(x), k), Bit(ToWord(y), k))
  {
    hide Bit, BitwiseOp, ToWord;
    var c, d := Low(w, x), Low(w, y);
    CellBit(BitOp(op, c, d), k);
    CellBit(x, k);
    CellBit(y, k);
    if k < 8 {
      BitwiseBit(op, c.b0, d.b0, 8, k);
    } else if k < 16 {
      BitwiseBit(op, c.b1, d.b1, 8, k - 8);
    } else if k < 24 {
      BitwiseBit(op, c.b2, d.b2, 8, k - 16);
    } else {
      BitwiseBit(op, c.b3, d.b3, 8, k - 24);
    }
  }

  /** The complement flips every bit of the width. */
  lemma ComplementBits(w: Width, x: Cell, charSigned: bool, k: nat)
    requires k < 8 * w.Bytes()
    ensures Bit(ToWord(Complement(w, x, charSigned)), k) <==> !Bit(ToWord(x), k)
  {
    hide Bit, Value, FromInt, ToWord;
    var v := Value(w, x, charSigned);
    FromIntBit(-1 - v, k);
    BitNot(v, k);
    ValueBit(w, x, charSigned, k);
  }

  /** Quotient and remainder satisfy the C law: the remainder has the sign of the dividend. */
  lemma DivModLaw(a: int, b: int)
    requires b != 0 && !(a == -0x8000_0000 && b == -1)
    ensures var q, r := IntOp(Div, a, b), IntOp(Mod, a, b);
      && q.Some? && r.Some? && a == b * q.value + r.value
      && (if b < 0 then b < r.value < -b else -b < r.value < b)
      && (a >= 0 ==> r.value >= 0) && (a <= 0 ==> r.value <= 0)
  {
    var c := if a >= 0 then a else -a;
    var q, r := c / b, c % b;
    assert c == b * q + r;
    if a < 0 {
      NegateProduct(b, q);
      assert TruncDiv(a, b) == -q;
    } else {
      assert TruncDiv(a, b) == q;
    }
  }

  lemma NegateProduct(b: int, q: int)
    ensures b * -q == -(b * q)
  {
  }

  /** An operator of width `w` only looks at the low `w` bytes of its operands. */
  lemma ArithOfLow(op: BinOp, w: Width, x: Cell, y: Cell, charSigned: bool)
    ensures Arith(op, w, Low(w, x), Low(w, y), charSigned) == Arith(op, w, x, y, charSigned)
    ensures Complement(w, Low(w, x), charSigned) == Complement(w, x, charSigned)
  {
    ValueOfLow(w, x, charSigned);
    ValueOfLow(w, y, charSigned);
    hide IntOp, BitOp, FromInt, Value;
    assert Low(w, Low(w, x)) == Low(w, x) && Low(w, Low(w, y)) == Low(w, y);
  }

  lemma ValueOfLow(w: Width, x: Cell, charSigned: bool)
    ensures Value(w, Low(w, x), charSigned) == Value(w, x, charSigned)
  {
  }

  // ---------------------------------------------------------------- opcodes

  function WidthOffset(w: Width): (n: byte) { match w case W1 => 0 case W2 => 1 case W4 => 2 }

  /** FINSH_OP_ADD_BYTE, FINSH_OP_SUB_BYTE, .. FINSH_OP_SHR_BYTE. */
  function OpBase(op: BinOp): (n: byte)
    ensures 1 <= n <= 0x1F
  {
    match op
    case Add => 0x01 case Sub => 0x04 case Div => 0x07 case Mod => 0x0A case Mul => 0x0D
    case And => 0x10 case Or => 0x13 case Xor => 0x16 case Shl => 0x1C case Shr => 0x1F
  }

  function OpBin(op: BinOp, w: Width): (n: byte) { OpBase(op) + WidthOffset(w) }
  function OpNot(w: Width): (n: byte) { 0x19 + WidthOffset(w) }
  function OpLd(w: Width): (n: byte) { 0x22 + WidthOffset(w) }
  function OpLdValue(w: Width): (n: byte) { 0x25 + WidthOffset(w) }
  function OpSt(w: Width): (n: byte) { 0x28 + WidthOffset(w) }
  const OP_POP: byte := 0x2B
  function OpLdValueStack(w: Width): (n: byte) { 0x2D + WidthOffset(w) }

  /** The width encoded in an opcode whose family starts at `base`. */
  function WidthFrom(opcode: byte, base: byte): (w: Width)
    requires base <= opcode
  {
    if opcode == base then W1 else if opcode == base + 1 then W2 else W4
  }

  // --------------------------------------------------------------- machine

  /** The stack array, the number of cells in use, and memory. */
  datatype State = State(stack: seq<Cell>, sp: int, mem: Memory)

  datatype Next = Fault | Next(pc: int, st: State)
  datatype Outcome = Crash | Halt(st: State)

  /** Assigning the member of width `w` of cell `i`. */
  function Put(st: State, i: int, w: Width, v: Cell): (r: State)
    requires 0 <= i < |st.stack|
  {
    st.(stack := st.stack[i := SetLow(w, st.stack[i], v)])
  }

  predicate Has(st: State, n: int) { n <= st.sp <= |st.stack| }

  function Push(pc: int, st: State, w: Width, v: Cell): (r: Next) {
    if 0 <= st.sp < |st.stack| then Next(pc, Put(st, st.sp, w, v).(sp := st.sp + 1)) else Fault
  }

  /** OP_BIN_BYTE, OP_BIN_WORD and OP_BIN_DWORD. */
  function StepBin(op: BinOp, w: Width, pc: int, st: State, charSigned: bool): (r: Next) {
    if !Has(st, 2) then Fault
    else match Arith(op, w, st.stack[st.sp - 2], st.stack[st.sp - 1], charSigned)
      case None => Fault
      case Some(v) => Next(pc, Put(st, st.sp - 2, w, v).(sp := st.sp - 1))
  }

  function StepNot(w: Width, pc: int, st: State, charSigned: bool): (r: Next) {
    if !Has(st, 1) then Fault
    else Next(pc, Put(st, st.sp - 1, w, Complement(w, st.stack[st.sp - 1], charSigned)))
  }

  function StepLd(w: Width, text: seq<byte>, pc: int, st: State): (r: Next)
    requires 0 <= pc
  {
    if pc + w.Bytes() > |text| then Fault
    else match w
      case W1 => Push(pc + 1, st, W1, Cell(text[pc], 0, 0, 0))
      case W2 => Push(pc + 2, st, W2, Cell(text[pc], text[pc + 1], 0, 0))
      case W4 => Push(pc + 4, st, W4, Cell(text[pc], text[pc + 1], text[pc + 2], text[pc + 3]))
  }

  /** FINSH_GET32 at position `p`. */
  function Get32(text: seq<byte>, p: int): (x: word)
    requires 0 <= p && p + 4 <= |text|
  {
    FromBytes(text[p], text[p + 1], text[p + 2], text[p + 3])
  }

  function StepLdValue(w: Width, text: seq<byte>, pc: int, st: State): (r: Next)
    requires 0 <= pc
  {
    if pc + 4 > |text| then Fault
    else match Load(st.mem, Get32(text, pc), w)
      case None => Fault
      case Some(v) => Push(pc + 4, st, w, v)
  }

  function StepLdValueStack(w: Width, pc: int, st: State): (r: Next) {
    if !Has(st, 1) then Fault
    else match Load(st.mem, ToWord(st.stack[st.sp - 1]), w)
      case None => Fault
      case Some(v) => Next(pc, Put(st, st.sp - 1, w, v))
  }

  function StepSt(w: Width, pc: int, st: State): (r: Next) {
    if !Has(st, 2) then Fault
    else match Store(st.mem, ToWord(st.stack[st.sp - 2]), w, st.stack[st.sp - 1])
      case None => Fault
      case Some(m) => Next(pc, st.(mem := m, sp := st.sp - 1))
  }

  function StepPop(pc: int, st: State): (r: Next) {
    if Has(st, 1) then Next(pc, st.(sp := st.sp - 1)) else Fault
  }

  /** One turn of the fetch loop: fetch the opcode, step over it, and run its operation. */
  function Step(text: seq<byte>, pc: int, st: State, charSigned: bool): (r: Next)
    requires 0 <= pc < |text|
    ensures r.Next? ==> pc < r.pc
  {
    var op, p := text[pc], pc + 1;
    if op == 0x00 then Next(p, st)
    else if op <= 0x03 then StepBin(Add, WidthFrom(op, 0x01), p, st, charSigned)
    else if op <= 0x06 then StepBin(Sub, WidthFrom(op, 0x04), p, st, charSigned)
    else if op <= 0x09 then StepBin(Div, WidthFrom(op, 0x07), p, st, charSigned)
    else if op <= 0x0C then StepBin(Mod, WidthFrom(op, 0x0A), p, st, charSigned)
    else if op <= 0x0F then StepBin(Mul, WidthFrom(op, 0x0D), p, st, charSigned)
    else if op <= 0x12 then StepBin(And, WidthFrom(op, 0x10), p, st, charSigned)
    else if op <= 0x15 then StepBin(Or, WidthFrom(op, 0x13), p, st, charSigned)
    else if op <= 0x18 then StepBin(Xor, WidthFrom(op, 0x16), p, st, charSigned)
    else if op <= 0x1B then StepNot(WidthFrom(op, 0x19), p, st, charSigned)
    else if op <= 0x1E then StepBin(Shl, WidthFrom(op, 0x1C), p, st, charSigned)
    else if op <= 0x21 then StepBin(Shr, WidthFrom(op, 0x1F), p, st, charSigned)
    else if op <= 0x24 then StepLd(WidthFrom(op, 0x22), text, p, st)
    else if op <= 0x27 then StepLdValue(WidthFrom(op, 0x25), text, p, st)
    else if op <= 0x2A then StepSt(WidthFrom(op, 0x28), p, st)
    else if op == OP_POP then StepPop(p, st)
    else if 0x2D <= op <= 0x2F then StepLdValueStack(WidthFrom(op, 0x2D), p, st)
    else Fault // system calls are foreign code, and the table ends at 0x2F
  }

  /** The fetch loop from `pc` to the end of the text segment. */
  function Exec(text: seq<byte>, pc: int, st: State, charSigned: bool): (r: Outcome)
    requires 0 <= pc
    decreases |text| - pc
  {
    if pc >= |text| then Halt(st)
    else match Step(text, pc, st, charSigned)
      case Fault => Crash
      case Next(p, s) => Exec(text, p, s, charSigned)
  }
}
