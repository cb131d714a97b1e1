/** 16-bit words read from `char` buffers: the bitwise arithmetic of `readUInt16`
    (src/headers/mail-box.h:243-247), for signed and for unsigned `char`. */
module Words {

  /** The low eight bits of a stored character. */
  function Octet(c: char): (o: int)
    ensures 0 <= o < 256
  {
    c as int % 256
  }

  /** The value a `char` has in an integer expression: sign-extended when `char` is signed. */
  function CharValue(signed: bool, c: char): int {
    if signed && Octet(c) >= 128 then Octet(c) - 256 else Octet(c)
  }

  /** Bitwise or of the low n bits of a and b. */
  function Or(a: nat, b: nat, n: nat): nat
    decreases n, a, b
  {
    if n == 0 then 0
    else (if a % 2 == 1 || b % 2 == 1 then 1 else 0) + 2 * Or(a / 2, b / 2, n - 1)
  }

  function Pow2(n: nat): nat {
    if n == 0 then 1 else 2 * Pow2(n - 1)
  }

  function Hi(v: int): char {
    (v % 0x1_0000 / 256) as char
  }

  function Lo(v: int): char {
    (v % 256) as char
  }

  /** What `readUInt16` makes of the big-endian bytes of a word. */
  function ReadBack(signed: bool, v: int): int {
    if signed && v % 256 >= 128 then 0xFF00 + v % 256 else v % 0x1_0000
  }

  lemma {:induction false} OrZero(h: nat, n: nat)
    requires h < Pow2(n)
    ensures Or(h, 0, n) == h
  {
    if n > 0 {
      OrZero(h / 2, n - 1);
    }
  }

  lemma {:induction false} OrOnes(h: nat, n: nat)
    ensures Pow2(n) >= 1 && Or(h, Pow2(n) - 1, n) == Pow2(n) - 1
  {
    if n > 0 {
      OrOnes(h / 2, n - 1);
      assert (Pow2(n) - 1) / 2 == Pow2(n - 1) - 1;
    }
  }

  /** A zero bit of the left operand lets the right one through. */
  lemma OrShift(h: nat, b: nat, n: nat)
    ensures Or(2 * h, b, n + 1) == b % 2 + 2 * Or(h, b / 2, n)
  {
  }

  /** Taking off low bits in two portions. */
  lemma Portions(b: nat)
    ensures b / 2 / 2 == b / 4 && b % 4 == b % 2 + 2 * (b / 2 % 2)
    ensures b / 4 / 4 == b / 16 && b % 16 == b % 4 + 4 * (b / 4 % 4)
    ensures b / 16 / 16 == b / 256 && b % 256 == b % 16 + 16 * (b / 16 % 16)
  {
  }

  lemma OrShift2(h: nat, b: nat, n: nat)
    ensures Or(4 * h, b, n + 2) == b % 4 + 4 * Or(h, b / 4, n)
  {
    Portions(b);
    OrShift(2 * h, b, n + 1);
    OrShift(h, b / 2, n);
  }

  lemma OrShift4(h: nat, b: nat, n: nat)
    ensures Or(16 * h, b, n + 4) == b % 16 + 16 * Or(h, b / 16, n)
  {
    Portions(b);
    OrShift2(4 * h, b, n + 2);
    OrShift2(h, b / 4, n);
  }

  /** Or with a word whose low byte is zero acts on the high bytes only. */
  lemma OrByte(h: nat, b: nat, n: nat)
    ensures Or(256 * h, b, n + 8) == b % 256 + 256 * Or(h, b / 256, n)
  {
    Portions(b);
    OrShift4(16 * h, b, n + 4);
    OrShift4(h, b / 16, n);
  }

  /** A high byte h and a low byte l, the latter sign-extended or not. */
  lemma OrOfBytes(h: nat, l: nat, extended: bool)
    requires h < 256 && l < 256
    ensures Or(256 * h, if extended then 0xFF00 + l else l, 16) == if extended then 0xFF00 + l else 256 * h + l
  {
    assert Pow2(8) == 256;
    OrZero(h, 8);
    OrOnes(h, 8);
    OrByte(h, if extended then 0xFF00 + l else l, 8);
  }

  /** The two operands of `readUInt16`, kept to 16 bits. */
  lemma Operands(signed: bool, hi: char, lo: char)
    ensures (CharValue(signed, hi) * 256) % 0x1_0000 == 256 * Octet(hi)
    ensures CharValue(signed, lo) % 0x1_0000 == if signed && Octet(lo) >= 128 then 0xFF00 + Octet(lo) else Octet(lo)
  {
    if signed && Octet(hi) >= 128 {
      assert CharValue(signed, hi) * 256 == 256 * Octet(hi) - 0x1_0000;
    }
  }

  /** `(*(p + 1)) | (*p << 8)`, kept to 16 bits; in two's complement the low bits of
      an `or` depend on the low bits of its operands only. The result is the big-endian
      word, unless the low byte counts as negative: its sign then fills the high byte. */
  function ReadWord(signed: bool, hi: char, lo: char): (word: int)
    ensures 0 <= word < 0x1_0000
    ensures word == if signed && Octet(lo) >= 128 then 0xFF00 + Octet(lo) else 256 * Octet(hi) + Octet(lo)
  {
    Operands(signed, hi, lo);
    OrOfBytes(Octet(hi), Octet(lo), signed && Octet(lo) >= 128);
    Or((CharValue(signed, hi) * 256) % 0x1_0000, CharValue(signed, lo) % 0x1_0000, 16)
  }

  lemma RemainderUnique(v: int, q: int, r: int)
    requires v == 256 * q + r && 0 <= r < 256
    ensures v / 256 == q && v % 256 == r
  {
  }

  lemma SplitWord(v: int)
    ensures v % 0x1_0000 == 256 * (v % 0x1_0000 / 256) + v % 256
  {
    var q, u := v / 0x1_0000, v % 0x1_0000;
    var h := u / 256;
    assert v == 0x1_0000 * q + u && u == 256 * h + u % 256;
    RemainderUnique(v, 256 * q + h, u % 256);
  }

  /** The two bytes written for v are read back as `ReadBack`. */
  lemma WordReadBack(signed: bool, v: int)
    ensures ReadWord(signed, Hi(v), Lo(v)) == ReadBack(signed, v)
  {
    SplitWord(v);
    assert Octet(Hi(v)) == v % 0x1_0000 / 256 && Octet(Lo(v)) == v % 256;
  }

  lemma ReadBackFixes(signed: bool, v: int)
    requires 0 <= v < 0x1_0000
    ensures ReadBack(signed, v) == v <==> (!signed || v % 256 < 128 || v >= 0xFF00)
  {
    assert v == 256 * (v / 256) + v % 256;
  }

  /** With an unsigned `char` every id survives; with a signed one exactly the ids whose
      low byte is below 128 or whose high byte is 255. */
  lemma WordSurvives(signed: bool, v: int)
    requires 0 <= v < 0x1_0000
    ensures ReadWord(signed, Hi(v), Lo(v)) == v <==> (!signed || v % 256 < 128 || v >= 0xFF00)
  {
    WordReadBack(signed, v);
    ReadBackFixes(signed, v);
  }
}
