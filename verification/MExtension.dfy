/** Multiplication and division of the RISC-V M extension (sections 7.1 and 7.2 of the RISC-V
    Unprivileged ISA, version 20191213): what the circuits have to compute. */
module MExtension {
  import opened Words

  datatype Op = MUL | MULH | MULHSU | MULHU | DIV | DIVU | REM | REMU {
    predicate IsDivision() { DIV? || DIVU? || REM? || REMU? }
    /** rs1 is read as a signed number. */
    predicate SignedLeft() { !MULHU? && !DIVU? && !REMU? }
    /** rs2 is read as a signed number. */
    predicate SignedRight() { SignedLeft() && !MULHSU? }
    /** rd receives the first of the two result words: the low product or the quotient. */
    predicate FirstWord() { MUL? || DIV? || DIVU? }
  }

  /** The code of an instruction in its bits 12 to 14. */
  function Funct3(op: Op): (k: nat)
    ensures k < 8
  {
    match op
    case MUL => 0
    case MULH => 1
    case MULHSU => 2
    case MULHU => 3
    case DIV => 4
    case DIVU => 5
    case REM => 6
    case REMU => 7
  }

  function Operand(x: u32, signed: bool): int {
    if signed then Signed(x) else x
  }

  function Abs(x: int): int { if x < 0 then -x else x }

  /** Division rounded towards zero, and its remainder with the sign of the dividend. */
  function Quotient(a: int, b: int): int
    requires b != 0
  {
    var q := Abs(a) / Abs(b);
    if (a < 0) == (b < 0) then q else -q
  }

  function Remainder(a: int, b: int): int
    requires b != 0
  {
    var r := Abs(a) % Abs(b);
    if a < 0 then -r else r
  }

  /** The two words an instruction produces: low and high product, or quotient and remainder.
      Division by zero gives all ones and the dividend; the overflowing signed division wraps
      back to its dividend. */
  function ResultWords(op: Op, x: u32, y: u32): (u32, u32) {
    var a, b := Operand(x, op.SignedLeft()), Operand(y, op.SignedRight());
    if !op.IsDivision() then (Wrap32(a * b), Wrap32(a * b / B32))
    else if b == 0 then (B32 - 1, x)
    else (Wrap32(Quotient(a, b)), Wrap32(Remainder(a, b)))
  }

  /** The value of rd. */
  function Result(op: Op, x: u32, y: u32): u32 {
    var words := ResultWords(op, x, y);
    if op.FirstWord() then words.0 else words.1
  }

  ghost predicate IsTruncatedDivision(a: int, b: int, q: int, r: int) {
    a == b * q + r && Abs(r) < Abs(b) && (r == 0 || (r < 0) == (a < 0))
  }

  lemma TruncatedDivisionExists(a: int, b: int)
    requires b != 0
    ensures IsTruncatedDivision(a, b, Quotient(a, b), Remainder(a, b))
  {
    var m, n := Abs(a), Abs(b);
    SignedDivision(a, b, m / n, m % n);
  }

  lemma SignedDivision(a: int, b: int, q: int, r: int)
    requires Abs(a) == Abs(b) * q + r
    ensures a == b * (if (a < 0) == (b < 0) then q else -q) + (if a < 0 then -r else r)
  {
  }

  /** Truncated division is unique: the bound and the sign of the remainder pin it down. */
  lemma TruncatedDivisionUnique(a: int, b: int, q: int, r: int)
    requires b != 0 && IsTruncatedDivision(a, b, q, r)
    ensures q == Quotient(a, b) && r == Remainder(a, b)
  {
    var q', r' := Quotient(a, b), Remainder(a, b);
    TruncatedDivisionExists(a, b);
    assert b * (q - q') == r' - r;
    assert -Abs(b) < r' - r < Abs(b);
    SmallMultiple(b, q - q');
  }

  lemma SmallMultiple(b: int, d: int)
    requires b != 0 && -Abs(b) < b * d < Abs(b)
    ensures d == 0
  {
    assert d >= 1 && b > 0 ==> b * d >= b;
    assert d >= 1 && b < 0 ==> b * d <= b;
    assert d <= -1 && b > 0 ==> b * d <= -b;
    assert d <= -1 && b < 0 ==> b * d >= -b;
  }

  /** The low word of a product does not depend on how the operands are read. */
  lemma LowProductIgnoresSigns(x: u32, y: u32)
    ensures Wrap32(x * y) == Wrap32(Signed(x) * Signed(y))
  {
    var s, t := Bit(x >= 0x8000_0000), Bit(y >= 0x8000_0000);
    var a, b := Signed(x), Signed(y);
    assert x == a + B32 * s && y == b + B32 * t;
    assert x * y == a * b + B32 * (a * t + s * y);
    WrapMultiple(a * b, a * t + s * y);
  }

  lemma WrapMultiple(x: int, k: int)
    ensures Wrap32(x + B32 * k) == Wrap32(x)
  {
  }
}
