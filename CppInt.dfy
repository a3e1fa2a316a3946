/** C++ integer division on `int`: the quotient is truncated toward zero,
    unlike Dafny's `/`, whose remainder is never negative. */
module CppInt {

  function Abs(a: int): (m: int)
    ensures m >= 0 && (m == a || m == -a)
  {
    if a < 0 then -a else a
  }

  /** `a / b` as C++ computes it. The remainder a - q * b has the sign of
      `a` (or is zero) and is smaller than |b| in size. */
  function TruncDiv(a: int, b: int): (q: int)
    requires b != 0
    ensures a >= 0 ==> 0 <= a - q * b < Abs(b)
    ensures a < 0 ==> -Abs(b) < a - q * b <= 0
  {
    if a >= 0 && b > 0 then a / b
    else if a >= 0 then -(a / -b)
    else if b > 0 then -(-a / b)
    else -a / -b
  }

  /** On non-negative operands both divisions agree. */
  lemma TruncDivOfNatural(a: nat, b: nat)
    requires b > 0
    ensures TruncDiv(a, b) == a / b
  {
  }

  /** A small negative coordinate truncates to 0 where Dafny's `/` gives -1:
      -5 / 19 is 0 in C++. */
  lemma NegativeCoordinateTruncatesToZero()
    ensures TruncDiv(-5, 19) == 0 && -5 / 19 == -1
  {
  }
}
