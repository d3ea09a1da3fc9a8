/**
 * The parts of java.lang the REST layer relies on: Integer.MAX_VALUE,
 * String.valueOf(long), String.compareTo, System.arraycopy, and Throwable
 * with its class and cause.
 */
module JavaLang {
  import opened Wrappers

  /** Integer.MAX_VALUE. */
  const IntegerMaxValue: int := 0x7fff_ffff

  /** True when `n` fits in a Java `int`. */
  predicate IsInt(n: int) {
    -0x8000_0000 <= n <= IntegerMaxValue
  }

  // ---------------------------------------------------------------------------
  // String.valueOf(long): decimal rendering, with its inverse

  function DigitChar(d: nat): char
    requires d < 10
  {
    (48 + d) as char
  }

  predicate IsDigit(c: char) {
    '0' <= c <= '9'
  }

  function DigitValue(c: char): nat
    requires IsDigit(c)
  {
    c as int - 48
  }

  /** Decimal digits of a non-negative number, most significant first, no leading zeros. */
  function Digits(n: nat): (s: string)
    ensures |s| > 0
    ensures forall i | 0 <= i < |s| :: IsDigit(s[i])
    decreases n
  {
    if n < 10 then [DigitChar(n)] else Digits(n / 10) + [DigitChar(n % 10)]
  }

  /** String.valueOf(n): a minus sign for negative numbers, then the digits. */
  function DecimalString(n: int): (s: string)
    ensures |s| > 0 && (s[0] == '-' <==> n < 0)
    ensures forall i | (if n < 0 then 1 else 0) <= i < |s| :: IsDigit(s[i])
  {
    if n < 0 then "-" + Digits(-n) else Digits(n)
  }

  function ParseDigits(s: string): int
    requires forall i | 0 <= i < |s| :: IsDigit(s[i])
  {
    if |s| == 0 then 0 else ParseDigits(s[..|s| - 1]) * 10 + DigitValue(s[|s| - 1])
  }

  /** Long.parseLong restricted to what DecimalString produces. */
  function ParseDecimal(s: string): int
    requires |s| > 0 && (s[0] == '-' || IsDigit(s[0]))
    requires forall i | 0 < i < |s| :: IsDigit(s[i])
  {
    if s[0] == '-' then -ParseDigits(s[1..]) else ParseDigits(s)
  }

  lemma {:induction false} DigitsRoundTrip(n: nat)
    ensures ParseDigits(Digits(n)) == n
    decreases n
  {
    if n >= 10 {
      var s := Digits(n);
      assert s[..|s| - 1] == Digits(n / 10);
      DigitsRoundTrip(n / 10);
    }
  }

  /** String.valueOf(long) loses nothing: the number can be read back from its text. */
  lemma DecimalStringRoundTrip(n: int)
    ensures var s := DecimalString(n);
      |s| > 0 && (s[0] == '-' || IsDigit(s[0])) && (forall i | 0 < i < |s| :: IsDigit(s[i]))
      && ParseDecimal(s) == n
  {
    var s := DecimalString(n);
    if n < 0 {
      assert s[1..] == Digits(-n);
      DigitsRoundTrip(-n);
    } else {
      DigitsRoundTrip(n);
    }
  }

  /** Two different ids never render to the same text. */
  lemma DecimalStringInjective(a: int, b: int)
    ensures DecimalString(a) == DecimalString(b) ==> a == b
  {
    DecimalStringRoundTrip(a);
    DecimalStringRoundTrip(b);
  }

  // ---------------------------------------------------------------------------
  // String.compareTo: lexicographic order on characters, a proper prefix first

  /** a.compareTo(b) < 0 */
  predicate LexLess(a: string, b: string): (r: bool)
    ensures r ==> |b| > 0
  {
    if |a| == 0 then |b| > 0
    else if |b| == 0 then false
    else if a[0] != b[0] then a[0] < b[0]
    else LexLess(a[1..], b[1..])
  }

  /** a.compareTo(b) <= 0 */
  predicate LexLe(a: string, b: string)
  {
    !LexLess(b, a)
  }

  lemma {:induction false} LexLessIrreflexive(a: string)
    ensures !LexLess(a, a)
  {
    if |a| > 0 {
      LexLessIrreflexive(a[1..]);
    }
  }

  lemma {:induction false} LexLessTransitive(a: string, b: string, c: string)
    requires LexLess(a, b) && LexLess(b, c)
    ensures LexLess(a, c)
  {
    if |a| > 0 && a[0] == b[0] && b[0] == c[0] {
      LexLessTransitive(a[1..], b[1..], c[1..]);
    }
  }

  /** compareTo is total: two strings are equal or one of them comes first. */
  lemma {:induction false} LexLessTotal(a: string, b: string)
    ensures a == b || LexLess(a, b) || LexLess(b, a)
  {
    if |a| > 0 && |b| > 0 && a[0] == b[0] {
      LexLessTotal(a[1..], b[1..]);
      if a[1..] == b[1..] {
        assert a == [a[0]] + a[1..] && b == [b[0]] + b[1..];
      }
    }
  }

  lemma LexLessAsymmetric(a: string, b: string)
    requires LexLess(a, b)
    ensures !LexLess(b, a)
  {
    if LexLess(b, a) {
      LexLessTransitive(a, b, a);
      LexLessIrreflexive(a);
    }
  }

  lemma LexLeLessTransitive(a: string, b: string, c: string)
    requires LexLe(a, b) && LexLess(b, c)
    ensures LexLess(a, c)
  {
    LexLessTotal(a, b);
    if a != b {
      LexLessTransitive(a, b, c);
    }
  }

  lemma LexLessLeTransitive(a: string, b: string, c: string)
    requires LexLess(a, b) && LexLe(b, c)
    ensures LexLess(a, c)
  {
    LexLessTotal(b, c);
    if b != c {
      LexLessTransitive(a, b, c);
    }
  }

  lemma LexLeTransitive(a: string, b: string, c: string)
    requires LexLe(a, b) && LexLe(b, c)
    ensures LexLe(a, c)
  {
    if LexLess(c, a) {
      LexLessTotal(a, b);
      if a == b {
        LexLessAsymmetric(c, a);
      } else {
        LexLessTransitive(c, a, b);
      }
    }
  }

  // ---------------------------------------------------------------------------
  // System.arraycopy

  /**
   * Copies `length` elements of `src` from `srcPos` into `dest` from `destPos`,
   * as if through a temporary copy, so `src` and `dest` may be the same array.
   * The JDK throws IndexOutOfBoundsException unless the ranges fit.
   */
  method ArrayCopy<T>(src: array<T>, srcPos: int, dest: array<T>, destPos: int, length: int)
    requires 0 <= srcPos && 0 <= destPos && 0 <= length
    requires srcPos + length <= src.Length && destPos + length <= dest.Length
    modifies dest
    ensures forall m | 0 <= m < dest.Length ::
      dest[m] == if destPos <= m < destPos + length then old(src[srcPos + m - destPos]) else old(dest[m])
  {
    var copied := src[srcPos..srcPos + length];
    var k := 0;
    while k < length
      invariant 0 <= k <= length
      invariant forall m | 0 <= m < dest.Length ::
        dest[m] == if destPos <= m < destPos + k then copied[m - destPos] else old(dest[m])
    {
      dest[destPos + k] := copied[k];
      k := k + 1;
    }
  }

  // ---------------------------------------------------------------------------
  // Throwable

  /** A class of exception: its fully qualified name and those of all its superclasses. */
  datatype ExceptionType = ExceptionType(name: string, superTypes: seq<string>)

  /** `x instanceof C` for an exception whose class is `t`. */
  predicate InstanceOf(t: ExceptionType, className: string)
  {
    className == t.name || className in t.superTypes
  }

  /** java.lang.Throwable: its class, its message and its cause (getCause()). */
  class Throwable {
    const exceptionClass: ExceptionType
    const message: Option<string>
    var cause: Throwable?

    constructor (exceptionClass: ExceptionType, message: Option<string>, cause: Throwable?)
      ensures this.exceptionClass == exceptionClass && this.message == message && this.cause == cause
    {
      this.exceptionClass := exceptionClass;
      this.message := message;
      this.cause := cause;
    }
  }

  /** The unchecked exceptions of the JDK that the modelled code can raise. */
  datatype JavaException =
    | ArrayIndexOutOfBounds(index: int)
    | IllegalArgument(message: string, cause: Throwable)
    | ClassCast(className: string)
}
