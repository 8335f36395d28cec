/** The integer instructions of Moscow ML (src/runtime/interp.c, src/runtime/mlvalues.h).  An
    integer n is stored as the word 2n + 1.  A word has as many bits as make `c * c` the number of
    non-negative integers, where `c` is the power of two that `ChunkLen` stands for. */
module Arithmetic {
  datatype Outcome = Value(word: int) | Overflow | Div

  /** The range of a C long. */
  predicate InLong(c: nat, n: int) {
    -2 * (c * c) <= n < 2 * (c * c)
  }

  /** The range of integers that can be stored. */
  predicate InRange(c: nat, n: int) {
    -(c * c) <= n < c * c
  }

  /** A result of C arithmetic, which must not overflow. */
  function Long(c: nat, n: int): int
    requires InLong(c, n)
  {
    n
  }

  /** Tagging drops the top bit. */
  function ValLong(c: nat, n: int): (v: int)
    requires c > 0
  {
    Square(c);
    (2 * n + 1 + 2 * (c * c)) % (4 * (c * c)) - 2 * (c * c)
  }

  function LongVal(v: int): int {
    v / 2
  }

  ghost predicate IsInt(c: nat, v: int) {
    v % 2 == 1 && InLong(c, v)
  }

  lemma Square(c: nat)
    ensures c > 0 ==> c * c > 0
  {
  }

  /** Untagging gives the integer back exactly when it is in range. */
  lemma Tagging(c: nat, n: int)
    requires c > 0 && InLong(c, n)
    ensures InRange(c, n) <==> LongVal(ValLong(c, n)) == n
    ensures InRange(c, n) ==> ValLong(c, n) == 2 * n + 1 && IsInt(c, ValLong(c, n))
  {
    var s := c * c;
    Square(c);
    TaggingBy(s, n);
  }

  lemma TaggingBy(s: int, n: int)
    requires s > 0 && -2 * s <= n < 2 * s
    ensures var v := (2 * n + 1 + 2 * s) % (4 * s) - 2 * s;
            (-s <= n < s <==> v / 2 == n) && (-s <= n < s ==> v == 2 * n + 1)
  {
    var t := 2 * n + 1 + 2 * s;
    if n < -s {
      assert t + 4 * s == 2 * n + 1 + 6 * s && 0 <= t + 4 * s < 4 * s;
      Wraps(t, 4 * s, -1);
    } else if n < s {
      Wraps(t, 4 * s, 0);
    } else {
      Wraps(t, 4 * s, 1);
    }
  }

  lemma Wraps(t: int, m: int, k: int)
    requires m > 0 && 0 <= t - k * m < m && -1 <= k <= 1
    ensures t % m == t - k * m
  {
  }

  lemma Untagged(c: nat, v: int)
    requires c > 0 && IsInt(c, v)
    ensures InRange(c, LongVal(v)) && ValLong(c, LongVal(v)) == v
  {
    var s := c * c;
    Square(c);
    Tagging(c, LongVal(v));
  }

  /** The result of an instruction that tags `n` and checks that nothing was lost. */
  function Checked(c: nat, n: int): Outcome
    requires c > 0
  {
    if InRange(c, n) then Value(ValLong(c, n)) else Overflow
  }

  // ----- Adding and negating -----

  method SmlNegInt(c: nat, accu: int) returns (r: Outcome)
    requires c > 1 && IsInt(c, accu)
    ensures r == Checked(c, -LongVal(accu))
  {
    Untagged(c, accu);
    var tmp := Long(c, -LongVal(accu));
    Tagging(c, tmp);
    var tagged := ValLong(c, tmp);
    r := if LongVal(tagged) != tmp then Overflow else Value(tagged);
  }

  method SmlSuccInt(c: nat, accu: int) returns (r: Outcome)
    requires c > 1 && IsInt(c, accu)
    ensures r == Checked(c, LongVal(accu) + 1)
  {
    Untagged(c, accu);
    var tmp := Long(c, LongVal(accu) + 1);
    Tagging(c, tmp);
    var tagged := ValLong(c, tmp);
    r := if LongVal(tagged) != tmp then Overflow else Value(tagged);
  }

  method SmlPredInt(c: nat, accu: int) returns (r: Outcome)
    requires c > 1 && IsInt(c, accu)
    ensures r == Checked(c, LongVal(accu) - 1)
  {
    Untagged(c, accu);
    var tmp := Long(c, LongVal(accu) - 1);
    Tagging(c, tmp);
    var tagged := ValLong(c, tmp);
    r := if LongVal(tagged) != tmp then Overflow else Value(tagged);
  }

  method SmlAddInt(c: nat, top: int, accu: int) returns (r: Outcome)
    requires c > 1 && IsInt(c, top) && IsInt(c, accu)
    ensures r == Checked(c, LongVal(top) + LongVal(accu))
  {
    Untagged(c, top);
    Untagged(c, accu);
    var tmp := Long(c, LongVal(top) + LongVal(accu));
    Tagging(c, tmp);
    var tagged := ValLong(c, tmp);
    r := if LongVal(tagged) != tmp then Overflow else Value(tagged);
  }

  method SmlSubInt(c: nat, top: int, accu: int) returns (r: Outcome)
    requires c > 1 && IsInt(c, top) && IsInt(c, accu)
    ensures r == Checked(c, LongVal(top) - LongVal(accu))
  {
    Untagged(c, top);
    Untagged(c, accu);
    var tmp := Long(c, LongVal(top) - LongVal(accu));
    Tagging(c, tmp);
    var tagged := ValLong(c, tmp);
    r := if LongVal(tagged) != tmp then Overflow else Value(tagged);
  }

  // ----- Multiplying -----

  function Abs(n: int): nat {
    if n < 0 then -n else n
  }

  /** The product is in range, but it is found to be too large all the same. */
  predicate Missed(c: nat, x: int, y: int) {
    Abs(x) == c && Abs(y) == c && x * y < 0
  }

  lemma SignedProduct(x: int, y: int)
    ensures x * y == if (x < 0) != (y < 0) then -(Abs(x) * Abs(y)) else Abs(x) * Abs(y)
  {
  }

  lemma TimesMonotone(a: int, b: int, d: int)
    requires a <= b && 0 <= d
    ensures a * d <= b * d
  {
  }

  /** When both factors have more than one chunk, the product is out of range but for one
      value of it. */
  lemma BothLarge(c: nat, x: nat, y: nat)
    requires c > 1 && x >= y >= c
    ensures x * y >= c * c && (x * y == c * c <==> x == c && y == c)
  {
    TimesMonotone(c, y, c);
    TimesMonotone(c, x, y);
    if x > c {
      TimesMonotone(c + 1, x, y);
      assert (c + 1) * y == c * y + y;
    }
  }

  lemma Distributes(h: int, l: int, c: int, y: int)
    ensures (h * c + l) * y == h * y * c + l * y
  {
    assert (h * c + l) * y == h * c * y + l * y;
  }

  lemma Parts(c: nat, x: nat)
    requires c > 1 && x <= c * c
    ensures x == (x / c) * c + x % c && 0 <= x / c <= c && 0 <= x % c < c
  {
    var h := x / c;
    assert x == h * c + x % c;
    if h > c {
      TimesMonotone(c + 1, h, c);
    }
  }

  /** The product in chunks: nothing but the sum can exceed the range, and it fits a long. */
  lemma Chunked(c: nat, x: nat, y: nat)
    requires c > 1 && y <= c - 1 && x <= c * c
    ensures x / c >= 0 && x % c >= 0 && 0 <= (x / c) * y < c * c
    ensures (x / c) * y > c ==> x * y > c * c
    ensures (x / c) * y <= c ==> 0 <= (x / c) * y * c <= c * c && 0 <= (x % c) * y < c * c
    ensures (x / c) * y * c + (x % c) * y == x * y
  {
    Parts(c, x);
    ChunkedBy(c, x / c, x % c, y);
  }

  lemma ChunkedBy(c: nat, h: nat, l: nat, y: nat)
    requires c > 1 && y <= c - 1 && h <= c && l < c
    ensures 0 <= h * y < c * c && 0 <= l * y < c * c
    ensures h * y > c ==> (h * c + l) * y > c * c
    ensures h * y <= c ==> 0 <= h * y * c <= c * c
    ensures h * y * c + l * y == (h * c + l) * y
  {
    Distributes(h, l, c, y);
    TimesMonotone(h, c, y);
    TimesMonotone(l, c, y);
    TimesMonotone(y, c - 1, c);
    assert (c - 1) * c == c * c - c;
    TimesMonotone(0, h, y);
    TimesMonotone(0, l, y);
    var p := h * y;
    if p > c {
      TimesMonotone(c + 1, p, c);
      assert (c + 1) * c == c * c + c;
    } else {
      TimesMonotone(p, c, c);
      TimesMonotone(0, p, c);
    }
  }

  lemma OneChunk(c: nat, x: nat, y: nat)
    requires c > 1 && x <= c - 1 && y <= c - 1
    ensures 0 <= x * y < c * c
  {
    assert x * y <= x * (c - 1) <= (c - 1) * (c - 1);
    assert (c - 1) * (c - 1) == c * c - 2 * c + 1;
  }

  lemma Operands(c: nat, v: int)
    requires c > 1 && IsInt(c, v)
    ensures Abs(LongVal(v)) <= c * c && InRange(c, LongVal(v))
  {
    Untagged(c, v);
  }

  /** The product of a number of more than one chunk and one of a single chunk. */
  method MulChunks(c: nat, x: nat, y: nat, isNegative: bool) returns (r: Outcome)
    requires c > 1 && c - 1 < x <= c * c && y <= c - 1
    ensures r == Checked(c, if isNegative then -(x * y) else x * y)
  {
    hide InRange, Checked, InLong, ValLong;
    Chunked(c, x, y);
    LongRange(c);
    ghost var product := x * y;
    var high, low := x / c, x % c;
    CheckedIs(c, if isNegative then -product else product);
    var tmp := Long(c, high * y);
    if tmp > c {
      return Overflow;
    }
    var shifted, rest := Long(c, tmp * c), Long(c, low * y);
    tmp := Long(c, shifted + rest);
    if isNegative {
      tmp := Long(c, -tmp);
    }
    Tagging(c, tmp);
    var tagged := ValLong(c, tmp);
    r := if LongVal(tagged) != tmp then Overflow else Value(tagged);
  }

  /** The exact product, or overflow: when the product is out of range, and in one more case.
      No step on the way overflows. */
  method SmlMulInt(c: nat, top: int, accu: int) returns (r: Outcome)
    requires c > 1 && IsInt(c, top) && IsInt(c, accu)
    ensures r == if Missed(c, LongVal(top), LongVal(accu)) then Overflow else Checked(c, LongVal(top) * LongVal(accu))
  {
    hide InRange, Checked, Missed, InLong, ValLong, LongVal, IsInt;
    var x, y, isNegative := LongVal(top), LongVal(accu), false;
    ghost var x0, y0 := x, y;
    SignedProduct(x, y);
    Operands(c, top);
    Operands(c, accu);
    LongRange(c);
    if x < 0 {
      x := Long(c, -x);
      isNegative := true;
    }
    if y < 0 {
      y := Long(c, -y);
      isNegative := !isNegative;
    }
    Commutes(x, y);
    if y > x {
      x, y := y, x;
    }
    assert x0 * y0 == if isNegative then -(x * y) else x * y;
    if y > c - 1 {
      BothLarge(c, x, y);
      TooLarge(c, x0, y0);
      return Overflow;
    }
    NotMissed(c, x0, y0);
    if x <= c - 1 {
      OneChunk(c, x, y);
      var product := Long(c, x * y);
      var tmp := if isNegative then Long(c, -product) else product;
      CheckedIs(c, tmp);
      return Value(ValLong(c, tmp));
    }
    r := MulChunks(c, x, y, isNegative);
  }

  lemma Commutes(x: int, y: int)
    ensures x * y == y * x
  {
  }

  lemma LongRange(c: nat)
    requires c > 1
    ensures c * c > c && forall n: int :: -2 * (c * c) < n < 2 * (c * c) ==> InLong(c, n)
  {
    assert c * c >= 2 * c;
  }

  lemma CheckedIs(c: nat, n: int)
    requires c > 1
    ensures Checked(c, n) == if -(c * c) <= n < c * c then Value(ValLong(c, n)) else Overflow
    ensures InRange(c, n) <==> -(c * c) <= n < c * c
  {
  }

  lemma TooLarge(c: nat, x: int, y: int)
    requires c > 1 && Abs(x) >= c && Abs(y) >= c && Abs(x) * Abs(y) >= c * c
    requires Abs(x) * Abs(y) == c * c <==> Abs(x) == c && Abs(y) == c
    ensures Missed(c, x, y) || Checked(c, x * y) == Overflow
  {
    SignedProduct(x, y);
    Square(c);
  }

  lemma NotMissed(c: nat, x: int, y: int)
    requires Abs(x) < c || Abs(y) < c
    ensures !Missed(c, x, y)
  {
  }

  /** Overflow is raised for a product that could be stored exactly when it is the smallest
      integer as the product of `c` and `-c`. */
  lemma MissedProducts(c: nat, x: int, y: int)
    requires c > 1 && InRange(c, x) && InRange(c, y)
    ensures Missed(c, x, y) <==> (Abs(x) == c && Abs(y) == c && x * y == -(c * c) && InRange(c, x * y))
    ensures Missed(c, x, y) ==> Checked(c, x * y) != Overflow
  {
    SignedProduct(x, y);
    Square(c);
  }

  // ----- Dividing -----

  /** The quotient rounded down. */
  function FloorDiv(x: int, y: int): int
    requires y != 0
  {
    if y > 0 then x / y else (-x) / (-y)
  }

  function FloorMod(x: int, y: int): int
    requires y != 0
  {
    x - FloorDiv(x, y) * y
  }

  /** The law of division, which determines quotient and remainder: the remainder is smaller
      than the divisor and has its sign. */
  lemma DivisionLaw(x: int, y: int, q: int, m: int)
    requires y != 0
    ensures q == FloorDiv(x, y) && m == FloorMod(x, y) <==> x == q * y + m && (if y > 0 then 0 <= m < y else y < m <= 0)
  {
    var d, n := if y > 0 then y else -y, if y > 0 then x else -x;
    assert n == (n / d) * d + n % d;
    assert FloorDiv(x, y) == n / d;
    if x == q * y + m && (if y > 0 then 0 <= m < y else y < m <= 0) {
      Unique(n, d, q, if y > 0 then m else -m);
    }
  }

  lemma Unique(n: int, d: int, q: int, m: int)
    requires d > 0 && n == q * d + m && 0 <= m < d
    ensures q == n / d
  {
    assert n == (n / d) * d + n % d;
    var e := q - n / d;
    assert e * d == q * d - (n / d) * d;
    Multiple(e, d);
  }

  lemma Multiple(e: int, d: int)
    requires d > 0
    ensures (e >= 1 ==> e * d >= d) && (e <= -1 ==> e * d <= -d)
  {
  }

  /** Division of a negative number by a positive one in terms of non-negative numbers. */
  lemma NegativeDiv(n: int, d: int)
    requires d > 0 && n >= 0
    ensures (-n) / d == if n % d == 0 then -(n / d) else -(n / d) - 1
    ensures (-n) % d == if n % d == 0 then 0 else d - n % d
  {
    var q, m := if n % d == 0 then -(n / d) else -(n / d) - 1, if n % d == 0 then 0 else d - n % d;
    assert n == (n / d) * d + n % d;
    assert -n == q * d + m;
    Unique(-n, d, q, m);
  }

  lemma QuotientSmall(n: int, d: int, s: int)
    requires d > 0 && s > 0 && -s <= n <= s
    ensures -s <= n / d <= s && 0 <= n % d < d && (n / d == s <==> n == s && d == 1)
  {
    var q := n / d;
    assert n == q * d + n % d;
    if q > s {
      TimesMonotone(s + 1, q, d);
      Grows(s + 1, d);
    } else if q < -s {
      TimesMonotone(q, -s - 1, d);
      Grows(s + 1, d);
    } else if q == s {
      Grows(s, d);
    }
  }

  lemma Grows(s: int, d: int)
    requires s > 0 && d > 0
    ensures s * d >= s + d - 1 && (-s) * d == -(s * d) && (s * d == s <==> d == 1)
  {
    TimesMonotone(1, s, d);
    assert s * d - s == s * (d - 1);
    TimesMonotone(1, s, d - 1);
  }

  /** Division rounds down; only the smallest integer divided by -1 overflows. */
  method SmlDivInt(c: nat, top: int, accu0: int) returns (r: Outcome)
    requires c > 1 && IsInt(c, top) && IsInt(c, accu0)
    ensures LongVal(accu0) == 0 ==> r == Div
    ensures LongVal(accu0) != 0 ==> r == Checked(c, FloorDiv(LongVal(top), LongVal(accu0)))
    ensures r == Overflow <==> LongVal(top) == -(c * c) && LongVal(accu0) == -1
  {
    hide InRange, Checked, InLong, ValLong;
    ghost var x, y := LongVal(top), LongVal(accu0);
    Operands(c, top);
    Operands(c, accu0);
    CheckedIs(c, x);
    CheckedIs(c, y);
    LongRange(c);
    var tmp, accu := LongVal(accu0), LongVal(top);
    if tmp == 0 {
      return Div;
    }
    if tmp < 0 {
      accu := Long(c, -accu);
      tmp := Long(c, -tmp);
    }
    assert FloorDiv(x, y) == accu / tmp;
    QuotientSmall(accu, tmp, c * c);
    if accu >= 0 {
      tmp := accu / tmp;
    } else {
      accu := Long(c, -accu);
      NegativeDiv(accu, tmp);
      if accu % tmp == 0 {
        tmp := Long(c, -(accu / tmp));
      } else {
        tmp := Long(c, -(accu / tmp) - 1);
      }
    }
    assert tmp == FloorDiv(x, y);
    Tagging(c, tmp);
    CheckedIs(c, tmp);
    var tagged := ValLong(c, tmp);
    r := if LongVal(tagged) != tmp then Overflow else Value(tagged);
  }

  /** The remainder goes with that division, and never overflows. */
  method SmlModInt(c: nat, top: int, accu0: int) returns (r: Outcome)
    requires c > 1 && IsInt(c, top) && IsInt(c, accu0)
    ensures r == if LongVal(accu0) == 0 then Div else Value(ValLong(c, FloorMod(LongVal(top), LongVal(accu0))))
  {
    hide InRange, Checked, InLong, ValLong;
    ghost var x := LongVal(top);
    Operands(c, top);
    Operands(c, accu0);
    CheckedIs(c, x);
    CheckedIs(c, LongVal(accu0));
    LongRange(c);
    var y := LongVal(accu0);
    var tmp, accu := y, LongVal(top);
    if tmp == 0 {
      return Div;
    }
    if tmp < 0 {
      accu := Long(c, -accu);
      tmp := Long(c, -tmp);
    }
    ghost var n, d := accu, tmp;
    Remainders(x, y, n, d);
    if accu >= 0 {
      tmp := accu % tmp;
    } else {
      accu := Long(c, -accu);
      NegativeDiv(accu, tmp);
      accu := accu % tmp;
      tmp := if accu == 0 then 0 else Long(c, tmp - accu);
    }
    assert tmp == n % d;
    if y < 0 {
      tmp := Long(c, -tmp);
    }
    Tagging(c, tmp);
    CheckedIs(c, tmp);
    var tagged := ValLong(c, tmp);
    r := if LongVal(tagged) != tmp then Overflow else Value(tagged);
  }

  lemma Remainders(x: int, y: int, n: int, d: int)
    requires y != 0 && d == (if y > 0 then y else -y) && n == if y > 0 then x else -x
    ensures 0 <= n % d < d && FloorMod(x, y) == if y > 0 then n % d else -(n % d)
  {
    assert n == (n / d) * d + n % d;
  }
}
