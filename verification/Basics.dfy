/**
 Shared vocabulary: optional values, results of calls that may fail, the identifier
 check every entry point applies, and machine integers.
 */
module Basics {

  datatype Option<+T> = None | Some(value: T)

  /** The ways a call into the library can fail. */
  datatype Error =
    | InvalidArgument
    | InsufficientCredits
    | ReservationNotFound
    | ReservationClosed
    | DuplicateGrant
    | RequestOwnedByOther
    | ConstraintViolation
    | UnknownModel
    | PricingOverflow
    | NotFound
    | IdentityConflict
    | PayloadMismatch

  datatype Result<+T> = Ok(value: T) | Err(error: Error)

  function Max(a: int, b: int): int { if a < b then b else a }

  function Min(a: int, b: int): int { if a < b then a else b }

  /** Code points that the library's blank test treats as white space. */
  predicate IsSpace(c: char) {
    || c in ['\t', '\n', '\U{0B}', '\U{0C}', '\r', ' ', '\U{85}', '\U{A0}', '\U{1680}']
    || '\U{2000}' <= c <= '\U{200A}'
    || c in ['\U{2028}', '\U{2029}', '\U{202F}', '\U{205F}', '\U{3000}']
  }

  predicate IsBlank(s: string) { forall i :: 0 <= i < |s| ==> IsSpace(s[i]) }

  /** Length of a string in UTF-8 bytes, the unit in which identifiers are limited. */
  function Utf8Length(s: string): nat {
    if s == [] then 0 else
      Utf8Length(s[1..]) +
      (if s[0] < '\U{80}' then 1 else if s[0] < '\U{800}' then 2 else if s[0] < '\U{10000}' then 3 else 4)
  }

  const MAX_IDENTIFIER_LENGTH := 512

  predicate ValidIdentifier(s: string) {
    !IsBlank(s) && Utf8Length(s) <= MAX_IDENTIFIER_LENGTH
  }

  /** A prefix can be cancelled from both sides of an equation between strings. */
  lemma CancelPrefix(p: string, a: string, b: string)
    requires p + a == p + b
    ensures a == b
  {
    assert a == (p + a)[|p|..];
    assert b == (p + b)[|p|..];
  }

  /** Strings that open with different literals are different. */
  lemma PrefixesDiffer(p: string, q: string, a: string, b: string, i: nat)
    requires i < |p| && i < |q| && p[i] != q[i]
    ensures p + a != q + b
    ensures !(p <= q + b)
  {
    assert (p + a)[i] == p[i] && (q + b)[i] == q[i];
  }

  /** A prefixed pair of parts joined by a colon, regrouped. */
  lemma KeyShape(prefix: string, a: string, b: string)
    ensures prefix + a + ":" + b == prefix + (a + [':'] + b)
  {
    assert prefix + a + ":" + b == prefix + (a + ":" + b);
  }

  /** Splitting at the first separator is unambiguous when the left parts do not contain it. */
  lemma SplitAtFirst(sep: char, a: string, x: string, b: string, y: string)
    requires sep !in a && sep !in b
    requires a + [sep] + x == b + [sep] + y
    ensures a == b && x == y
  {
    var s := a + [sep] + x;
    assert s[|a|] == sep && forall i :: 0 <= i < |a| ==> s[i] == a[i] && a[i] != sep;
    assert s[|b|] == sep && forall i :: 0 <= i < |b| ==> s[i] == b[i] && b[i] != sep;
    assert a == s[..|a|] && b == s[..|b|];
    assert x == s[|a| + 1..] && y == s[|b| + 1..];
  }

  /** Splitting at the last separator is unambiguous when the right parts do not contain it. */
  lemma SplitAtLast(sep: char, a: string, x: string, b: string, y: string)
    requires sep !in x && sep !in y
    requires a + [sep] + x == b + [sep] + y
    ensures a == b && x == y
  {
    var s := a + [sep] + x;
    assert s[|a|] == sep && forall i :: |a| < i < |s| ==> s[i] == x[i - |a| - 1] && s[i] != sep;
    assert s[|b|] == sep && forall i :: |b| < i < |s| ==> s[i] == y[i - |b| - 1] && s[i] != sep;
    assert a == s[..|a|] && b == s[..|b|];
    assert x == s[|a| + 1..] && y == s[|b| + 1..];
  }

  // ---- Decimal numbers ------------------------------------------------------------------

  function Digit(n: nat): char
    requires n < 10
  {
    "0123456789"[n]
  }

  lemma DigitInjective(a: nat, b: nat)
    requires a < 10 && b < 10
    ensures Digit(a) == Digit(b) ==> a == b
    ensures Digit(a) != ':'
  {
  }

  function Show(n: nat): string {
    if n < 10 then [Digit(n)] else Show(n / 10) + [Digit(n % 10)]
  }

  lemma {:induction false} ShowPlain(a: nat)
    ensures ':' !in Show(a) && |Show(a)| >= 1
  {
    DigitInjective(a % 10, 0);
    if a >= 10 {
      ShowPlain(a / 10);
    }
  }

  lemma {:induction false} ShowInjective(a: nat, b: nat)
    requires Show(a) == Show(b)
    ensures a == b
  {
    ShowPlain(a / 10);
    ShowPlain(b / 10);
    DigitInjective(a % 10, b % 10);
    var s, n := Show(a), |Show(a)| - 1;
    if a >= 10 && b >= 10 {
      assert s[..n] == Show(a / 10) && s[..n] == Show(b / 10);
      assert s[n] == Digit(a % 10) && s[n] == Digit(b % 10);
      ShowInjective(a / 10, b / 10);
    }
  }

  /** Signed decimal. */
  function ShowInt(n: int): string {
    if n < 0 then ['-'] + Show(-n) else Show(n)
  }

  lemma {:induction false} ShowHasNoSign(n: nat)
    ensures |Show(n)| >= 1 && Show(n)[0] != '-'
  {
    if n >= 10 {
      ShowHasNoSign(n / 10);
    }
  }

  lemma ShowIntPlain(n: int)
    ensures ':' !in ShowInt(n) && |ShowInt(n)| >= 1
  {
    ShowPlain(if n < 0 then -n else n);
  }

  lemma ShowIntInjective(a: int, b: int)
    requires ShowInt(a) == ShowInt(b)
    ensures a == b
  {
    ShowHasNoSign(if a < 0 then -a else a);
    ShowHasNoSign(if b < 0 then -b else b);
    if a < 0 && b < 0 {
      assert Show(-a) == ShowInt(a)[1..] && Show(-b) == ShowInt(b)[1..];
      ShowInjective(-a, -b);
    } else if a >= 0 && b >= 0 {
      ShowInjective(a, b);
    }
  }

  // ---- Identifiers known to be valid ----------------------------------------------------

  lemma {:induction false} Utf8LengthBound(s: string)
    ensures Utf8Length(s) <= 4 * |s|
  {
    if s != [] {
      Utf8LengthBound(s[1..]);
    }
  }

  lemma ShortIdentifier(s: string)
    requires 0 < |s| <= 128 && !IsSpace(s[0])
    ensures ValidIdentifier(s)
  {
    Utf8LengthBound(s);
  }
}

/** 64-bit two's-complement arithmetic as the source language defines it. */
module Int64 {
  const MAX: int := 0x7FFF_FFFF_FFFF_FFFF
  const MIN: int := -0x8000_0000_0000_0000
  const MODULUS: int := 0x1_0000_0000_0000_0000

  predicate InRange(x: int) { MIN <= x <= MAX }

  /** The 64-bit value that an operation with mathematical result `x` leaves. */
  function Wrap(x: int): (r: int)
    ensures InRange(r)
    ensures InRange(x) ==> r == x
  {
    (x - MIN) % MODULUS + MIN
  }

  /** Division truncating toward zero, by a positive divisor. */
  function Quot(a: int, b: int): (r: int)
    requires b > 0
    ensures a >= 0 ==> r == a / b
    ensures a < 0 ==> r <= 0
  {
    if a >= 0 then a / b else -((-a) / b)
  }

  /** Rounding-up division of a non-negative number. */
  function CeilDiv(a: int, b: int): (r: int)
    requires b > 0
    ensures r * b >= a && (r - 1) * b < a
  {
    (a + b - 1) / b
  }

  /** Multiplication by a positive number reflects the order. */
  lemma MulReflectsLess(x: int, y: int, b: int)
    requires b > 0 && x * b < y * b
    ensures x < y
  {
    assert (y - x) * b > 0;
  }

  lemma MulMonotone(x: int, y: int, b: int)
    requires x <= y && b >= 0
    ensures x * b <= y * b
  {
    assert (y - x) * b >= 0;
  }

  lemma DivBounds(x: int, b: int)
    requires b > 0
    ensures x / b * b <= x < (x / b + 1) * b
  {
    assert x == x / b * b + x % b;
  }

  /** Quotients are determined by the remainder bound. */
  lemma DivUnique(x: int, b: int, q: int)
    requires b > 0 && q * b <= x < (q + 1) * b
    ensures x / b == q
  {
    var p := x / b;
    DivBounds(x, b);
    MulReflectsLess(p, q + 1, b);
    MulReflectsLess(q, p + 1, b);
  }

  lemma MulGrows(q: int, b: int)
    requires q >= 0 && b > 0
    ensures q <= q * b
  {
    assert q * (b - 1) >= 0;
  }

  /** Dividing a non-negative number shrinks it. */
  lemma DivShrinks(a: int, b: int)
    requires a >= 0 && b > 0
    ensures 0 <= a / b <= a
  {
    var q := a / b;
    DivBounds(a, b);
    MulReflectsLess(-1, q, b);
    MulGrows(q, b);
  }

  /** A result one period too large wraps by exactly that period. */
  lemma WrapOnce(x: int)
    requires MAX < x <= MAX + MODULUS
    ensures Wrap(x) == x - MODULUS
  {
    DivUnique(x - MIN, MODULUS, 1);
  }

  /** The least multiple at or above `a` is what `CeilDiv` names. */
  lemma CeilDivUnique(a: int, b: int, q: int)
    requires b > 0 && q * b >= a && (q - 1) * b < a
    ensures CeilDiv(a, b) == q
  {
    MulReflectsLess(CeilDiv(a, b) - 1, q, b);
    MulReflectsLess(q - 1, CeilDiv(a, b), b);
  }

  /** A quotient is at most any integer bound of the division. */
  lemma CeilDivBound(a: int, b: int, q: int)
    requires b > 0 && a <= q * b
    ensures CeilDiv(a, b) <= q
  {
    MulReflectsLess(CeilDiv(a, b) - 1, q, b);
  }

  /** Bounding the rounded quotient and bounding the number itself are the same thing. */
  lemma CeilDivAtMost(a: int, b: int, q: int)
    requires b > 0
    ensures CeilDiv(a, b) <= q <==> a <= q * b
  {
    if a <= q * b {
      CeilDivBound(a, b, q);
    }
    if CeilDiv(a, b) <= q {
      MulMonotone(CeilDiv(a, b), q, b);
    }
  }

  lemma NestedAtMost(a: int, b: int, c: int, q: int)
    requires b > 0
    ensures CeilDiv(a, b) <= q * c <==> a <= q * (b * c)
  {
    CeilDivAtMost(a, b, q * c);
    assert q * c * b == q * (b * c);
  }

  lemma CeilDivMonotone(a: int, a': int, b: int)
    requires b > 0 && a <= a'
    ensures CeilDiv(a, b) <= CeilDiv(a', b)
  {
    CeilDivBound(a, b, CeilDiv(a', b));
  }

  /** Rounding up twice is rounding up once by the product. */
  lemma NestedCeil(a: int, b: int, c: int)
    requires b > 0 && c > 0
    ensures b * c > 0
    ensures CeilDiv(CeilDiv(a, b), c) == CeilDiv(a, b * c)
  {
    assert b * c > 0;
    var i := CeilDiv(a, b);
    var q := CeilDiv(i, c);
    assert q * (b * c) >= a by {
      assert (q * c) * b >= i * b;
      assert q * (b * c) == (q * c) * b;
    }
    assert (q - 1) * (b * c) < a by {
      assert (q - 1) * c <= i - 1;
      assert ((q - 1) * c) * b <= (i - 1) * b;
      assert (q - 1) * (b * c) == ((q - 1) * c) * b;
    }
    CeilDivUnique(a, b * c, q);
  }
}
