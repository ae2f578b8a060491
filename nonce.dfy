/**
 * The request nonce (piazza_api/nonce.py): an integer-to-base-N encoder over
 * the 62-character digit set `0-9a-zA-Z`, and the nonce built from two
 * base-36 encodings, one of the clock in milliseconds and one of a random draw.
 */
module Nonce {
  import opened Values

  /** The digit for value `d`: '0'..'9', then 'a'..'z', then 'A'..'Z'. */
  function DigitChar(d: nat): char
    requires d < 62
  {
    if d < 10 then ('0' as int + d) as char
    else if d < 36 then ('a' as int + d - 10) as char
    else ('A' as int + d - 36) as char
  }

  /** `string.digits + string.ascii_letters`, the digit set of the encoder. */
  function ExradixDigits(): (s: string)
    ensures |s| == 62
    ensures forall d :: 0 <= d < 62 ==> s[d] == DigitChar(d)
  {
    seq(62, d requires 0 <= d < 62 => DigitChar(d))
  }

  /** The value of digit `c`, or -1 when `c` is not in the digit set. */
  function DigitValue(c: char): (d: int)
    ensures -1 <= d < 62
  {
    if '0' <= c <= '9' then c as int - '0' as int
    else if 'a' <= c <= 'z' then c as int - 'a' as int + 10
    else if 'A' <= c <= 'Z' then c as int - 'A' as int + 36
    else -1
  }

  lemma DigitSetLayout()
    ensures |ExradixDigits()| == 62
    ensures ExradixDigits()[0] == '0' && ExradixDigits()[9] == '9'
    ensures ExradixDigits()[10] == 'a' && ExradixDigits()[35] == 'z'
    ensures ExradixDigits()[36] == 'A' && ExradixDigits()[61] == 'Z'
  {
  }

  /** Digit values and digit characters are inverse to each other. */
  lemma DigitRoundTrip(d: nat, c: char)
    requires d < 62
    ensures DigitValue(DigitChar(d)) == d
    ensures 0 <= DigitValue(c) ==> DigitChar(DigitValue(c)) == c
    ensures DigitChar(d) != '-'
  {
  }

  /** Every character of `s` is one of the first `base` digits. */
  predicate AllDigitsBelow(s: string, base: int) {
    forall i :: 0 <= i < |s| ==> 0 <= DigitValue(s[i]) < base
  }

  /** The digits of `n` in base `base`, most significant first, with no
      leading zero; the empty string for 0. */
  function EncodeNat(n: nat, base: int): string
    requires 2 <= base <= 62
    decreases n
  {
    if n == 0 then [] else EncodeNat(n / base, base) + [DigitChar(n % base)]
  }

  /** What `_int2base(x, base)` returns for a permitted base. */
  function Encode(x: int, base: int): string
    requires 2 <= base <= 62
  {
    if x > 0 then EncodeNat(x, base)
    else if x == 0 then [ExradixDigits()[0]]
    else ['-'] + EncodeNat(-x, base)
  }

  /** Reading a digit string most significant digit first. */
  function DecodeNat(s: string, base: int): int
    decreases |s|
  {
    if s == [] then 0 else DecodeNat(s[..|s| - 1], base) * base + DigitValue(s[|s| - 1])
  }

  /** The inverse of `Encode`: an optional '-' followed by digits. */
  function Decode(s: string, base: int): int {
    if |s| > 0 && s[0] == '-' then -DecodeNat(s[1..], base) else DecodeNat(s, base)
  }

  // ---- Arithmetic used by the digit proofs ----

  lemma MulNonNeg(a: int, b: int)
    requires a >= 0 && b >= 0
    ensures a * b >= 0
  {
  }

  lemma MulLe(a: int, b: int, c: int)
    requires c >= 0 && a <= b
    ensures a * c <= b * c
  {
    MulNonNeg(b - a, c);
    assert (b - a) * c == b * c - a * c;
  }

  /** One step of the digit loop: the quotient is smaller and the remainder
      is a digit. */
  lemma DivStep(n: int, base: int)
    requires n > 0 && base >= 2
    ensures 0 <= n / base < n
    ensures 0 <= n % base < base
    ensures n == (n / base) * base + n % base
  {
    var q, r := n / base, n % base;
    assert n == q * base + r;
    if q < 0 {
      MulLe(q, -1, base);
    }
    if q >= n {
      MulLe(n, q, base);
      MulLe(2, base, n);
    }
  }

  /** One digit of the encoding: the last digit of `n` is the digit of
      `n % base`, after the encoding of `n / base`. */
  lemma EncodeNatStep(n: int, base: int)
    requires n > 0 && 2 <= base <= 62
    ensures 0 <= n / base < n && 0 <= n % base < base
    ensures EncodeNat(n, base) == EncodeNat(n / base, base) + [ExradixDigits()[n % base]]
  {
    DivStep(n, base);
  }

  /** Appending digit `d` to the value `v` and dividing again recovers both. */
  lemma DivModUnique(v: int, d: int, base: int)
    requires base >= 2 && 0 <= d < base
    ensures (v * base + d) / base == v
    ensures (v * base + d) % base == d
  {
    var n := v * base + d;
    var q, r := n / base, n % base;
    assert n == q * base + r && 0 <= r < base;
    assert (q - v) * base == d - r;
    if q > v {
      MulLe(1, q - v, base);
    } else if q < v {
      MulLe(1, v - q, base);
    }
  }

  /** Reading one more digit multiplies by the base and adds it. */
  lemma DecodeNatSnoc(p: string, c: char, base: int)
    ensures DecodeNat(p + [c], base) == DecodeNat(p, base) * base + DigitValue(c)
  {
    assert (p + [c])[..|p + [c]| - 1] == p;
  }

  /** Writing one more digit after the encoding of `v`. */
  lemma EncodeNatSnoc(v: nat, d: nat, base: int)
    requires 2 <= base <= 62 && d < base
    requires v * base + d > 0
    ensures EncodeNat(v * base + d, base) == EncodeNat(v, base) + [DigitChar(d)]
  {
    DivModUnique(v, d, base);
  }

  /** `n / base < p` exactly when `n < p * base`. */
  lemma QuotientBound(n: nat, base: int, p: int)
    requires base >= 2 && n > 0
    ensures n / base < p <==> n < p * base
  {
    DivStep(n, base);
    var q, m := n / base, n % base;
    if q < p {
      MulLe(q + 1, p, base);
      assert (q + 1) * base == q * base + base;
    } else {
      MulLe(p, q, base);
    }
  }

  function Reversed<T>(s: seq<T>): seq<T> {
    if s == [] then [] else Reversed(s[1..]) + [s[0]]
  }

  lemma {:induction false} ReversedSnoc<T>(s: seq<T>, x: T)
    ensures Reversed(s + [x]) == [x] + Reversed(s)
    decreases |s|
  {
    if s == [] {
      assert s + [x] == [x];
    } else {
      assert (s + [x])[1..] == s[1..] + [x];
      ReversedSnoc(s[1..], x);
    }
  }

  /** The error `_int2base` means to raise for a base beyond the digit set. */
  function BaseTooLargeError(): (e: Error)
    ensures e.ValueError?
  {
    ValueError("Base is too large: The defined digit set only allows for bases smaller than 62.")
  }

  /** The error `_int2base` raises, as written, for a base beyond the digit set:
      building the message adds an integer to a string, and that raises first. */
  function BaseTooLargeErrorAsWritten(): Error {
    var msg := PyAdd(Str("Base is too large: The defined digit set only allows for bases smaller than "),
                     Int(|ExradixDigits()|));
    match msg
    case Err(e) => e
    case Ok(v) =>
      match PyAdd(v, Str("."))
      case Err(e) => e
      case Ok(m) => if m.Str? then ValueError(m.s) else TypeError
  }

  lemma BaseTooLargeAsWrittenRaisesTypeError()
    ensures BaseTooLargeErrorAsWritten() == TypeError
    ensures BaseTooLargeErrorAsWritten() != BaseTooLargeError()
  {
  }

  /** One turn of the digit loop of `_int2base` keeps its invariant: the
      encoding of the whole magnitude is the encoding of what is left,
      followed by the digits emitted so far in reverse. */
  lemma DigitLoopStep(whole: string, n: int, digits: string, base: int)
    requires 2 <= base <= 62 && n > 0
    requires whole == EncodeNat(n, base) + Reversed(digits)
    ensures 0 <= n / base < n && 0 <= n % base < 62
    ensures whole == EncodeNat(n / base, base) + Reversed(digits + [ExradixDigits()[n % base]])
  {
    var c := ExradixDigits()[n % base];
    EncodeNatStep(n, base);
    ReversedSnoc(digits, c);
    var a, rev := EncodeNat(n / base, base), Reversed(digits);
    assert (a + [c]) + rev == a + ([c] + rev);
  }

  /** The end of `_int2base`: once the reversed digits spell the magnitude of
      a non-zero `x`, appending '-' for a negative `x` and reversing gives
      its encoding. */
  lemma SignAndReverse(digits: string, x: int, base: int)
    requires 2 <= base <= 62 && x != 0
    requires Reversed(digits) == EncodeNat(if x > 0 then x else -x, base)
    ensures Reversed(if x < 0 then digits + ['-'] else digits) == Encode(x, base)
  {
    if x < 0 {
      ReversedSnoc(digits, '-');
    }
  }

  /** `_int2base`: peel off digits least significant first, append the sign,
      then reverse. A base above 62 is rejected before any digit is produced. */
  method Int2Base(x: int, base: int) returns (r: Result<string>)
    requires 2 <= base
    ensures base > 62 ==> r == Err(BaseTooLargeError())
    ensures base <= 62 ==> r == Ok(Encode(x, base))
  {
    if base > |ExradixDigits()| {
      return Err(BaseTooLargeError());
    }
    var sign: int;
    if x > 0 {
      sign := 1;
    } else if x == 0 {
      return Ok([ExradixDigits()[0]]);
    } else {
      sign := -1;
    }
    var n: int := x * sign;
    assert n == if x > 0 then x else -x;
    ghost var m: nat := n;
    var digits: seq<char> := [];
    while n != 0
      invariant n >= 0
      invariant EncodeNat(m, base) == EncodeNat(n, base) + Reversed(digits)
      decreases n
    {
      DigitLoopStep(EncodeNat(m, base), n, digits, base);
      digits := digits + [ExradixDigits()[n % base]];
      n := n / base;
    }
    ghost var unsigned := digits;
    if sign < 0 {
      digits := digits + ['-'];
    }
    SignAndReverse(unsigned, x, base);
    digits := Reversed(digits);
    r := Ok(digits);
  }

  // ---- Properties of the encoding ----

  lemma EncodeZero(base: int)
    requires 2 <= base <= 62
    ensures Encode(0, base) == "0"
  {
  }

  lemma EncodeNegative(x: int, base: int)
    requires 2 <= base <= 62
    requires x < 0
    ensures Encode(x, base) == "-" + Encode(-x, base)
  {
  }

  lemma {:induction false} EncodeNatDigits(n: nat, base: int)
    requires 2 <= base <= 62
    ensures AllDigitsBelow(EncodeNat(n, base), base)
    ensures n > 0 <==> EncodeNat(n, base) != []
    ensures n > 0 ==> EncodeNat(n, base)[0] != '0'
    decreases n
  {
    if n > 0 {
      DivStep(n, base);
      EncodeNatDigits(n / base, base);
      DigitRoundTrip(n % base, '0');
      var s := EncodeNat(n / base, base);
      assert EncodeNat(n, base) == s + [DigitChar(n % base)];
      if n / base == 0 {
        assert n % base == n;
      }
    }
  }

  /** For a positive integer the encoding is non-empty, has no leading zero,
      and uses only the first `base` digits. */
  lemma EncodePositiveShape(x: int, base: int)
    requires 2 <= base <= 62
    requires x > 0
    ensures Encode(x, base) != []
    ensures Encode(x, base)[0] != '0'
    ensures AllDigitsBelow(Encode(x, base), base)
  {
    EncodeNatDigits(x, base);
  }

  lemma {:induction false} DecodeEncodeNat(n: nat, base: int)
    requires 2 <= base <= 62
    ensures DecodeNat(EncodeNat(n, base), base) == n
    decreases n
  {
    if n > 0 {
      DivStep(n, base);
      var q, m := n / base, n % base;
      DecodeEncodeNat(q, base);
      DigitRoundTrip(m, '0');
      DecodeNatSnoc(EncodeNat(q, base), DigitChar(m), base);
      assert DecodeNat(EncodeNat(n, base), base) == q * base + m;
    }
  }

  /** Reading the encoding back gives the integer that was encoded. */
  lemma DecodeEncode(x: int, base: int)
    requires 2 <= base <= 62
    ensures Decode(Encode(x, base), base) == x
  {
    if x > 0 {
      DecodeEncodePositive(x, base);
    } else if x == 0 {
      DecodeEncodeZero(base);
    } else {
      DecodeEncodeNegative(x, base);
    }
  }

  lemma DecodeEncodeZero(base: int)
    requires 2 <= base <= 62
    ensures Decode(Encode(0, base), base) == 0
  {
    assert Encode(0, base) == ['0'];
    assert DecodeNat(['0'], base) == DecodeNat([], base) * base + DigitValue('0');
  }

  lemma DecodeEncodeNegative(x: int, base: int)
    requires 2 <= base <= 62 && x < 0
    ensures Decode(Encode(x, base), base) == x
  {
    var s := EncodeNat(-x, base);
    DecodeEncodeNat(-x, base);
    var e := ['-'] + s;
    assert Encode(x, base) == e;
    assert e[1..] == s && e[0] == '-';
    assert Decode(e, base) == -DecodeNat(s, base);
  }

  /** The positive case of the round trip: the encoding does not start with
      '-', so it is read back as plain digits. */
  lemma DecodeEncodePositive(x: int, base: int)
    requires 2 <= base <= 62 && x > 0
    ensures Encode(x, base) == EncodeNat(x, base)
    ensures Decode(EncodeNat(x, base), base) == x
  {
    var s := EncodeNat(x, base);
    DecodeEncodeNat(x, base);
    EncodeNatDigits(x, base);
    assert 0 <= DigitValue(s[0]);
  }

  /** The encoding is one-to-one: distinct integers get distinct strings. */
  lemma EncodeInjective(x: int, y: int, base: int)
    requires 2 <= base <= 62
    requires x != y
    ensures Encode(x, base) != Encode(y, base)
  {
    DecodeEncode(x, base);
    DecodeEncode(y, base);
  }

  lemma {:induction false} DecodeNatNonNegative(s: string, base: int)
    requires 2 <= base
    requires AllDigitsBelow(s, base)
    ensures DecodeNat(s, base) >= 0
    decreases |s|
  {
    if s != [] {
      DecodeNatNonNegative(s[..|s| - 1], base);
      MulNonNeg(DecodeNat(s[..|s| - 1], base), base);
    }
  }

  lemma {:induction false} DecodeNatPositive(s: string, base: int)
    requires 2 <= base
    requires AllDigitsBelow(s, base)
    requires s != [] && s[0] != '0'
    ensures DecodeNat(s, base) > 0
    decreases |s|
  {
    var p := s[..|s| - 1];
    if p == [] {
      assert s == [s[0]];
    } else {
      assert p[0] == s[0];
      DecodeNatPositive(p, base);
      MulLe(1, DecodeNat(p, base), base);
    }
  }

  /** The other direction of the round trip: a digit string with no leading
      zero is the encoding of the number it denotes. */
  lemma {:induction false} EncodeDecodeNat(s: string, base: int)
    requires 2 <= base <= 62
    requires AllDigitsBelow(s, base)
    requires s != [] ==> s[0] != '0'
    ensures DecodeNat(s, base) >= 0
    ensures EncodeNat(DecodeNat(s, base), base) == s
    decreases |s|
  {
    if s != [] {
      var p, c := s[..|s| - 1], s[|s| - 1];
      assert p != [] ==> p[0] == s[0];
      EncodeDecodeNat(p, base);
      var v, d := DecodeNat(p, base), DigitValue(c);
      assert 0 <= d < base;
      MulNonNeg(v, base);
      if p != [] {
        DecodeNatPositive(p, base);
        MulLe(1, v, base);
      }
      DigitRoundTrip(d, c);
      EncodeNatSnoc(v, d, base);
      assert s == p + [c];
    }
  }

  // ---- The nonce ----

  /** 36 to the power 4: the scale of the random part of the nonce. */
  const RandomScale: int := 1679616

  function Pow(b: int, k: nat): int {
    if k == 0 then 1 else Pow(b, k - 1) * b
  }

  /** Python 3's `round` of a non-negative real: to the nearest integer, with
      halves going to the even neighbour. */
  function Round(y: real): (r: int)
    requires y >= 0.0
    ensures y - 0.5 <= r as real <= y + 0.5
    ensures r as real - y == 0.5 || y - r as real == 0.5 ==> r % 2 == 0
  {
    var f := y.Floor;
    var frac := y - f as real;
    if frac < 0.5 then f
    else if frac > 0.5 then f + 1
    else if f % 2 == 0 then f else f + 1
  }

  /** `round(random() * 1679616)` for a draw `u` from [0, 1). */
  function RandomPart(u: real): (r: int)
    requires 0.0 <= u < 1.0
    ensures 0 <= r <= RandomScale
  {
    Round(u * RandomScale as real)
  }

  /** `nonce()`, with the clock reading (milliseconds) and the random draw
      passed in. */
  method MakeNonce(clockMs: int, draw: real) returns (n: string)
    requires 0.0 <= draw < 1.0
    ensures n == Encode(clockMs, 36) + Encode(RandomPart(draw), 36)
  {
    var part1 := Int2Base(clockMs, 36);
    var part2 := Int2Base(RandomPart(draw), 36);
    n := part1.value + part2.value;
  }

  lemma {:induction false} EncodeNatLength(n: nat, base: int, k: nat)
    requires 2 <= base <= 62
    ensures |EncodeNat(n, base)| <= k <==> n < Pow(base, k)
    decreases n
  {
    if n > 0 && k > 0 {
      DivStep(n, base);
      var q := n / base;
      assert |EncodeNat(n, base)| == |EncodeNat(q, base)| + 1;
      EncodeNatLength(q, base, k - 1);
      QuotientBound(n, base, Pow(base, k - 1));
      assert Pow(base, k) == Pow(base, k - 1) * base;
    } else if n > 0 {
      DivStep(n, base);
      assert |EncodeNat(n, base)| == |EncodeNat(n / base, base)| + 1;
    } else {
      PowPositive(base, k);
    }
  }

  lemma {:induction false} PowPositive(b: int, k: nat)
    requires b >= 1
    ensures Pow(b, k) >= 1
  {
    if k > 0 {
      PowPositive(b, k - 1);
    }
  }

  /** The random part of the nonce encodes in at most five base-36 digits, and
      in exactly five only for the largest draw, 36^4. */
  lemma RandomPartLength(r: int)
    requires 0 <= r <= RandomScale
    ensures |Encode(r, 36)| <= 5
    ensures |Encode(r, 36)| == 5 <==> r == RandomScale
  {
    assert Pow(36, 4) == RandomScale;
    assert Pow(36, 5) == 36 * RandomScale;
    if r > 0 {
      EncodeNatLength(r, 36, 4);
      EncodeNatLength(r, 36, 5);
    }
  }
}
