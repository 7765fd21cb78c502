/** Reading integer literal text: the underscore filter the parser applies,
    the standard library's `u64::from_str_radix`, `str::parse::<usize>` and
    `str::parse::<i64>` that it calls, and the bit-vector construction by
    repeated halving. Machine widths are explicit bounds on unbounded
    naturals. */
module Numerals {
  import opened Wrappers

  const MaxU64: nat := 18446744073709551615   // u64::MAX, also usize::MAX on 64-bit targets
  const MinI64: int := -9223372036854775808
  const MaxI64: int := 9223372036854775807

  function Pow(b: nat, n: nat): (p: nat)
    ensures b > 0 ==> p > 0
  {
    if n == 0 then 1 else b * Pow(b, n - 1)
  }

  /** The text with every `_` removed (the parser's `filter(|&ch| ch != '_')`). */
  function StripUnderscores(s: string): (r: string)
    ensures |r| <= |s|
    ensures forall i :: 0 <= i < |r| ==> r[i] != '_'
  {
    if s == [] then []
    else if s[|s| - 1] == '_' then StripUnderscores(s[..|s| - 1])
    else StripUnderscores(s[..|s| - 1]) + [s[|s| - 1]]
  }

  lemma {:induction false} StripAppend(a: string, b: string)
    ensures StripUnderscores(a + b) == StripUnderscores(a) + StripUnderscores(b)
    decreases |b|
  {
    if b == [] {
      assert a + b == a;
    } else {
      assert (a + b)[..|a + b| - 1] == a + b[..|b| - 1];
      StripAppend(a, b[..|b| - 1]);
    }
  }

  /** An underscore anywhere in a literal does not change what it reads as. */
  lemma UnderscoreIgnored(a: string, b: string)
    ensures StripUnderscores(a + "_" + b) == StripUnderscores(a + b)
  {
    StripAppend(a + "_", b);
    StripAppend(a, "_");
    StripAppend(a, b);
  }

  /** Text without underscores passes the filter unchanged. */
  lemma {:induction false} StripIdentity(s: string)
    requires forall i :: 0 <= i < |s| ==> s[i] != '_'
    ensures StripUnderscores(s) == s
  {
    if s != [] {
      StripIdentity(s[..|s| - 1]);
    }
  }

  /** `char::to_digit` before the radix test: decimal digits and letters of
      either case as 10 to 35. */
  function DigitValue(c: char): (d: Option<nat>)
    ensures d.Some? ==> d.value < 36
    ensures d.Some? <==> ('0' <= c <= '9' || 'a' <= c <= 'z' || 'A' <= c <= 'Z')
  {
    if '0' <= c <= '9' then Some(c as nat - '0' as nat)
    else if 'a' <= c <= 'z' then Some(c as nat - 'a' as nat + 10)
    else if 'A' <= c <= 'Z' then Some(c as nat - 'A' as nat + 10)
    else None
  }

  predicate IsDigitIn(c: char, radix: nat) {
    DigitValue(c).Some? && DigitValue(c).value < radix
  }

  predicate AllDigits(s: string, radix: nat) {
    forall i :: 0 <= i < |s| ==> IsDigitIn(s[i], radix)
  }

  /** The number a digit string denotes in the given radix. */
  function Value(s: string, radix: nat): nat
    requires AllDigits(s, radix)
  {
    if s == [] then 0
    else Value(s[..|s| - 1], radix) * radix + DigitValue(s[|s| - 1]).value
  }

  /** `from_str_radix` for an unsigned type whose largest value is `max`:
      an optional leading `+`, then at least one digit of the radix, and a
      value that fits. Every other text is an error. */
  function ParseUnsigned(s: string, radix: nat, max: nat): (r: Option<nat>)
    requires 2 <= radix <= 36
    ensures r.Some? ==> r.value <= max
    ensures r.Some? ==> |s| > 0 && var k := if s[0] == '+' then 1 else 0;
      k < |s| && AllDigits(s[k..], radix) && r.value == Value(s[k..], radix)
  {
    if s == [] then None
    else
      var digits := s[if s[0] == '+' then 1 else 0..];
      if digits == [] || !AllDigits(digits, radix) then None
      else if Value(digits, radix) > max then None
      else Some(Value(digits, radix))
  }

  function ParseU64(s: string, radix: nat): Option<nat>
    requires 2 <= radix <= 36
  {
    ParseUnsigned(s, radix, MaxU64)
  }

  /** `str::parse::<i64>`: an optional sign, decimal digits, and a value in
      the signed 64-bit range. */
  function ParseI64(s: string): (r: Option<int>)
    ensures r.Some? ==> MinI64 <= r.value <= MaxI64
  {
    if s == [] then None
    else if s[0] == '-' then
      var digits := s[1..];
      if digits == [] || !AllDigits(digits, 10) || Value(digits, 10) > -MinI64 then None
      else var v: int := 0 - Value(digits, 10) as int; Some(v)
    else
      match ParseUnsigned(s, 10, MaxI64)
      case Some(v) => Some(v)
      case None => None
  }

  /** The digit character for a value below 36, in lower case. */
  function DigitChar(d: nat): (c: char)
    requires d < 36
    ensures DigitValue(c) == Some(d)
  {
    if d < 10 then ('0' as nat + d) as char else ('a' as nat + d - 10) as char
  }

  /** The shortest digit string of `n` in the radix: the partner of `Value`. */
  function Render(n: nat, radix: nat): (s: string)
    requires 2 <= radix <= 36
    ensures |s| > 0 && AllDigits(s, radix)
    decreases n
  {
    if n < radix then [DigitChar(n)]
    else
      DivModBounds(n, radix);
      var prefix := Render(n / radix, radix);
      var c := DigitChar(n % radix);
      assert forall i :: 0 <= i < |prefix| + 1 ==> (prefix + [c])[i] == if i < |prefix| then prefix[i] else c;
      prefix + [c]
  }

  lemma DivModBounds(n: nat, radix: nat)
    requires 2 <= radix <= n
    ensures n / radix < n && n % radix < radix
    ensures n == n / radix * radix + n % radix
  {
  }

  lemma {:induction false} ValueOfRender(n: nat, radix: nat)
    requires 2 <= radix <= 36
    ensures Value(Render(n, radix), radix) == n
    decreases n
  {
    var s := Render(n, radix);
    if n < radix {
      assert s[..|s| - 1] == [];
    } else {
      DivModBounds(n, radix);
      var prefix := Render(n / radix, radix);
      assert s == prefix + [DigitChar(n % radix)];
      assert s[..|s| - 1] == prefix;
      ValueOfRender(n / radix, radix);
      assert Value(s, radix) == Value(prefix, radix) * radix + n % radix;
    }
  }

  /** Reading back a rendered number gives the number, whenever it fits. */
  lemma RenderRoundTrip(n: nat, radix: nat, max: nat)
    requires 2 <= radix <= 36 && n <= max
    ensures ParseUnsigned(Render(n, radix), radix, max) == Some(n)
  {
    ValueOfRender(n, radix);
  }

  /** A signed round trip for `str::parse::<i64>` over the whole i64 range. */
  lemma SignedRoundTrip(n: int)
    requires MinI64 <= n <= MaxI64
    ensures n >= 0 ==> ParseI64(Render(n, 10)) == Some(n)
    ensures n < 0 ==> ParseI64("-" + Render(-n, 10)) == Some(n)
  {
    if n >= 0 {
      RenderRoundTrip(n, 10, MaxI64);
    } else {
      var s := "-" + Render(-n, 10);
      assert s[1..] == Render(-n, 10);
      ValueOfRender(-n, 10);
    }
  }

  /** `n` nines. */
  function Nines(n: nat): (s: string)
    ensures |s| == n && AllDigits(s, 10)
  {
    if n == 0 then [] else Nines(n - 1) + "9"
  }

  lemma {:induction false} ValueOfNines(n: nat)
    ensures Value(Nines(n), 10) + 1 == Pow(10, n)
  {
    if n > 0 {
      assert Nines(n)[..n - 1] == Nines(n - 1);
      ValueOfNines(n - 1);
    }
  }

  lemma {:induction false} PowMonotone(b: nat, m: nat, n: nat)
    requires b >= 1 && m <= n
    ensures Pow(b, m) <= Pow(b, n)
    decreases n
  {
    if m < n {
      PowMonotone(b, m, n - 1);
    }
  }

  /** Twenty nines are past `u64::MAX`: such a literal is rejected. */
  lemma TwentyNinesOverflow()
    ensures ParseU64(Nines(20), 10) == None
  {
    ValueOfNines(20);
    PowAdd(10, 10, 10);
    PowAdd(10, 5, 5);
    assert Pow(10, 5) == 100000;
  }

  lemma {:induction false} PowAdd(b: nat, m: nat, n: nat)
    ensures Pow(b, m + n) == Pow(b, m) * Pow(b, n)
    decreases m
  {
    if m > 0 {
      PowAdd(b, m - 1, n);
      MulAssoc(b, Pow(b, m - 1), Pow(b, n));
    }
  }

  /** The `i`-th bit of `v`, counting from the least significant. */
  function Bit(v: nat, i: nat): bool {
    v / Pow(2, i) % 2 == 1
  }

  /** The number a little-endian bit sequence denotes. */
  function Unbits(bits: seq<bool>): nat {
    if bits == [] then 0
    else Unbits(bits[..|bits| - 1]) + (if bits[|bits| - 1] then Pow(2, |bits| - 1) else 0)
  }

  lemma DivMulMod(v: nat, m: nat, q: nat, r: nat)
    requires m > 0 && v == q * m + r && r < m
    ensures v / m == q && v % m == r
  {
    var q0, r0 := v / m, v % m;
    MulSubDist(q0, q, m);
    if q0 > q {
      MulAtLeast(q0 - q, m);
    } else if q0 < q {
      MulSubDist(q, q0, m);
      MulAtLeast(q - q0, m);
    }
  }

  lemma MulSubDist(a: int, b: int, m: int)
    ensures (a - b) * m == a * m - b * m
  {
  }

  lemma MulAtLeast(k: int, m: int)
    requires k >= 1 && m >= 0
    ensures k * m >= m
  {
  }

  lemma MulAssoc(x: int, y: int, z: int)
    ensures x * (y * z) == x * y * z
  {
  }

  lemma MulAddDist(x: int, y: int, z: int)
    ensures (x + y) * z == x * z + y * z
  {
  }

  lemma MulLeMono(x: int, y: int, z: int)
    requires x <= y && z >= 0
    ensures x * z <= y * z
  {
    MulSubDist(y, x, z);
  }

  lemma DivModDef(v: nat, a: nat)
    requires a > 0
    ensures v == v / a * a + v % a && v % a < a
  {
  }

  lemma NestedQuotient(v: nat, a: nat, b: nat, q1: nat, r1: nat, q2: nat, r2: nat)
    requires v == q1 * a + r1 && q1 == q2 * b + r2
    ensures v == q2 * (a * b) + (r2 * a + r1)
  {
    MulAddDist(q2 * b, r2, a);
    MulAssoc(q2, b, a);
  }

  lemma NestedRemainder(a: nat, b: nat, r1: nat, r2: nat)
    requires r1 < a && r2 < b
    ensures r2 * a + r1 < a * b
  {
    MulLeMono(r2, b - 1, a);
    MulSubDist(b, 1, a);
  }

  lemma DivDiv(v: nat, a: nat, b: nat)
    requires a > 0 && b > 0
    ensures v / a / b == v / (a * b)
  {
    var q1, r1 := v / a, v % a;
    var q2, r2 := q1 / b, q1 % b;
    DivModDef(v, a);
    DivModDef(q1, b);
    NestedQuotient(v, a, b, q1, r1, q2, r2);
    NestedRemainder(a, b, r1, r2);
    DivMulMod(v, a * b, q2, r2 * a + r1);
  }

  /** The step that adds one more bit to the low part of `v`. */
  lemma ModNextBit(v: nat, w: nat)
    ensures v % Pow(2, w + 1) == v % Pow(2, w) + (if Bit(v, w) then Pow(2, w) else 0)
  {
    var m := Pow(2, w);
    var q := v / m;
    var r := v % m;
    var b := q % 2;
    var k := q / 2;
    assert Pow(2, w + 1) == 2 * m;
    assert v == k * (2 * m) + (b * m + r) by {
      assert v == q * m + r;
      assert q == 2 * k + b;
      assert q * m == k * (2 * m) + b * m;
    }
    DivMulMod(v, 2 * m, k, b * m + r);
  }

  /** A bit sequence that holds the first `|bits|` bits of `v` denotes
      `v` modulo 2 to that power: the bit vector keeps the low bits. */
  lemma {:induction false} UnbitsOfBits(bits: seq<bool>, v: nat)
    requires forall i :: 0 <= i < |bits| ==> bits[i] == Bit(v, i)
    ensures Unbits(bits) == v % Pow(2, |bits|)
  {
    if bits != [] {
      var w := |bits| - 1;
      UnbitsOfBits(bits[..w], v);
      ModNextBit(v, w);
    }
  }

  /** `BitVec::from_fn(w, f)` where `f` tests and halves a running copy of
      `v`: bit `i` of the result is bit `i` of `v`. */
  method BitsOf(v: nat, w: nat) returns (bits: seq<bool>)
    ensures |bits| == w
    ensures forall i :: 0 <= i < w ==> bits[i] == Bit(v, i)
  {
    var cur := v;
    bits := [];
    while |bits| < w
      invariant |bits| <= w
      invariant cur == v / Pow(2, |bits|)
      invariant forall i :: 0 <= i < |bits| ==> bits[i] == Bit(v, i)
    {
      DivDiv(v, Pow(2, |bits|), 2);
      bits := bits + [cur % 2 == 1];
      cur := cur / 2;
    }
  }
}
