/** Text order, as SQLite compares ASCII text, and fixed-width decimal numbers. */
module Text {

  /** `a` sorts strictly before `b`. */
  predicate Less(a: string, b: string) {
    b != [] && (a == [] || a[0] < b[0] || (a[0] == b[0] && Less(a[1..], b[1..])))
  }

  lemma {:induction false} LessIsIrreflexive(a: string)
    ensures !Less(a, a)
  {
    if a == [] {
    } else {
      LessIsIrreflexive(a[1..]);
    }
  }

  lemma {:induction false} LessIsTransitive(a: string, b: string, c: string)
    requires Less(a, b) && Less(b, c)
    ensures Less(a, c)
  {
    if a == [] || a[0] != b[0] || b[0] != c[0] {
    } else {
      LessIsTransitive(a[1..], b[1..], c[1..]);
    }
  }

  lemma {:induction false} LessIsTotal(a: string, b: string)
    ensures Less(a, b) || a == b || Less(b, a)
  {
    if a == [] || b == [] || a[0] != b[0] {
    } else {
      LessIsTotal(a[1..], b[1..]);
      assert a == [a[0]] + a[1..] && b == [b[0]] + b[1..];
    }
  }

  /** With equally long heads, the heads decide first. */
  lemma {:induction false} LessOfSum(a: string, c: string, b: string, d: string)
    requires |a| == |b|
    ensures Less(a + c, b + d) <==> Less(a, b) || (a == b && Less(c, d))
  {
    if a == [] {
      assert a + c == c && b + d == d;
    } else {
      assert (a + c)[1..] == a[1..] + c && (b + d)[1..] == b[1..] + d;
      LessOfSum(a[1..], c, b[1..], d);
      LessIsIrreflexive(a);
      assert a == [a[0]] + a[1..] && b == [b[0]] + b[1..];
    }
  }

  // ----- Numbers -----

  predicate IsDigit(c: char) {
    '0' <= c <= '9'
  }

  function Digit(n: int): char
    requires 0 <= n < 10
  {
    '0' + n as char
  }

  /** Decimal digits without padding. */
  function Digits(n: nat): string {
    if n < 10 then [Digit(n)] else Digits(n / 10) + [Digit(n % 10)]
  }

  /** Padded with zeros on the left to at least `w` characters. */
  function Padded(n: nat, w: nat): string {
    Zeros(w - |Digits(n)|) + Digits(n)
  }

  function Zeros(n: int): string {
    if n <= 0 then "" else "0" + Zeros(n - 1)
  }

  /** The last `w` decimal digits. */
  function Fixed(n: nat, w: nat): (s: string)
    ensures |s| == w
  {
    if w == 0 then "" else Fixed(n / 10, w - 1) + [Digit(n % 10)]
  }

  function Pow10(w: nat): nat {
    if w == 0 then 1 else 10 * Pow10(w - 1)
  }

  lemma {:induction false} FixedOfZero(w: nat)
    ensures Fixed(0, w) == Zeros(w)
  {
    if w == 0 {
    } else {
      FixedOfZero(w - 1);
      ZerosCommute(w - 1);
    }
  }

  lemma {:induction false} ZerosCommute(n: nat)
    ensures Zeros(n) + "0" == "0" + Zeros(n)
  {
    if n == 0 {
    } else {
      ZerosCommute(n - 1);
      assert ("0" + Zeros(n - 1)) + "0" == "0" + (Zeros(n - 1) + "0");
    }
  }

  /** Padding gives a fixed width as long as the number fits. */
  lemma {:induction false} PaddedIsFixed(n: nat, w: nat)
    requires w > 0 && n < Pow10(w)
    ensures Padded(n, w) == Fixed(n, w)
  {
    if n < 10 {
      FixedOfZero(w - 1);
    } else {
      assert w > 1;
      PaddedIsFixed(n / 10, w - 1);
      var z := Zeros(w - |Digits(n)|);
      assert z + (Digits(n / 10) + [Digit(n % 10)]) == (z + Digits(n / 10)) + [Digit(n % 10)];
    }
  }

  /** Fixed-width numbers sort as text exactly as they sort as numbers. */
  lemma {:induction false} FixedSortsAsNumber(n: nat, k: nat, w: nat)
    requires n < Pow10(w) && k < Pow10(w)
    ensures Less(Fixed(n, w), Fixed(k, w)) <==> n < k
    ensures Fixed(n, w) == Fixed(k, w) <==> n == k
  {
    if w == 0 {
    } else {
      FixedSortsAsNumber(n / 10, k / 10, w - 1);
      var a, b := Fixed(n / 10, w - 1), Fixed(k / 10, w - 1);
      LessOfSum(a, [Digit(n % 10)], b, [Digit(k % 10)]);
      if a + [Digit(n % 10)] == b + [Digit(k % 10)] {
        assert (a + [Digit(n % 10)])[w - 1] == (b + [Digit(k % 10)])[w - 1];
        assert (a + [Digit(n % 10)])[..w - 1] == a && (b + [Digit(k % 10)])[..w - 1] == b;
      }
    }
  }

  /** A fixed-width field followed by anything: the field decides, then the rest. */
  lemma FieldThenRest(n: nat, k: nat, w: nat, c: string, d: string)
    requires n < Pow10(w) && k < Pow10(w)
    ensures Less(Fixed(n, w) + c, Fixed(k, w) + d) <==> n < k || (n == k && Less(c, d))
  {
    FixedSortsAsNumber(n, k, w);
    LessOfSum(Fixed(n, w), c, Fixed(k, w), d);
  }

  // ----- Reading digits back -----

  function Value(s: string): nat
    requires forall c | c in s :: IsDigit(c)
  {
    if s == [] then 0
    else
      assert IsDigit(s[|s| - 1]);
      Value(s[..|s| - 1]) * 10 + (s[|s| - 1] as int - '0' as int)
  }

  lemma {:induction false} FixedOfValue(s: string)
    requires forall c | c in s :: IsDigit(c)
    ensures Value(s) < Pow10(|s|) && Fixed(Value(s), |s|) == s
  {
    if s == [] {
    } else {
      var init, c := s[..|s| - 1], s[|s| - 1];
      FixedOfValue(init);
      assert IsDigit(c) && s == init + [c];
      assert Value(s) / 10 == Value(init) && Value(s) % 10 == c as int - '0' as int;
    }
  }

  lemma {:induction false} FixedIsDigits(n: nat, w: nat)
    ensures forall c | c in Fixed(n, w) :: IsDigit(c)
  {
    if w == 0 {
    } else {
      FixedIsDigits(n / 10, w - 1);
    }
  }
}
