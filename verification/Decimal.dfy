/** Printing of non-negative integers with Go's %d and %0Nd verbs, and the reading-back and
    separator lemmas that make composed names injective. */
module Decimal {
  const DIGITS: string := "0123456789"

  predicate IsDigit(c: char) { '0' <= c <= '9' }

  predicate AllDigits(s: string) {
    forall i :: 0 <= i < |s| ==> IsDigit(s[i])
  }

  /** `%d` of a non-negative integer. */
  function Dec(n: nat): (s: string)
    ensures s != [] && AllDigits(s)
  {
    if n < 10 then [DIGITS[n]] else Dec(n / 10) + [DIGITS[n % 10]]
  }

  /** `%0<width>d` of a non-negative integer: zeros on the left up to `width`, never truncated. */
  function PadDec(width: nat, n: nat): (s: string)
    ensures s != [] && AllDigits(s)
  {
    ZeroFill(width, Dec(n))
  }

  function ZeroFill(width: nat, s: string): (r: string)
    requires AllDigits(s)
    ensures AllDigits(r) && |r| >= |s|
    decreases width - |s|
  {
    if |s| < width then ZeroFill(width, ['0'] + s) else s
  }

  /** The number a digit string stands for. */
  function Value(s: string): nat
    requires AllDigits(s)
  {
    if s == [] then 0 else Value(s[..|s| - 1]) * 10 + (s[|s| - 1] as int - '0' as int)
  }

  // ---------- Reading back ----------

  lemma DigitValue(d: nat)
    requires d < 10
    ensures IsDigit(DIGITS[d]) && DIGITS[d] as int - '0' as int == d
  {
    assert DIGITS[0] == '0' && DIGITS[1] == '1' && DIGITS[2] == '2' && DIGITS[3] == '3' && DIGITS[4] == '4';
    assert DIGITS[5] == '5' && DIGITS[6] == '6' && DIGITS[7] == '7' && DIGITS[8] == '8' && DIGITS[9] == '9';
  }

  lemma {:induction false} ValueOfDec(n: nat)
    ensures Value(Dec(n)) == n
  {
    DigitValue(n % 10);
    if n < 10 {
      assert Dec(n)[..0] == [];
    } else {
      var s := Dec(n);
      assert s[..|s| - 1] == Dec(n / 10);
      ValueOfDec(n / 10);
    }
  }

  lemma {:induction false} ValueOfZeroThen(s: string)
    requires AllDigits(s)
    ensures Value(['0'] + s) == Value(s)
  {
    var t := ['0'] + s;
    if s == [] {
      assert t[..0] == [];
    } else {
      assert t[..|t| - 1] == ['0'] + s[..|s| - 1];
      ValueOfZeroThen(s[..|s| - 1]);
    }
  }

  lemma {:induction false} ValueOfZeroFill(width: nat, s: string)
    requires AllDigits(s)
    ensures Value(ZeroFill(width, s)) == Value(s)
    decreases width - |s|
  {
    if |s| < width {
      ValueOfZeroThen(s);
      ValueOfZeroFill(width, ['0'] + s);
    }
  }

  lemma {:induction false} DecFirst(n: nat)
    requires n > 0
    ensures Dec(n)[0] != '0'
  {
    if n < 10 {
      DigitValue(n);
    } else {
      DecFirst(n / 10);
    }
  }

  lemma DecSnoc(n: nat, d: nat)
    requires n > 0 && d < 10
    ensures Dec(10 * n + d) == Dec(n) + [DIGITS[d]]
  {
  }

  lemma ValueSnoc(a: string, c: char)
    requires AllDigits(a) && IsDigit(c)
    ensures Value(a + [c]) == 10 * Value(a) + (c as int - '0' as int)
  {
    assert (a + [c])[..|a|] == a;
  }

  lemma DecDigit(c: char)
    requires IsDigit(c)
    ensures 0 <= c as int - '0' as int < 10
    ensures DIGITS[c as int - '0' as int] == c && Dec(c as int - '0' as int) == [c]
  {
    DigitValue(c as int - '0' as int);
  }

  /** A digit string that does not start with '0' is what %d prints for its value. */
  lemma {:induction false} DecOfValue(s: string)
    requires AllDigits(s) && s != [] && s[0] != '0'
    ensures Value(s) > 0 && Dec(Value(s)) == s
    decreases |s|
  {
    hide Dec, Value;
    var init, c := s[..|s| - 1], s[|s| - 1];
    assert s == init + [c];
    DecDigit(c);
    ValueSnoc(init, c);
    if init == [] {
      ValueOfNone();
    } else {
      DecOfValue(init);
      DecSnoc(Value(init), c as int - '0' as int);
    }
  }

  lemma ValueOfNone()
    ensures Value([]) == 0
  {
  }

  /** Two digits or more at the end shift the value of what stands before them. */
  lemma {:induction false} ValueShift(a: string, b: string)
    requires AllDigits(a) && AllDigits(b) && |b| >= 2
    ensures Value(a + b) >= 100 * Value(a) + Value(b)
    ensures |b| == 2 ==> Value(a + b) == 100 * Value(a) + Value(b)
  {
    var w, init := a + b, b[..|b| - 1];
    assert w[..|w| - 1] == a + init;
    if |b| > 2 {
      ValueShift(a, init);
    } else {
      ValueSnoc(a, init[0]);
      ValueSnoc([], init[0]);
      assert [] + [init[0]] == init && a + [init[0]] == a + init;
    }
  }

  /** %02d prints two digits at least, and a '0' first only below ten. */
  lemma PadTwo(n: nat)
    ensures |PadDec(2, n)| >= 2
    ensures n >= 10 ==> PadDec(2, n) == Dec(n)
    ensures n < 10 ==> PadDec(2, n) == ['0'] + Dec(n) && |PadDec(2, n)| == 2
    ensures n < 100 ==> |PadDec(2, n)| == 2
    ensures Value(PadDec(2, n)) == n
  {
    ValueOfZeroFill(2, Dec(n));
    ValueOfDec(n);
    if n >= 10 {
      assert |Dec(n)| == |Dec(n / 10)| + 1;
    } else {
      assert ZeroFill(2, ['0'] + Dec(n)) == ['0'] + Dec(n);
    }
  }

  /** %03d prints three digits below a thousand. */
  lemma PadThree(n: nat)
    ensures n < 1000 ==> |PadDec(3, n)| == 3
    ensures Value(PadDec(3, n)) == n
  {
    ValueOfZeroFill(3, Dec(n));
    ValueOfDec(n);
    if n < 1000 {
      DigitsBelow(n);
      ZeroFillWidth(3, Dec(n));
    }
  }

  lemma DigitsBelow(n: nat)
    requires n < 1000
    ensures |Dec(n)| == if n < 10 then 1 else if n < 100 then 2 else 3
  {
    if n >= 10 {
      assert |Dec(n)| == |Dec(n / 10)| + 1;
    }
    if n >= 100 {
      assert |Dec(n / 10)| == |Dec(n / 10 / 10)| + 1;
    }
  }

  lemma {:induction false} ZeroFillWidth(width: nat, s: string)
    requires AllDigits(s) && |s| <= width
    ensures |ZeroFill(width, s)| == width
    decreases width - |s|
  {
    if |s| < width {
      ZeroFillWidth(width, ['0'] + s);
    }
  }

  /** Padding to any width keeps numbers apart, also past the padded width. */
  lemma PadDecInjective(width: nat, m: nat, n: nat)
    requires PadDec(width, m) == PadDec(width, n)
    ensures m == n
  {
    ValueOfZeroFill(width, Dec(m));
    ValueOfZeroFill(width, Dec(n));
    ValueOfDec(m);
    ValueOfDec(n);
  }

  lemma DecInjective(m: nat, n: nat)
    requires Dec(m) == Dec(n)
    ensures m == n
  {
    ValueOfDec(m);
    ValueOfDec(n);
  }

  // ---------- Separators ----------

  /** A digit run that ends at a non-digit can be read off the front. */
  lemma DigitRunThenRest(a: string, s: string, b: string, t: string)
    requires AllDigits(a) && AllDigits(b) && s != [] && t != []
    requires !IsDigit(s[0]) && !IsDigit(t[0])
    requires a + s == b + t
    ensures a == b && s == t
  {
    var w := a + s;
    assert w == b + t;
    assert forall i :: 0 <= i < |a| ==> IsDigit(w[i]);
    assert forall i :: 0 <= i < |b| ==> IsDigit(w[i]);
    assert !IsDigit(w[|a|]) && !IsDigit(w[|b|]);
    assert |a| == |b|;
    assert w[..|a|] == a == b && w[|a|..] == s == t;
  }

  predicate EndsInDigit(p: string) {
    p != [] && IsDigit(p[|p| - 1])
  }

  /** A digit run after a prefix that does not end in a digit can be read off the back. */
  lemma PrefixThenDigitRun(p: string, a: string, q: string, b: string)
    requires AllDigits(a) && AllDigits(b)
    requires !EndsInDigit(p) && !EndsInDigit(q)
    requires p + a == q + b
    ensures p == q && a == b
  {
    var w := p + a;
    assert w == q + b;
    assert forall i :: |p| <= i < |w| ==> IsDigit(w[i]);
    assert forall i :: |q| <= i < |w| ==> IsDigit(w[i]);
    assert (p != [] ==> !IsDigit(w[|p| - 1])) && (q != [] ==> !IsDigit(w[|q| - 1]));
    assert |p| == |q|;
    assert w[..|p|] == p == q && w[|p|..] == a == b;
  }

  /** A common literal start can be dropped. */
  lemma DropCommon(p: string, s: string, t: string)
    requires p + s == p + t
    ensures s == t
  {
    assert (p + s)[|p|..] == s && (p + t)[|p|..] == t;
  }
}
