/** Numbers in decimal notation, as the `%d` verb prints them. */
module DecimalNotation {

  function Digit(d: nat): char
    requires d < 10
  {
    "0123456789"[d]
  }

  function Decimal(n: nat): string {
    if n < 10 then [Digit(n)] else Decimal(n / 10) + [Digit(n % 10)]
  }

  // ------------------------------------------------------------------- reading

  predicate Digits(s: string) {
    forall i | 0 <= i < |s| :: '0' <= s[i] <= '9'
  }

  /** The number that a string of digits stands for. */
  function Value(s: string): nat
    requires Digits(s)
  {
    if s == "" then 0 else 10 * Value(s[..|s| - 1]) + (s[|s| - 1] - '0') as nat
  }

  /** Digits without a superfluous zero in front. */
  predicate Plain(s: string) {
    Digits(s) && s != "" && (|s| > 1 ==> s[0] != '0')
  }

  lemma DigitReads(d: nat)
    requires d < 10
    ensures '0' <= Digit(d) <= '9' && (Digit(d) - '0') as nat == d
  {
  }

  lemma ValueOfOne(c: char)
    requires '0' <= c <= '9'
    ensures Digits([c]) && Value([c]) == (c - '0') as nat
  {
    assert [c][..0] == "";
  }

  lemma ValueOfMore(s: string, c: char)
    requires Digits(s) && '0' <= c <= '9'
    ensures Digits(s + [c]) && Value(s + [c]) == 10 * Value(s) + (c - '0') as nat
  {
    assert (s + [c])[..|s|] == s;
  }

  lemma {:induction false} PlainIsPositive(s: string)
    requires Digits(s) && s != "" && s[0] != '0'
    ensures Value(s) > 0
  {
    if |s| > 1 {
      PlainIsPositive(s[..|s| - 1]);
    } else {
      ValueOfOne(s[0]);
      assert s == [s[0]];
    }
  }

  lemma PlainStart(s: string)
    requires Plain(s) && Value(s) > 0
    ensures s[0] != '0'
  {
    ValueOfOne(s[0]);
    assert |s| == 1 ==> s == [s[0]];
  }

  lemma {:induction false} DecimalReads(n: nat)
    ensures Plain(Decimal(n)) && Value(Decimal(n)) == n
  {
    DigitReads(n % 10);
    ValueOfOne(Digit(n % 10));
    if n >= 10 {
      DecimalReads(n / 10);
      ValueOfMore(Decimal(n / 10), Digit(n % 10));
      PlainStart(Decimal(n / 10));
    }
  }

  lemma DigitOf(c: char)
    requires '0' <= c <= '9'
    ensures (c - '0') as nat < 10 && Digit((c - '0') as nat) == c
  {
  }

  lemma DecimalOfOne(c: char)
    requires '0' <= c <= '9'
    ensures Decimal(Value([c])) == [c]
  {
    DigitOf(c);
    ValueOfOne(c);
  }

  lemma PlainFront(s: string)
    requires Plain(s) && |s| > 1
    ensures var front, c := s[..|s| - 1], s[|s| - 1];
      Plain(front) && front[0] != '0' && s == front + [c] && '0' <= c <= '9'
  {
  }

  lemma {:induction false} DecimalOfPlain(s: string)
    requires Plain(s)
    ensures Decimal(Value(s)) == s
  {
    hide Decimal, Value;
    if |s| == 1 {
      DecimalOfOne(s[0]);
      assert s == [s[0]];
    } else {
      var front, c := s[..|s| - 1], s[|s| - 1];
      PlainFront(s);
      ValueOfMore(front, c);
      PlainIsPositive(front);
      DecimalOfPlain(front);
      DecimalStep(Value(front), c);
    }
  }

  lemma DecimalStep(n: nat, c: char)
    requires n > 0 && '0' <= c <= '9'
    ensures Decimal(10 * n + (c - '0') as nat) == Decimal(n) + [c]
  {
    DigitOf(c);
  }

  /** The notation of a number is the one plain string of digits that stands for
      it. */
  lemma DecimalExactly(s: string, n: nat)
    ensures s == Decimal(n) <==> Plain(s) && Value(s) == n
  {
    DecimalReads(n);
    if Plain(s) {
      DecimalOfPlain(s);
    }
  }

  /** Different numbers are written differently. */
  lemma DecimalInjective(a: nat, b: nat)
    requires Decimal(a) == Decimal(b)
    ensures a == b
  {
    DecimalReads(a);
    DecimalReads(b);
  }
}
