/** Decimal prices: the string branch of the paisa parser. */
module Price {
  import opened Wrappers

  // NUMERIC(12,2) in integer paisas: 9,999,999,999.99 rupees.
  const MAX_MONETARY_PAISAS: nat := 999_999_999_999

  /** The characters String.prototype.trim removes. */
  predicate IsSpace(c: char) {
    c in " \t\n\r" || c in ['\U{B}', '\U{C}', '\U{A0}', '\U{1680}', '\U{2028}', '\U{2029}', '\U{202F}', '\U{205F}', '\U{3000}', '\U{FEFF}']
    || '\U{2000}' <= c <= '\U{200A}'
  }

  predicate IsDigit(c: char) { '0' <= c <= '9' }

  predicate AllDigits(s: string) { forall i | 0 <= i < |s| :: IsDigit(s[i]) }

  function TrimStart(s: string): string {
    if s != "" && IsSpace(s[0]) then TrimStart(s[1..]) else s
  }

  function TrimEnd(s: string): string {
    if s != "" && IsSpace(s[|s| - 1]) then TrimEnd(s[..|s| - 1]) else s
  }

  function Trim(s: string): string { TrimEnd(TrimStart(s)) }

  /** Position of the first '.', or the length when there is none. */
  function DotIndex(s: string): (d: nat)
    ensures d <= |s|
    ensures forall i | 0 <= i < d :: s[i] != '.'
    ensures d < |s| ==> s[d] == '.'
  {
    if s == "" || s[0] == '.' then 0 else 1 + DotIndex(s[1..])
  }

  function Whole(s: string): string { s[..DotIndex(s)] }

  function Fraction(s: string): string {
    var d := DotIndex(s);
    if d < |s| then s[d + 1..] else ""
  }

  /** digits, then optionally a point with one or two more digits */
  predicate IsDecimal(s: string) {
    && Whole(s) != ""
    && AllDigits(Whole(s))
    && AllDigits(Fraction(s))
    && (if DotIndex(s) < |s| then 1 <= |Fraction(s)| <= 2 else true)
  }

  function NatOf(s: string): nat
    requires AllDigits(s)
  {
    if s == "" then 0 else 10 * NatOf(s[..|s| - 1]) + (s[|s| - 1] as int - '0' as int)
  }

  function ParseExactPaisa(value: string): Option<nat> {
    var str := Trim(value);
    if str == "" || !IsDecimal(str) then None
    else if |Whole(str)| > 10 then None
    else
      var paddedPaisas := (Fraction(str) + "00")[..2];
      var total := NatOf(Whole(str)) * 100 + NatOf(paddedPaisas);
      if total > MAX_MONETARY_PAISAS then None else Some(total)
  }

  predicate PricesAreEqual(a: string, b: string) {
    var pa := ParseExactPaisa(a);
    var pb := ParseExactPaisa(b);
    pa.Some? && pb.Some? && pa == pb
  }

  // ------------------------------------------------------------------
  // What an accepted string denotes, independently of the parser.

  function Pow10(n: nat): nat { if n == 0 then 1 else 10 * Pow10(n - 1) }

  lemma {:induction false} Pow10Positive(n: nat)
    ensures Pow10(n) > 0
  {
    if n > 0 {
      Pow10Positive(n - 1);
    }
  }

  /** The number of rupees a decimal numeral stands for. */
  function Value(s: string): real
    requires IsDecimal(s)
  {
    Pow10Positive(|Fraction(s)|);
    NatOf(Whole(s)) as real + NatOf(Fraction(s)) as real / Pow10(|Fraction(s)|) as real
  }

  /** Accepted input: a decimal numeral with at most ten integer digits. */
  predicate Accepted(value: string) {
    IsDecimal(Trim(value)) && |Whole(Trim(value))| <= 10
  }

  lemma {:induction false} NatOfBound(s: string)
    requires AllDigits(s)
    ensures NatOf(s) < Pow10(|s|)
  {
    if s != "" {
      NatOfBound(s[..|s| - 1]);
    }
  }

  lemma {:induction false} Pow10Monotone(a: nat, b: nat)
    requires a <= b
    ensures Pow10(a) <= Pow10(b)
    decreases b
  {
    if a < b {
      Pow10Monotone(a, b - 1);
    }
  }

  lemma {:induction false} Pow10Ten()
    ensures Pow10(1) == 10 && Pow10(2) == 100 && Pow10(10) == 10_000_000_000
  {
    assert Pow10(5) == 100_000;
  }

  /** Padding the fraction to two digits scales its value to hundredths. */
  lemma {:induction false} PaddedFraction(f: string)
    requires AllDigits(f) && |f| <= 2
    ensures var p := (f + "00")[..2];
            AllDigits(p) && NatOf(p) < 100 && NatOf(p) * Pow10(|f|) == 100 * NatOf(f)
  {
    var p := (f + "00")[..2];
    Pow10Ten();
    NatOfBound(p);
    if |f| == 0 {
      assert p == "00" && p[..1] == "0" && p[..1][..0] == "";
      assert NatOf("0") == 0;
    } else if |f| == 1 {
      assert p[..1] == f && p[1] == '0';
    } else {
      assert p == f;
    }
  }

  /** Padding to hundredths, said of the values. */
  lemma {:induction false} Hundredths(f: string)
    requires AllDigits(f) && |f| <= 2
    ensures AllDigits((f + "00")[..2]) && NatOf((f + "00")[..2]) < 100
    ensures Pow10(|f|) > 0 && NatOf((f + "00")[..2]) as real == 100.0 * (NatOf(f) as real / Pow10(|f|) as real)
  {
    PaddedFraction(f);
    Pow10Positive(|f|);
    var scale := Pow10(|f|) as real;
    assert NatOf((f + "00")[..2]) as real * scale == 100.0 * NatOf(f) as real;
  }

  /**
   * The parser is exact: it accepts exactly the decimal numerals with at most ten integer
   * digits, and its answer is their value in paisas. So the final range check never fires.
   */
  lemma {:induction false} ParseIsExact(value: string)
    ensures ParseExactPaisa(value).Some? <==> Accepted(value)
    ensures Accepted(value) ==>
              && ParseExactPaisa(value).value as real == 100.0 * Value(Trim(value))
              && ParseExactPaisa(value).value <= MAX_MONETARY_PAISAS
  {
    var s := Trim(value);
    if IsDecimal(s) && |Whole(s)| <= 10 {
      var w, f := Whole(s), Fraction(s);
      Hundredths(f);
      NatOfBound(w);
      Pow10Monotone(|w|, 10);
      Pow10Ten();
    }
  }

  /** Two inputs compare equal exactly when both are accepted and denote the same amount. */
  lemma {:induction false} PricesEqualIffSameValue(a: string, b: string)
    ensures PricesAreEqual(a, b) <==>
              Accepted(a) && Accepted(b) && Value(Trim(a)) == Value(Trim(b))
  {
    ParseIsExact(a);
    ParseIsExact(b);
  }

  // ------------------------------------------------------------------
  // Printing and parsing back.

  function Digit(d: nat): char
    requires d < 10
  {
    '0' + d as char
  }

  function Digits(n: nat): (s: string) {
    if n < 10 then [Digit(n)] else Digits(n / 10) + [Digit(n % 10)]
  }

  function Cents(m: nat): string
    requires m < 100
  {
    [Digit(m / 10), Digit(m % 10)]
  }

  /** n paisas as rupees, a point and two digits. */
  function Print(n: nat): string {
    Digits(n / 100) + "." + Cents(n % 100)
  }

  lemma {:induction false} DigitsDenote(n: nat)
    ensures AllDigits(Digits(n)) && Digits(n) != "" && NatOf(Digits(n)) == n
  {
    if n < 10 {
      assert Digits(n)[..0] == "";
    } else {
      DigitsDenote(n / 10);
      assert Digits(n)[..|Digits(n)| - 1] == Digits(n / 10);
    }
  }

  lemma {:induction false} DigitsLength(n: nat, k: nat)
    requires k > 0 && n < Pow10(k)
    ensures |Digits(n)| <= k
  {
    if n >= 10 {
      DigitsLength(n / 10, k - 1);
    }
  }

  lemma {:induction false} DotAfterDigits(w: string, f: string)
    requires AllDigits(w)
    ensures DotIndex(w + "." + f) == |w|
  {
    var s := w + "." + f;
    if w == "" {
      assert s[0] == '.';
    } else {
      assert s[0] == w[0] && s[1..] == w[1..] + "." + f;
      DotAfterDigits(w[1..], f);
    }
  }

  lemma {:induction false} TwoDigits(m: nat)
    requires m < 100
    ensures AllDigits(Cents(m)) && NatOf(Cents(m)) == m
  {
    var f := Cents(m);
    assert f[..1] == [f[0]] && f[..1][..0] == "";
    assert NatOf([f[0]]) == m / 10;
  }

  /** The pieces the parser sees of a printed amount. */
  lemma {:induction false} PrintedParts(k: nat, m: nat)
    requires m < 100
    ensures var s := Digits(k) + "." + Cents(m);
            Trim(s) == s != "" && Whole(s) == Digits(k) && Fraction(s) == Cents(m) && DotIndex(s) < |s|
  {
    var w, f := Digits(k), Cents(m);
    var s := w + "." + f;
    DigitsDenote(k);
    DotAfterDigits(w, f);
    assert s[0] == w[0] && !IsSpace(s[0]);
    assert s[|s| - 1] == f[1] && !IsSpace(s[|s| - 1]);
  }

  /** The parser on a string whose two pieces are known. */
  lemma {:induction false} ParsePieces(s: string, w: string, f: string)
    requires s != "" && Trim(s) == s && Whole(s) == w && Fraction(s) == f && DotIndex(s) < |s|
    requires w != "" && |w| <= 10 && AllDigits(w) && AllDigits(f) && |f| == 2
    requires NatOf(w) * 100 + NatOf(f) <= MAX_MONETARY_PAISAS
    ensures ParseExactPaisa(s) == Some(NatOf(w) * 100 + NatOf(f))
  {
    assert (f + "00")[..2] == f;
  }

  lemma {:induction false} WholeFits(k: nat)
    requires k < 10_000_000_000
    ensures |Digits(k)| <= 10
  {
    Pow10Ten();
    DigitsLength(k, 10);
  }

  lemma {:induction false} PrintedPartsParse(k: nat, m: nat)
    requires m < 100 && k < 10_000_000_000
    ensures ParseExactPaisa(Digits(k) + "." + Cents(m)) == Some(k * 100 + m)
  {
    WholeFits(k);
    DigitsDenote(k);
    TwoDigits(m);
    PrintedParts(k, m);
    ParsePieces(Digits(k) + "." + Cents(m), Digits(k), Cents(m));
  }

  /** Parsing undoes printing, for every amount in range. */
  lemma {:induction false} PrintThenParse(n: nat)
    requires n <= MAX_MONETARY_PAISAS
    ensures ParseExactPaisa(Print(n)) == Some(n)
  {
    PrintedPartsParse(n / 100, n % 100);
  }
}
