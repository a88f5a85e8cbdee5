/** The string operations of Go the models rest on: splitting and joining on a one-character separator,
    and printing and parsing unsigned decimal numbers. */
module Text {
  import opened Options

  // ---- strings.Split and strings.Join with a one-character separator -------------------------

  /** Never empty: a string without the separator is its own only part. */
  function Split(s: string, sep: char): (parts: seq<string>)
    ensures |parts| >= 1
  {
    if s == "" then [""]
    else
      var rest := Split(s[1..], sep);
      if s[0] == sep then [""] + rest else [[s[0]] + rest[0]] + rest[1..]
  }

  function Join(parts: seq<string>, sep: char): string {
    if parts == [] then ""
    else if |parts| == 1 then parts[0]
    else parts[0] + [sep] + Join(parts[1..], sep)
  }

  function CountOf(s: string, c: char): nat {
    if s == "" then 0 else (if s[0] == c then 1 else 0) + CountOf(s[1..], c)
  }

  lemma {:induction false} CountZero(s: string, c: char)
    ensures CountOf(s, c) == 0 <==> c !in s
  {
    if s != "" {
      CountZero(s[1..], c);
    }
  }

  lemma {:induction false} CountConcat(s: string, t: string, c: char)
    ensures CountOf(s + t, c) == CountOf(s, c) + CountOf(t, c)
  {
    if s == "" {
      assert s + t == t;
    } else {
      assert (s + t)[1..] == s[1..] + t;
      CountConcat(s[1..], t, c);
    }
  }

  /** A split has one part more than there are separators. */
  lemma {:induction false} SplitLength(s: string, sep: char)
    ensures |Split(s, sep)| == CountOf(s, sep) + 1
  {
    if s != "" {
      SplitLength(s[1..], sep);
    }
  }

  lemma {:induction false} SplitWhole(s: string, sep: char)
    requires sep !in s
    ensures Split(s, sep) == [s]
  {
    if s != "" {
      SplitWhole(s[1..], sep);
      assert s == [s[0]] + s[1..];
    }
  }

  /** The first separator ends the first part. */
  lemma {:induction false} SplitFirst(s: string, t: string, sep: char)
    requires sep !in s
    ensures Split(s + [sep] + t, sep) == [s] + Split(t, sep)
  {
    if s == "" {
      assert s + [sep] + t == [sep] + t;
      assert ([sep] + t)[1..] == t;
    } else {
      var whole := s + [sep] + t;
      assert whole[0] == s[0] && whole[1..] == s[1..] + [sep] + t;
      SplitFirst(s[1..], t, sep);
      assert s == [s[0]] + s[1..];
    }
  }

  lemma {:induction false} SplitPartsClean(s: string, sep: char)
    ensures forall i :: 0 <= i < |Split(s, sep)| ==> sep !in Split(s, sep)[i]
  {
    if s != "" {
      SplitPartsClean(s[1..], sep);
    }
  }

  /** Splitting what was joined gives the parts back when there is a part and none contains the
      separator. */
  lemma {:induction false} SplitJoin(parts: seq<string>, sep: char)
    requires parts != [] && forall i :: 0 <= i < |parts| ==> sep !in parts[i]
    ensures Split(Join(parts, sep), sep) == parts
  {
    if |parts| == 1 {
      SplitWhole(parts[0], sep);
    } else {
      SplitJoin(parts[1..], sep);
      SplitFirst(parts[0], Join(parts[1..], sep), sep);
      assert parts == [parts[0]] + parts[1..];
    }
  }

  /** Joining what was split gives the string back, always. */
  lemma {:induction false} JoinSplit(s: string, sep: char)
    ensures Join(Split(s, sep), sep) == s
  {
    if s != "" {
      JoinSplit(s[1..], sep);
      var rest := Split(s[1..], sep);
      if s[0] == sep {
        assert Split(s, sep)[1..] == rest;
      } else {
        var parts := Split(s, sep);
        assert parts[1..] == rest[1..];
        if |rest| == 1 {
          assert parts == [[s[0]] + rest[0]];
        } else {
          assert parts[0] == [s[0]] + rest[0];
        }
      }
      assert s == [s[0]] + s[1..];
    }
  }

  lemma {:induction false} JoinConcat(a: seq<string>, b: seq<string>, sep: char)
    requires a != [] && b != []
    ensures Join(a + b, sep) == Join(a, sep) + [sep] + Join(b, sep)
  {
    if |a| == 1 {
      assert (a + b)[1..] == b;
    } else {
      assert (a + b)[1..] == a[1..] + b;
      JoinConcat(a[1..], b, sep);
    }
  }

  /** A separator between two strings separates their parts. */
  lemma SplitConcat(s: string, t: string, sep: char)
    ensures Split(s + [sep] + t, sep) == Split(s, sep) + Split(t, sep)
  {
    var parts := Split(s, sep) + Split(t, sep);
    JoinSplit(s, sep);
    JoinSplit(t, sep);
    JoinConcat(Split(s, sep), Split(t, sep), sep);
    SplitPartsClean(s, sep);
    SplitPartsClean(t, sep);
    SplitJoin(parts, sep);
  }

  // ---- Decimal numbers -----------------------------------------------------------------------

  const MAX_UINT64: nat := 0xFFFF_FFFF_FFFF_FFFF

  function Digit(n: nat): char
    requires n < 10
  {
    "0123456789"[n]
  }

  /** fmt's %d for an unsigned number. */
  function Decimal(n: nat): (s: string)
    ensures s != ""
  {
    if n < 10 then [Digit(n)] else Decimal(n / 10) + [Digit(n % 10)]
  }

  function DigitValue(c: char): Option<nat> {
    if '0' <= c <= '9' then Some(c as nat - '0' as nat) else None
  }

  /** The value of a string of digits; None if some character is not a digit. */
  function Digits(s: string): Option<nat> {
    if s == "" then Some(0)
    else
      match (Digits(s[..|s| - 1]), DigitValue(s[|s| - 1]))
      case (Some(n), Some(d)) => Some(10 * n + d)
      case _ => None
  }

  /** strconv.ParseUint with base 10 and 64 bits. */
  function ParseUint(s: string): Option<nat> {
    if s == "" || Digits(s).None? || Digits(s).value > MAX_UINT64 then None else Digits(s)
  }

  lemma DigitRoundTrip(n: nat)
    requires n < 10
    ensures DigitValue(Digit(n)) == Some(n) && Digit(n) != '-' && Digit(n) != ','
  {
    assert Digit(n) == ('0' as nat + n) as char;
  }

  lemma {:induction false} DigitsOfDecimal(n: nat)
    ensures Digits(Decimal(n)) == Some(n)
    ensures '-' !in Decimal(n) && ',' !in Decimal(n)
  {
    hide Digit, DigitValue;
    var s := Decimal(n);
    DigitRoundTrip(n % 10);
    if n < 10 {
      assert s[..0] == "";
    } else {
      DigitsOfDecimal(n / 10);
      assert s[..|s| - 1] == Decimal(n / 10) && s[|s| - 1] == Digit(n % 10);
    }
  }

  /** Printed 64-bit numbers are parsed back. */
  lemma ParsePrinted(n: nat)
    ensures ParseUint(Decimal(n)) == if n <= MAX_UINT64 then Some(n) else None
  {
    DigitsOfDecimal(n);
  }

  function Zeros(k: nat): string { seq(k, _ => '0') }

  /** The text is this number in decimal, of 64 bits, after any number of zeros. */
  ghost predicate IsNumber(s: string, n: nat) {
    n <= 18446744073709551615 && exists k: nat :: s == Zeros(k) + Decimal(n)
  }

  lemma {:induction false} DigitsOfZeros(k: nat)
    ensures Digits(Zeros(k)) == Some(0)
  {
    if k > 0 {
      assert Zeros(k)[..k - 1] == Zeros(k - 1);
      DigitsOfZeros(k - 1);
    }
  }

  lemma {:induction false} DigitsOfPadded(k: nat, n: nat)
    ensures Digits(Zeros(k) + Decimal(n)) == Some(n)
  {
    hide Digit, DigitValue, Zeros;
    var s := Zeros(k) + Decimal(n);
    DigitRoundTrip(n % 10);
    if n < 10 {
      assert s[..|s| - 1] == Zeros(k);
      DigitsOfZeros(k);
    } else {
      assert s[..|s| - 1] == Zeros(k) + Decimal(n / 10);
      DigitsOfPadded(k, n / 10);
    }
  }

  lemma {:induction false} PaddedDigits(s: string) returns (k: nat)
    requires s != "" && Digits(s).Some?
    ensures s == Zeros(k) + Decimal(Digits(s).value)
  {
    var init, c := s[..|s| - 1], s[|s| - 1];
    var d := DigitValue(c).value;
    assert s == init + [c] && Digit(d) == c;
    if init == "" {
      k := 0;
    } else {
      k := PaddedDigits(init);
      var m := Digits(init).value;
      if m == 0 {
        k := k + 1;
        assert init == Zeros(k);
      } else {
        assert (10 * m + d) / 10 == m && (10 * m + d) % 10 == d;
        assert Decimal(10 * m + d) == Decimal(m) + [c];
      }
    }
  }

  /** Exactly the decimal texts of 64-bit numbers are parsed, with zeros in front or without. */
  lemma ParsesIff(s: string, n: nat)
    ensures ParseUint(s) == Some(n) <==> IsNumber(s, n)
  {
    if ParseUint(s) == Some(n) {
      var k := PaddedDigits(s);
    }
    if IsNumber(s, n) {
      var k: nat :| s == Zeros(k) + Decimal(n);
      DigitsOfPadded(k, n);
    }
  }

  lemma DecimalMeaning(n: nat, d: nat)
    requires d < 10
    ensures Decimal(d) == [('0' as nat + d) as char]
    ensures n > 0 ==> Decimal(10 * n + d) == Decimal(n) + Decimal(d)
  {
    assert Digit(d) == ('0' as nat + d) as char;
    assert (10 * n + d) / 10 == n && (10 * n + d) % 10 == d;
  }
}
