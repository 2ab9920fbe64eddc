/** The part of Go's `strconv` package the fitness engine uses: `strconv.Atoi`
    on a 64-bit platform, and its inverse `strconv.Itoa`. */
module GoStrconv {
  import opened Wrappers

  /** Bounds of Go's `int` on a 64-bit platform. */
  const MinInt: int := -0x8000_0000_0000_0000
  const MaxInt: int := 0x7FFF_FFFF_FFFF_FFFF

  predicate InIntRange(n: int)
  {
    MinInt <= n <= MaxInt
  }

  predicate IsDigit(c: char)
  {
    '0' <= c <= '9'
  }

  predicate AllDigits(s: string)
  {
    forall i :: 0 <= i < |s| ==> IsDigit(s[i])
  }

  function DigitValue(c: char): int
  {
    c as int - '0' as int
  }

  function DigitChar(d: nat): (c: char)
    requires d < 10
    ensures IsDigit(c) && DigitValue(c) == d
  {
    ('0' as int + d) as char
  }

  /** The number a run of decimal digits denotes, most significant first;
      leading zeros are allowed. */
  function DigitsValue(s: string): (n: nat)
    requires AllDigits(s)
  {
    if |s| == 0 then 0
    else DigitsValue(s[..|s| - 1]) * 10 + DigitValue(s[|s| - 1])
  }

  /** `strconv.Atoi`: an optional `+` or `-`, then one or more ASCII digits,
      denoting a value that fits in a 64-bit `int`. Anything else, including
      surrounding spaces, underscores or an empty string, is an error. */
  function Atoi(s: string): (r: Option<int>)
    ensures r.Some? ==> InIntRange(r.value)
    ensures r.Some? ==> |s| > 0 && (IsDigit(s[0]) || s[0] == '+' || s[0] == '-')
    ensures r.Some? && r.value < 0 ==> s[0] == '-'
  {
    var unsigned := if |s| > 0 && (s[0] == '+' || s[0] == '-') then s[1..] else s;
    if |unsigned| == 0 || !AllDigits(unsigned) then None
    else
      var magnitude: int := DigitsValue(unsigned);
      var n: int := if s[0] == '-' then -magnitude else magnitude;
      if InIntRange(n) then Some(n) else None
  }

  /** Shortest decimal spelling of a natural number. */
  function Decimal(n: nat): (s: string)
    ensures |s| > 0 && AllDigits(s)
    ensures DigitsValue(s) == n
    ensures s[0] == '0' ==> n == 0
  {
    if n < 10 then [DigitChar(n)]
    else
      var prefix := Decimal(n / 10);
      var s := prefix + [DigitChar(n % 10)];
      assert s[..|s| - 1] == prefix;
      s
  }

  /** `strconv.Itoa`: the decimal spelling of `n`, with a leading `-` when
      negative. */
  function Itoa(n: int): string
  {
    if n < 0 then "-" + Decimal(-n) else Decimal(n)
  }

  /** `Itoa` produces neither a `+` nor a separator character. */
  lemma ItoaCharacters(n: int)
    ensures forall i :: 0 <= i < |Itoa(n)| ==> IsDigit(Itoa(n)[i]) || Itoa(n)[i] == '-'
  {
  }

  /** `Atoi` reads back whatever `Itoa` writes, over the whole `int` range. */
  lemma AtoiItoa(n: int)
    requires InIntRange(n)
    ensures Atoi(Itoa(n)) == Some(n)
  {
    if n < 0 {
      var s := Itoa(n);
      assert s[0] == '-';
      assert s[1..] == Decimal(-n);
    } else {
      var s := Itoa(n);
      assert IsDigit(s[0]);
    }
  }

  /** An unsigned run of digits is read as its decimal value. */
  lemma AtoiDigits(s: string, n: nat)
    requires |s| > 0 && AllDigits(s) && DigitsValue(s) == n <= MaxInt
    ensures Atoi(s) == Some(n)
  {
    assert IsDigit(s[0]);
  }

  /** `Atoi` does not trim: a leading or trailing space is a syntax error. */
  lemma AtoiNoTrim(s: string)
    ensures Atoi([' '] + s) == None
    ensures Atoi(s + [' ']) == None
  {
    var t := s + [' '];
    var unsigned := if |t| > 0 && (t[0] == '+' || t[0] == '-') then t[1..] else t;
    if |unsigned| > 0 {
      assert unsigned[|unsigned| - 1] == ' ';
    }
  }
}
