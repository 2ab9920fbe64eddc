/** The part of Go's `time` package the fitness engine uses: `time.Duration`
    as a signed count of nanoseconds, `time.ParseDuration`, and the
    `Hours`/`Minutes` conversions. Durations are exact: where Go scales a
    decimal fraction through float64, the model uses the exact quotient. */
module GoTime {
  import opened Wrappers
  import opened GoStrconv

  const Minute: nat := 60_000_000_000
  const Hour: nat := 3600_000_000_000

  /** The magnitude bound `1<<63` that Go's parser accumulates against. */
  const Limit: nat := 0x8000_0000_0000_0000

  /** A `time.Duration` value: any signed 64-bit count of nanoseconds. */
  predicate IsDuration(d: int)
  {
    -(Limit as int) <= d <= Limit - 1
  }

  /** The units `time.ParseDuration` knows. */
  datatype Unit = Nanoseconds | Microseconds | Milliseconds | Seconds | Minutes | Hours

  /** Nanoseconds in one `u`. */
  function Nanos(u: Unit): nat
  {
    match u
    case Nanoseconds => 1
    case Microseconds => 1000
    case Milliseconds => 1000_000
    case Seconds => 1000_000_000
    case Minutes => Minute
    case Hours => Hour
  }

  /** `v` units in nanoseconds. Each case multiplies by a literal, which keeps
      the parser's arithmetic linear; `InNanosProduct` relates it to
      `v * Nanos(u)`. */
  function InNanos(u: Unit, v: nat): nat
  {
    match u
    case Nanoseconds => v
    case Microseconds => v * 1000
    case Milliseconds => v * 1000_000
    case Seconds => v * 1000_000_000
    case Minutes => v * 60_000_000_000
    case Hours => v * 3600_000_000_000
  }

  lemma InNanosProduct(u: Unit, v: nat)
    ensures InNanos(u, v) == v * Nanos(u)
  {
  }

  /** The unit a name denotes, for every spelling Go accepts; the two micro
      signs are U+00B5 and U+03BC. */
  function UnitNamed(name: string): Option<Unit>
  {
    if name == "ns" then Some(Nanoseconds)
    else if name == "us" || name == "µs" || name == "μs" then Some(Microseconds)
    else if name == "ms" then Some(Milliseconds)
    else if name == "s" then Some(Seconds)
    else if name == "m" then Some(Minutes)
    else if name == "h" then Some(Hours)
    else None
  }

  /** Length of the longest all-digit prefix of `s`. */
  function DigitRun(s: string): (n: nat)
    ensures n <= |s| && AllDigits(s[..n])
    ensures n < |s| ==> !IsDigit(s[n])
  {
    if |s| == 0 || !IsDigit(s[0]) then 0
    else
      var n := 1 + DigitRun(s[1..]);
      assert s[..n] == [s[0]] + s[1..][..n - 1];
      n
  }

  /** Length of the unit name at the head of `s`: every character up to the
      next digit or `.`. */
  function UnitRun(s: string): (n: nat)
    ensures n <= |s|
    ensures n < |s| ==> IsDigit(s[n]) || s[n] == '.'
    ensures forall i :: 0 <= i < n ==> !IsDigit(s[i]) && s[i] != '.'
  {
    if |s| == 0 || IsDigit(s[0]) || s[0] == '.' then 0
    else 1 + UnitRun(s[1..])
  }

  /** Go's `leadingFraction`: the digits after a decimal point accumulated
      into `x`, with `k` counting the digits taken (the scale is `10^k`);
      once one more digit would overflow, the remaining digits are skipped. */
  function Fraction(ds: string, x: nat, k: nat): (nat, nat)
    requires AllDigits(ds)
  {
    if |ds| == 0 then (x, k)
    else if x > (Limit - 1) / 10 then (x, k)
    else
      var y := x * 10 + DigitValue(ds[0]);
      if y > Limit then (x, k)
      else Fraction(ds[1..], y, k + 1)
  }

  function Pow10(k: nat): (p: nat)
    ensures p >= 1
  {
    if k == 0 then 1 else 10 * Pow10(k - 1)
  }

  /** `x / 10^k`, one digit at a time. */
  function DivPow10(x: nat, k: nat): nat
  {
    if k == 0 then x else DivPow10(x / 10, k - 1)
  }

  /** Dropping `k` digits one at a time is dividing by `10^k`. */
  lemma {:induction false} DivPow10Quotient(x: nat, k: nat)
    ensures DivPow10(x, k) == x / Pow10(k)
  {
    if k > 0 {
      DivPow10Quotient(x / 10, k - 1);
      DivDiv(x, 10, Pow10(k - 1));
    }
  }

  lemma DivDiv(x: nat, a: nat, b: nat)
    requires a >= 1 && b >= 1
    ensures x / a / b == x / (a * b)
  {
    var q, r := x / a, x % a;
    var q2, r2 := q / b, q % b;
    var ab := a * b;
    Compose(x, q, r, a, q2, r2, b, ab);
    DivUnique(x, ab, q2, r2 * a + r);
  }

  /** Two Euclidean divisions in a row, written as one. */
  lemma Compose(x: nat, q: nat, r: nat, a: nat, q2: nat, r2: nat, b: nat, ab: nat)
    requires x == q * a + r && r < a
    requires q == q2 * b + r2 && r2 < b
    requires ab == a * b
    ensures x == q2 * ab + (r2 * a + r) && r2 * a + r < ab
  {
    assert (q2 * b + r2) * a == q2 * b * a + r2 * a;
    MulMonotone(r2, b - 1, a);
    assert (b - 1) * a == a * b - a;
  }

  lemma DivUnique(x: nat, d: nat, q: nat, r: nat)
    requires d >= 1 && r < d && x == q * d + r
    ensures x / d == q
  {
    var q0 := x / d;
    var r0 := x % d;
    assert x == q0 * d + r0;
    MulCancel(q0, q + 1, d);
    MulCancel(q, q0 + 1, d);
    assert (q + 1) * d == q * d + d;
    assert (q0 + 1) * d == q0 * d + d;
  }

  lemma MulCancel(a: nat, b: nat, c: nat)
    ensures a * c < b * c ==> a < b
  {
    if a >= b {
      MulMonotone(b, a, c);
    }
  }

  lemma MulMonotone(a: nat, b: nat, c: nat)
    requires a <= b
    ensures a * c <= b * c
  {
    assert b * c == a * c + (b - a) * c;
  }

  /** A component's number: the integer part, the fraction as Go's
      `leadingFraction` returns it (digits value and digit count), and the
      text after the number. */
  datatype Number = Number(whole: nat, frac: nat, digits: nat, rest: string)

  /** `[0-9]*(\.[0-9]*)?` at the head of `s`; `None` when the integer part
      overflows `1<<63` or when neither part holds a digit. */
  function LeadingNumber(s: string): (r: Option<Number>)
    ensures r.Some? ==> r.value.whole <= Limit
    ensures r.Some? ==> |r.value.rest| < |s|
  {
    var n := DigitRun(s);
    var v := DigitsValue(s[..n]);
    if v > Limit then None
    else
      var s1 := s[n..];
      var dot := |s1| > 0 && s1[0] == '.';
      var s2 := if dot then s1[1..] else s1;
      var m := if dot then DigitRun(s2) else 0;
      var frac := Fraction(s2[..m], 0, 0);
      if n == 0 && m == 0 then None
      else Some(Number(v, frac.0, frac.1, s2[m..]))
  }

  /** `whole + frac/10^digits` units in nanoseconds, the fractional part
      rounded toward zero; `None` above `1<<63`. Go tests
      `whole > (1<<63)/unit` before multiplying; `OverflowCheck` shows that
      this is the test on the product made here. */
  function Scaled(u: Unit, whole: nat, frac: nat, digits: nat): (r: Option<nat>)
    ensures r.Some? ==> r.value <= Limit
  {
    var w := InNanos(u, whole);
    if w > Limit then None
    else
      var total := w + (if frac > 0 then DivPow10(InNanos(u, frac), digits) else 0);
      if total > Limit then None else Some(total)
  }

  /** Go's overflow test `v > bound/unit`, made before multiplying, rejects
      exactly the `v` whose product with `unit` exceeds `bound`. */
  lemma OverflowCheck(v: nat, unit: nat, bound: nat)
    requires unit >= 1
    ensures v > bound / unit <==> v * unit > bound
  {
    var q := bound / unit;
    var r := bound % unit;
    assert bound == q * unit + r && r < unit;
    if v > q {
      MulMonotone(q + 1, v, unit);
      assert (q + 1) * unit == q * unit + unit;
    } else {
      MulMonotone(v, q, unit);
    }
  }

  /** One `number unit` component at the head of `s`: its nanoseconds and
      the text after it. */
  function Component(s: string): (r: Option<(nat, string)>)
    requires |s| > 0
    ensures r.Some? ==> r.value.0 <= Limit && |r.value.1| < |s|
  {
    if !(s[0] == '.' || IsDigit(s[0])) then None
    else match LeadingNumber(s)
      case None => None
      case Some(num) =>
        var k := UnitRun(num.rest);
        if k == 0 then None
        else match UnitNamed(num.rest[..k])
          case None => None
          case Some(u) =>
            match Scaled(u, num.whole, num.frac, num.digits)
            case None => None
            case Some(w) => Some((w, num.rest[k..]))
  }

  /** Go keeps the running total in a `uint64`. */
  const Modulus: nat := 0x1_0000_0000_0000_0000

  /** `d += v` on that `uint64`: the sum wraps past `2^64`. */
  function AddUint64(a: nat, b: nat): nat
    requires a < Modulus && b < Modulus
  {
    if a + b < Modulus then a + b else a + b - Modulus
  }

  /** `AddUint64` is addition modulo `2^64`. */
  lemma AddUint64Modular(a: nat, b: nat)
    requires a < Modulus && b < Modulus
    ensures AddUint64(a, b) == (a + b) % Modulus
  {
  }

  /** The `(number unit)+` loop of `time.ParseDuration`, adding each
      component's nanoseconds to the `uint64` total `acc` and testing the
      total against `1<<63` after the addition; `None` for a syntax error,
      an unknown unit, or a total above `1<<63`. Since both terms are at
      most `1<<63`, the only sum that wraps is `(1<<63) + (1<<63)`, which
      becomes 0 and passes the test. */
  function Components(s: string, acc: nat): (r: Option<nat>)
    requires acc <= Limit
    ensures r.Some? ==> r.value <= Limit
    decreases |s|
  {
    if |s| == 0 then Some(acc)
    else
      var c := Component(s);
      if c.None? then None
      else
        var total := AddUint64(acc, c.value.0);
        if total > Limit then None
        else Components(c.value.1, total)
  }

  /** What follows the sign in `time.ParseDuration`: either the lone `0`
      or one or more components. */
  function UnsignedDuration(body: string): (r: Option<nat>)
    ensures r.Some? ==> r.value <= Limit && |body| > 0
  {
    if body == "0" then Some(0)
    else if body == "" then None
    else Components(body, 0)
  }

  /** `time.ParseDuration`: an optional sign, then either the lone `0` or one
      or more components such as `3h`, `50m`, `1.5s`; the result must fit in
      a `time.Duration`. No whitespace is skipped. */
  function ParseDuration(s: string): (r: Option<int>)
    ensures r.Some? ==> IsDuration(r.value)
    ensures r.Some? ==> |s| > 0
    ensures r.Some? && r.value < 0 ==> s[0] == '-'
  {
    var neg := |s| > 0 && s[0] == '-';
    var body := if |s| > 0 && (s[0] == '-' || s[0] == '+') then s[1..] else s;
    match UnsignedDuration(body)
    case None => None
    case Some(d) =>
      if neg then Some(-(d as int))
      else if d > Limit - 1 then None
      else Some(d)
  }

  /** `Duration.Hours`, exactly. */
  function HoursOf(d: int): (h: real)
    ensures h * (Hour as real) == d as real
  {
    d as real / Hour as real
  }

  /** `Duration.Minutes`, exactly. */
  function MinutesOf(d: int): (m: real)
    ensures m * (Minute as real) == d as real
  {
    d as real / Minute as real
  }

  /** A minute is a sixtieth of an hour, and a duration is positive exactly
      when its length in hours is. */
  lemma HoursAndMinutes(d: int)
    ensures MinutesOf(d) == 60.0 * HoursOf(d)
    ensures d > 0 <==> HoursOf(d) > 0.0
  {
  }

  /** A literal that `ParseDuration` reads back as `d`: its nanoseconds in
      decimal with the unit `ns`. */
  function DurationLiteral(d: int): string
  {
    Itoa(d) + "ns"
  }

  lemma DigitRunOfDigits(digits: string, tail: string)
    requires AllDigits(digits)
    requires |tail| > 0 ==> !IsDigit(tail[0])
    ensures DigitRun(digits + tail) == |digits|
  {
    if |digits| > 0 {
      assert (digits + tail)[1..] == digits[1..] + tail;
      DigitRunOfDigits(digits[1..], tail);
    } else {
      assert digits + tail == tail;
    }
  }

  lemma UnitRunOfUnit(name: string, rest: string)
    requires UnitNamed(name).Some?
    requires |rest| == 0 || IsDigit(rest[0]) || rest[0] == '.'
    ensures UnitRun(name + rest) == |name|
  {
    UnitNameCharacters(name);
    UnitRunOfName(name, rest);
  }

  /** A unit name is non-empty and holds neither digits nor `.`. */
  lemma UnitNameCharacters(name: string)
    requires UnitNamed(name).Some?
    ensures |name| > 0
    ensures forall i :: 0 <= i < |name| ==> !IsDigit(name[i]) && name[i] != '.'
  {
  }

  lemma {:induction false} UnitRunOfName(name: string, rest: string)
    requires forall i :: 0 <= i < |name| ==> !IsDigit(name[i]) && name[i] != '.'
    requires |rest| == 0 || IsDigit(rest[0]) || rest[0] == '.'
    ensures UnitRun(name + rest) == |name|
  {
    if |name| > 0 {
      assert (name + rest)[1..] == name[1..] + rest;
      UnitRunOfName(name[1..], rest);
    } else {
      assert name + rest == rest;
    }
  }

  /** A run of digits followed by something other than a digit or `.` is
      read as that whole number with no fraction. */
  lemma LeadingDigits(digits: string, tail: string)
    requires |digits| > 0 && AllDigits(digits) && DigitsValue(digits) <= Limit
    requires |tail| > 0 ==> !IsDigit(tail[0]) && tail[0] != '.'
    ensures LeadingNumber(digits + tail) == Some(Number(DigitsValue(digits), 0, 0, tail))
  {
    var s := digits + tail;
    DigitRunOfDigits(digits, tail);
    assert s[..|digits|] == digits;
    assert s[|digits|..] == tail;
  }

  /** `Component` assembled from its parts. */
  lemma ComponentOfParts(s: string, num: Number, u: Unit, w: nat)
    requires |s| > 0 && IsDigit(s[0])
    requires LeadingNumber(s) == Some(num)
    requires UnitRun(num.rest) > 0
    requires UnitNamed(num.rest[..UnitRun(num.rest)]) == Some(u)
    requires Scaled(u, num.whole, num.frac, num.digits) == Some(w)
    ensures Component(s) == Some((w, num.rest[UnitRun(num.rest)..]))
  {
  }

  /** One component: a run of digits counting whole units. */
  lemma ComponentDigits(digits: string, name: string, u: Unit, rest: string)
    requires |digits| > 0 && AllDigits(digits)
    requires UnitNamed(name) == Some(u)
    requires |rest| == 0 || IsDigit(rest[0]) || rest[0] == '.'
    requires InNanos(u, DigitsValue(digits)) <= Limit
    ensures Component(digits + name + rest) == Some((InNanos(u, DigitsValue(digits)), rest))
  {
    var v := DigitsValue(digits);
    var s := digits + name + rest;
    assert s == digits + (name + rest);
    assert v <= InNanos(u, v);
    UnitNameCharacters(name);
    assert (name + rest)[0] == name[0];
    LeadingDigits(digits, name + rest);
    var num := Number(v, 0, 0, name + rest);
    UnitRunOfUnit(name, rest);
    assert num.rest[..|name|] == name;
    assert num.rest[|name|..] == rest;
    ComponentOfParts(s, num, u, InNanos(u, v));
  }

  /** One step of the component loop. */
  lemma ComponentsStep(s: string, acc: nat, w: nat, rest: string, total: nat)
    requires |s| > 0 && acc <= Limit
    requires Component(s) == Some((w, rest)) && total == acc + w <= Limit
    ensures Components(s, acc) == Components(rest, total)
  {
    assert AddUint64(acc, w) == total;
  }

  /** A text of two or more characters is no lone `0`, so what follows the
      sign is read by the component loop. */
  lemma UnsignedComponents(body: string, m: nat)
    requires |body| > 1 && Components(body, 0) == Some(m)
    ensures UnsignedDuration(body) == Some(m)
  {
  }

  /** An unsigned text read as `d`. */
  lemma ParseUnsigned(s: string, d: nat)
    requires |s| > 0 && IsDigit(s[0])
    requires UnsignedDuration(s) == Some(d) && d < Limit
    ensures ParseDuration(s) == Some(d)
  {
  }

  /** `ParseDuration` reads back `DurationLiteral(d)` for every duration. */
  lemma ParseDurationLiteral(d: int)
    requires IsDuration(d)
    ensures ParseDuration(DurationLiteral(d)) == Some(d)
  {
    var magnitude: nat := if d < 0 then -d else d;
    var body := Decimal(magnitude) + "ns";
    NanosecondsBody(magnitude);
    UnsignedComponents(body, magnitude);
    var s := DurationLiteral(d);
    if d < 0 {
      assert s == "-" + body;
      assert s[1..] == body;
      ParseNegative(s, magnitude, d);
    } else {
      assert s == body;
      ParseUnsigned(body, magnitude);
    }
  }

  /** The unsigned text `<digits>ns` is read as that many nanoseconds. */
  lemma NanosecondsBody(m: nat)
    requires m <= Limit
    ensures var body := Decimal(m) + "ns";
            |body| > 1 && IsDigit(body[0]) && Components(body, 0) == Some(m)
  {
    var digits := Decimal(m);
    var body := digits + "ns";
    ComponentDigits(digits, "ns", Nanoseconds, "");
    assert digits + "ns" + "" == body;
    ComponentsStep(body, 0, m, "", m);
  }

  /** A `-` followed by a text read as `m`. */
  lemma ParseNegative(s: string, m: nat, d: int)
    requires |s| > 0 && s[0] == '-'
    requires UnsignedDuration(s[1..]) == Some(m) && d + m == 0
    ensures ParseDuration(s) == Some(d)
  {
  }

  /** `ParseDuration` does not trim: a leading space is a syntax error. */
  lemma ParseDurationNoTrim(s: string)
    ensures ParseDuration([' '] + s) == None
  {
  }

  lemma LastComponent(s: string, acc: nat, w: nat, total: nat)
    requires |s| > 0 && Component(s) == Some((w, "")) && total == acc + w <= Limit
    ensures Components(s, acc) == Some(total)
  {
    ComponentsStep(s, acc, w, "", total);
  }

  lemma FirstComponent(s: string, w: nat, rest: string, total: nat)
    requires |s| > 0 && Component(s) == Some((w, rest))
    requires Components(rest, w) == Some(total)
    ensures Components(s, 0) == Some(total)
  {
    ComponentsStep(s, 0, w, rest, w);
  }

  /** Go's running total is a `uint64` tested only after each addition, so
      two components of exactly `1<<63` nanoseconds add up to `2^64`, which
      wraps to 0 and passes the test: the text reads as a zero duration. */
  lemma WrappedTotal()
    ensures ParseDuration(Decimal(Limit) + "ns" + Decimal(Limit) + "ns") == Some(0)
  {
    var digits := Decimal(Limit);
    var tail := digits + "ns";
    var s := digits + "ns" + tail;
    assert s == Decimal(Limit) + "ns" + Decimal(Limit) + "ns";
    ComponentDigits(digits, "ns", Nanoseconds, "");
    assert digits + "ns" + "" == tail;
    assert Components(tail, Limit) == Some(0) by {
      assert AddUint64(Limit, Limit) == 0;
    }
    assert tail[0] == digits[0];
    ComponentDigits(digits, "ns", Nanoseconds, tail);
    FirstComponent(s, Limit, tail, 0);
    assert s[0] == digits[0] && |s| > 1;
    UnsignedComponents(s, 0);
    ParseUnsigned(s, 0);
  }

  /** A duration written as one whole-number component. */
  lemma OneComponent(a: string, na: string, ua: Unit, total: nat)
    requires |a| > 0 && AllDigits(a)
    requires UnitNamed(na) == Some(ua)
    requires total == InNanos(ua, DigitsValue(a)) < Limit
    ensures ParseDuration(a + na) == Some(total)
  {
    var s := a + na;
    ComponentDigits(a, na, ua, "");
    assert a + na + "" == s;
    LastComponent(s, 0, total, total);
    assert s[0] == a[0] && |s| >= 2;
    UnsignedComponents(s, total);
    ParseUnsigned(s, total);
  }

  /** A duration written as two whole-number components is the sum of
      their nanoseconds. */
  lemma TwoComponents(a: string, na: string, ua: Unit, b: string, nb: string, ub: Unit, total: nat)
    requires |a| > 0 && AllDigits(a) && |b| > 0 && AllDigits(b)
    requires UnitNamed(na) == Some(ua) && UnitNamed(nb) == Some(ub)
    requires total == InNanos(ua, DigitsValue(a)) + InNanos(ub, DigitsValue(b)) < Limit
    ensures ParseDuration(a + na + b + nb) == Some(total)
  {
    var wa := InNanos(ua, DigitsValue(a));
    var wb := InNanos(ub, DigitsValue(b));
    var tail := b + nb;
    var s := a + na + tail;
    assert a + na + b + nb == s;
    assert Components(tail, wa) == Some(total) by {
      ComponentDigits(b, nb, ub, "");
      assert b + nb + "" == tail;
      LastComponent(tail, wa, wb, total);
    }
    assert Components(s, 0) == Some(total) by {
      assert tail[0] == b[0];
      ComponentDigits(a, na, ua, tail);
      FirstComponent(s, wa, tail, total);
    }
    assert s[0] == a[0] && |s| >= 2;
    UnsignedComponents(s, total);
    ParseUnsigned(s, total);
  }

  /** The record `3h00m` of the sample training is three hours. */
  lemma ThreeHours()
    ensures ParseDuration("3h00m") == Some(3 * Hour)
  {
    assert AllDigits("00") && DigitsValue("00") == 0 by {
      assert "00"[..1] == "0";
    }
    assert "3" + "h" + "00" + "m" == "3h00m";
    TwoComponents("3", "h", Hours, "00", "m", Minutes, 3 * Hour);
  }

  /** The record `0h50m` of the sample walk is fifty minutes. */
  lemma FiftyMinutes()
    ensures ParseDuration("0h50m") == Some(50 * Minute)
  {
    assert AllDigits("50") && DigitsValue("50") == 50 by {
      assert "50"[..1] == "5";
    }
    assert "0" + "h" + "50" + "m" == "0h50m";
    TwoComponents("0", "h", Hours, "50", "m", Minutes, 50 * Minute);
  }

  /** The record `1h` is one hour. */
  lemma OneHour()
    ensures ParseDuration("1h") == Some(Hour)
  {
    OneComponent("1", "h", Hours, Hour);
    assert "1" + "h" == "1h";
  }
}
