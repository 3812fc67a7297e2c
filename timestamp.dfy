/** The start time embedded in every log file name, rendered as
    `String.format("%d_%d_%d_%d_%d_%d_%d", year, month, day, hour, minute, second, nano)`.
    The clock itself is not modelled: a start takes its `DateTime` as a parameter. */
module Timestamp {

  /** The fields of `LocalDateTime` that the name uses. */
  datatype DateTime = DateTime(year: int, month: int, day: int, hour: int, minute: int, second: int, nano: int)

  predicate IsDigits(s: string) {
    forall i :: 0 <= i < |s| ==> '0' <= s[i] <= '9'
  }

  function Digit(d: nat): (c: char)
    requires d < 10
    ensures '0' <= c <= '9' && c as int - '0' as int == d
  {
    ('0' as int + d) as char
  }

  /** Decimal digits of `n`, most significant first, without leading zeros. */
  function NatToDecimal(n: nat): (r: string)
    ensures |r| > 0 && IsDigits(r)
  {
    if n < 10 then [Digit(n)] else NatToDecimal(n / 10) + [Digit(n % 10)]
  }

  /** The number a string of decimal digits denotes. */
  function DecimalValue(s: string): nat
    requires IsDigits(s)
  {
    if s == [] then 0 else DecimalValue(s[..|s| - 1]) * 10 + (s[|s| - 1] as int - '0' as int)
  }

  lemma {:induction false} DecimalRoundTrip(n: nat)
    ensures DecimalValue(NatToDecimal(n)) == n
  {
    if n >= 10 {
      var s := NatToDecimal(n);
      assert s[..|s| - 1] == NatToDecimal(n / 10);
      DecimalRoundTrip(n / 10);
    }
  }

  /** Java's `%d` conversion of an integer: a minus sign before the digits of a negative value. */
  function FormatD(x: int): (r: string)
    ensures '_' !in r
    ensures |r| > 0 && (r[0] == '-' <==> x < 0)
  {
    if x < 0 then "-" + NatToDecimal(-x) else NatToDecimal(x)
  }

  /** Different naturals have different decimal digits. */
  lemma DecimalInjective(m: nat, n: nat)
    requires NatToDecimal(m) == NatToDecimal(n)
    ensures m == n
  {
    DecimalRoundTrip(m);
    DecimalRoundTrip(n);
  }

  /** Different integers are printed differently. */
  lemma FormatDInjective(x: int, y: int)
    requires FormatD(x) == FormatD(y)
    ensures x == y
  {
    var r := FormatD(x);
    assert x < 0 <==> y < 0;
    if x < 0 {
      assert NatToDecimal(-x) == r[1..] == NatToDecimal(-y);
      DecimalInjective(-x, -y);
    } else {
      DecimalInjective(x, y);
    }
  }

  /** `a + "_" + b`. */
  function Sep(a: string, b: string): string {
    a + "_" + b
  }

  lemma SepAt(a: string, b: string)
    ensures Sep(a, b)[|a|] == '_'
    ensures forall i :: 0 <= i < |a| ==> Sep(a, b)[i] == a[i]
  {
  }

  /** A field without an underscore is recovered from the text before the first underscore. */
  lemma SepInjective(a: string, b: string, c: string, d: string)
    requires '_' !in a && '_' !in c
    requires Sep(a, b) == Sep(c, d)
    ensures a == c && b == d
  {
    var s := Sep(a, b);
    SepAt(a, b);
    SepAt(c, d);
    assert a == s[..|a|] == c;
    assert b == s[|a| + 1..] == d;
  }

  /** The `y_M_d_h_m_s_nano` text of the name, written right-nested (string concatenation is associative). */
  function Stamp(t: DateTime): (r: string)
    // seven non-empty fields and six separators
    ensures |r| >= 13
    // the year comes first, up to the first underscore
    ensures |FormatD(t.year)| < |r| && r[..|FormatD(t.year)|] == FormatD(t.year) && r[|FormatD(t.year)|] == '_'
  {
    Sep(FormatD(t.year), Sep(FormatD(t.month), Sep(FormatD(t.day), Sep(FormatD(t.hour),
      Sep(FormatD(t.minute), Sep(FormatD(t.second), FormatD(t.nano)))))))
  }

  /** Distinct start times give distinct stamps: the fields are separated by underscores
      that no field contains, even though no field is zero-padded. */
  lemma StampInjective(t: DateTime, u: DateTime)
    requires Stamp(t) == Stamp(u)
    ensures t == u
  {
    var s6, r6 := FormatD(t.nano), FormatD(u.nano);
    var s5, r5 := Sep(FormatD(t.second), s6), Sep(FormatD(u.second), r6);
    var s4, r4 := Sep(FormatD(t.minute), s5), Sep(FormatD(u.minute), r5);
    var s3, r3 := Sep(FormatD(t.hour), s4), Sep(FormatD(u.hour), r4);
    var s2, r2 := Sep(FormatD(t.day), s3), Sep(FormatD(u.day), r3);
    var s1, r1 := Sep(FormatD(t.month), s2), Sep(FormatD(u.month), r2);
    SepInjective(FormatD(t.year), s1, FormatD(u.year), r1);
    SepInjective(FormatD(t.month), s2, FormatD(u.month), r2);
    SepInjective(FormatD(t.day), s3, FormatD(u.day), r3);
    SepInjective(FormatD(t.hour), s4, FormatD(u.hour), r4);
    SepInjective(FormatD(t.minute), s5, FormatD(u.minute), r5);
    SepInjective(FormatD(t.second), s6, FormatD(u.second), r6);
    FormatDInjective(t.year, u.year);
    FormatDInjective(t.month, u.month);
    FormatDInjective(t.day, u.day);
    FormatDInjective(t.hour, u.hour);
    FormatDInjective(t.minute, u.minute);
    FormatDInjective(t.second, u.second);
    FormatDInjective(t.nano, u.nano);
  }
}
