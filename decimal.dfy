/** Decimal text of integers, as Rust's `i64::to_string` writes it: an
    optional minus sign followed by digits with no leading zero. `Parse` is
    the inverse used to state that the text determines the number. */
module Decimal {
  import opened Wrappers

  predicate IsDigit(c: char) {
    '0' <= c <= '9'
  }

  function DigitChar(d: nat): (c: char)
    requires d < 10
    ensures IsDigit(c)
  {
    (48 + d) as char
  }

  function DigitValue(c: char): (r: Option<nat>)
    ensures r.Some? <==> IsDigit(c)
    ensures r.Some? ==> r.value < 10 && DigitChar(r.value) == c
  {
    if IsDigit(c) then Some(c as int - 48) else None
  }

  /** Digits of a natural number, most significant first. */
  function NatString(n: nat): (s: string)
    ensures |s| >= 1
    ensures forall i :: 0 <= i < |s| ==> IsDigit(s[i])
    ensures s[0] == '0' <==> n == 0
    ensures |s| == 1 <==> n < 10
  {
    if n < 10 then [DigitChar(n)] else NatString(n / 10) + [DigitChar(n % 10)]
  }

  /** `i64::to_string`. */
  function Show(n: int): (s: string)
    ensures |s| >= 1
    ensures s[0] == '-' <==> n < 0
  {
    if n < 0 then "-" + NatString(-n) else NatString(n)
  }

  /** Value of a non-empty string of digits; None for anything else. */
  function ParseNat(s: string): Option<nat>
  {
    if s == [] then None
    else if |s| == 1 then DigitValue(s[0])
    else
      match (ParseNat(s[..|s| - 1]), DigitValue(s[|s| - 1]))
      case (Some(high), Some(low)) => Some(10 * high + low)
      case _ => None
  }

  /** Value of an optionally signed decimal numeral. */
  function Parse(s: string): Option<int>
  {
    if |s| > 0 && s[0] == '-' then
      match ParseNat(s[1..])
      case Some(n) => Some(-(n as int))
      case None => None
    else
      match ParseNat(s)
      case Some(n) => Some(n)
      case None => None
  }

  lemma {:induction false} ParseNatString(n: nat)
    ensures ParseNat(NatString(n)) == Some(n)
  {
    if n >= 10 {
      var s := NatString(n);
      assert s[..|s| - 1] == NatString(n / 10);
      assert s[|s| - 1] == DigitChar(n % 10);
      ParseNatString(n / 10);
    }
  }

  /** The decimal text of an integer reads back as that integer, so two
      different integers never share a text. */
  lemma ParseShow(n: int)
    ensures Parse(Show(n)) == Some(n)
  {
    var s := Show(n);
    if n < 0 {
      assert s == "-" + NatString(-n);
      assert s[1..] == NatString(-n);
      ParseNatString(-n);
      assert ParseNat(s[1..]) == Some(-n);
    } else {
      assert s == NatString(n);
      assert IsDigit(s[0]);
      ParseNatString(n);
      assert ParseNat(s) == Some(n);
    }
  }

  lemma ShowInjective(m: int, n: int)
    ensures Show(m) == Show(n) <==> m == n
  {
    if Show(m) == Show(n) {
      ParseShow(m);
      ParseShow(n);
    }
  }
}
