/**
 * The parts of Go's fmt package that questionnaire.go relies on:
 * `%d` of an int, `%02d` of a non-negative int, and Sprintf of a message
 * template that carries one `%d` placeholder.
 */
module Format {

  predicate IsDigit(c: char) {
    '0' <= c <= '9'
  }

  predicate AllDigits(s: string) {
    forall i :: 0 <= i < |s| ==> IsDigit(s[i])
  }

  function Digit(d: nat): (c: char)
    requires d < 10
    ensures IsDigit(c)
  {
    ('0' as int + d) as char
  }

  function DigitValue(c: char): (d: nat)
    requires IsDigit(c)
    ensures d < 10
  {
    c as int - '0' as int
  }

  /** Shortest decimal spelling of n, as Go's `%d` prints a non-negative int. */
  function Decimal(n: nat): (s: string)
    ensures |s| > 0 && AllDigits(s)
    ensures n > 0 ==> s[0] != '0'
    ensures n < 10 <==> |s| == 1
    ensures 10 <= n < 100 ==> |s| == 2
    decreases n
  {
    if n < 10 then [Digit(n)] else Decimal(n / 10) + [Digit(n % 10)]
  }

  /** Reads a string of digits back as a number (most significant digit first). */
  function DecimalValue(s: string): nat
    requires AllDigits(s)
  {
    if s == [] then 0 else DecimalValue(s[..|s| - 1]) * 10 + DigitValue(s[|s| - 1])
  }

  lemma {:induction false} DecimalRoundTrip(n: nat)
    ensures DecimalValue(Decimal(n)) == n
    decreases n
  {
    if n >= 10 {
      var s := Decimal(n);
      assert s == Decimal(n / 10) + [Digit(n % 10)];
      assert s[..|s| - 1] == Decimal(n / 10);
      DecimalRoundTrip(n / 10);
    }
  }

  /** Go's `%d` of an int: a minus sign before the digits of a negative value. */
  function IntToString(i: int): (s: string)
    ensures |s| > 0 && '/' !in s
    ensures i >= 0 ==> s == Decimal(i)
    ensures i < 0 ==> s == "-" + Decimal(-i)
  {
    if i < 0 then "-" + Decimal(-i) else Decimal(i)
  }

  /** Reads IntToString's output back. */
  function IntValue(s: string): int
    requires |s| > 0
    requires s[0] == '-' ==> AllDigits(s[1..])
    requires s[0] != '-' ==> AllDigits(s)
  {
    if s[0] == '-' then -(DecimalValue(s[1..]) as int) else DecimalValue(s)
  }

  lemma IntRoundTrip(i: int)
    ensures IntValue(IntToString(i)) == i
  {
    var s := IntToString(i);
    if i < 0 {
      assert s[1..] == Decimal(-i);
      DecimalRoundTrip(-i);
    } else {
      assert IsDigit(s[0]);
      DecimalRoundTrip(i);
    }
  }

  lemma IntToStringInjective(i: int, j: int)
    ensures IntToString(i) == IntToString(j) <==> i == j
  {
    IntRoundTrip(i);
    IntRoundTrip(j);
  }

  /** Go's `%02d` of a non-negative int: at least two digits, zero-padded on the left. */
  function Pad2(n: nat): (s: string)
    ensures AllDigits(s)
    ensures n < 100 ==> |s| == 2
  {
    if n < 10 then ['0', Digit(n)] else Decimal(n)
  }

  lemma Pad2RoundTrip(n: nat)
    ensures DecimalValue(Pad2(n)) == n
  {
    if n < 10 {
      var s := Pad2(n);
      assert s[..1] == ['0'];
      assert DecimalValue(s[..1]) == 0 by {
        assert s[..1][..0] == [];
      }
    } else {
      DecimalRoundTrip(n);
    }
  }

  /** What Go's Sprintf appends when an argument is left over. */
  function Extra(arg: int): string {
    "%!(EXTRA int=" + IntToString(arg) + ")"
  }

  /**
   * The substitution Sprintf performs on a template whose only formatting
   * directive is `%d`: the first `%d` becomes `value`; when there is none the
   * template is copied and `leftover` is appended.
   */
  function Substitute(template: string, value: string, leftover: string): string
    decreases |template|
  {
    if template == [] then leftover
    else if |template| >= 2 && template[0] == '%' && template[1] == 'd' then value + template[2..]
    else [template[0]] + Substitute(template[1..], value, leftover)
  }

  /** Sprintf(template, arg) for a template with at most the one `%d` directive. */
  function FormatInt(template: string, arg: int): (r: string)
    ensures '%' !in template ==> r == template + Extra(arg)
  {
    if '%' !in template then
      SubstituteNone(template, IntToString(arg), Extra(arg));
      Substitute(template, IntToString(arg), Extra(arg))
    else
      Substitute(template, IntToString(arg), Extra(arg))
  }

  lemma {:induction false} SubstituteFirst(pre: string, post: string, value: string, leftover: string)
    requires '%' !in pre && '%' !in post
    ensures Substitute(pre + "%d" + post, value, leftover) == pre + value + post
    decreases |pre|
  {
    var t := pre + "%d" + post;
    if pre != [] {
      assert t[0] == pre[0] && t[0] != '%';
      assert Substitute(t, value, leftover) == [pre[0]] + Substitute(t[1..], value, leftover);
      assert t[1..] == pre[1..] + "%d" + post;
      SubstituteFirst(pre[1..], post, value, leftover);
      assert [pre[0]] + pre[1..] == pre;
    } else {
      assert t[2..] == post;
    }
  }

  lemma {:induction false} SubstituteNone(template: string, value: string, leftover: string)
    requires '%' !in template
    ensures Substitute(template, value, leftover) == template + leftover
    decreases |template|
  {
    if template != [] {
      var c, rest := template[0], template[1..];
      assert c != '%';
      SubstituteNone(rest, value, leftover);
      calc {
        Substitute(template, value, leftover);
        [c] + Substitute(rest, value, leftover);
        [c] + (rest + leftover);
        { assert [c] + rest == template; }
        template + leftover;
      }
    }
  }

  lemma FormatIntSubstitutes(pre: string, post: string, arg: int)
    requires '%' !in pre && '%' !in post
    ensures FormatInt(pre + "%d" + post, arg) == pre + IntToString(arg) + post
  {
    SubstituteFirst(pre, post, IntToString(arg), Extra(arg));
  }
}
