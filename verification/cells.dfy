/** Cell values of a data frame and their rendering as text. */
module Cells {

  /** A cell: text, an integer, or a missing value (pandas' NaN). */
  datatype Value = Str(s: string) | Int(n: int) | NaN

  /** The filler written into columns a row does not have. */
  const Blank: Value := Str("")

  /** Decimal digits of a natural number, most significant first. */
  function NatToString(n: nat): string
    decreases n
  {
    var d := ['0', '1', '2', '3', '4', '5', '6', '7', '8', '9'];
    if n < 10 then [d[n]] else NatToString(n / 10) + [d[n % 10]]
  }

  /** How a cell reads once the frame is converted to text: text as is, an integer
      in decimal with a leading '-' when negative, a missing value as "nan". */
  function Render(v: Value): string {
    match v
    case Str(s) => s
    case Int(n) => if n < 0 then "-" + NatToString(-n) else NatToString(n)
    case NaN => "nan"
  }

  predicate IsDigit(c: char) {
    '0' <= c <= '9'
  }

  /** Reads a string of decimal digits, most significant first. */
  function ParseNat(s: string): nat
    requires forall i :: 0 <= i < |s| ==> IsDigit(s[i])
    decreases |s|
  {
    if |s| == 0 then 0
    else
      var last := s[|s| - 1];
      assert IsDigit(last);
      ParseNat(s[..|s| - 1]) * 10 + (last as int - '0' as int)
  }

  /** Reads an optional '-' followed by decimal digits. */
  function ParseInt(s: string): int
    requires |s| > 0
    requires s[0] == '-' ==> forall i :: 1 <= i < |s| ==> IsDigit(s[i])
    requires s[0] != '-' ==> forall i :: 0 <= i < |s| ==> IsDigit(s[i])
  {
    if s[0] == '-' then -(ParseNat(s[1..]) as int) else ParseNat(s)
  }

  /** The decimal text of a natural number is a non-empty run of digits, without a leading
      zero unless the number is 0, and reading it back gives the number. */
  lemma {:induction false} NatToStringRoundTrip(n: nat)
    ensures var s := NatToString(n);
            && |s| > 0
            && (forall i :: 0 <= i < |s| ==> IsDigit(s[i]))
            && (s[0] == '0' ==> n == 0)
            && ParseNat(s) == n
    decreases n
  {
    if n >= 10 {
      NatToStringRoundTrip(n / 10);
      var s := NatToString(n);
      assert s[..|s| - 1] == NatToString(n / 10);
    }
  }

  /** An integer cell's text reads back as the same integer, so distinct integers render
      as distinct text. */
  lemma RenderIntRoundTrip(n: int)
    ensures var s := Render(Int(n));
            && |s| > 0
            && (s[0] == '-' <==> n < 0)
            && (s[0] == '-' ==> forall i :: 1 <= i < |s| ==> IsDigit(s[i]))
            && (s[0] != '-' ==> forall i :: 0 <= i < |s| ==> IsDigit(s[i]))
            && ParseInt(s) == n
  {
    if n < 0 {
      NatToStringRoundTrip(-n);
      var s := Render(Int(n));
      assert s[1..] == NatToString(-n);
    } else {
      NatToStringRoundTrip(n);
    }
  }

  /** Sample renderings: a negative integer, a multi-digit integer, a missing value, text. */
  lemma RenderExamples()
    ensures Render(Int(-5)) == "-5"
    ensures Render(Int(120)) == "120"
    ensures Render(NaN) == "nan"
    ensures Render(Str("Panadol")) == "Panadol"
  {
  }
}
