/**
 * JavaScript numbers where the dashboard can leave the reals: a division
 * by zero yields an infinity or NaN. Finite values are exact reals; IEEE
 * rounding is not modelled.
 */
module JsNumber {
  import opened Wrappers
  import opened Text

  datatype Num = Finite(value: real) | PosInfinity | NegInfinity | NaN

  /** `n > 0`. */
  predicate IsPositive(n: Num) {
    n.PosInfinity? || (n.Finite? && n.value > 0.0)
  }

  /** `a / b` on finite operands. */
  function Divide(a: real, b: real): (r: Num)
    ensures b != 0.0 ==> r.Finite? && r.value * b == a
    ensures b == 0.0 ==> (r.PosInfinity? <==> a > 0.0) && (r.NegInfinity? <==> a < 0.0) && (r.NaN? <==> a == 0.0)
  {
    if b != 0.0 then Finite(a / b)
    else if a > 0.0 then PosInfinity
    else if a < 0.0 then NegInfinity
    else NaN
  }

  /** `n * k` for a positive finite factor k. */
  function Scale(n: Num, k: real): (r: Num)
    requires k > 0.0
    ensures IsPositive(r) <==> IsPositive(n)
    ensures r.Finite? <==> n.Finite?
    ensures n.Finite? ==> r.value == n.value * k
  {
    match n
    case Finite(v) => Finite(v * k)
    case _ => n
  }

  /** The hundredths `toFixed(2)` prints for a non-negative value: the nearest count, ties upward. */
  function RoundCents(v: real): nat
    requires v >= 0.0
  {
    (v * 100.0 + 0.5).Floor
  }

  /** The rounded count is the nearest one: within half a hundredth of the value, ties upward. */
  lemma RoundCentsNearest(v: real)
    requires v >= 0.0
    ensures var c := RoundCents(v);
      c as real / 100.0 - 0.005 <= v < c as real / 100.0 + 0.005
  {
  }

  /**
   * A count of hundredths written with two decimals, as `toFixed` writes
   * its integer: the digits, left-padded with '0' to at least three, with
   * a '.' before the last two. 123 is "1.23", 5 is "0.05".
   */
  function CentsText(c: nat): (s: string)
    ensures |s| >= 4 && s[|s| - 3] == '.' && IsDigit(s[0])
  {
    var d := PaddedDecimal(c, 3);
    d[..|d| - 2] + "." + d[|d| - 2..]
  }

  /** The text of c hundredths reads back as c / 100 before the point and c % 100 in two digits after it. */
  lemma CentsTextReadsBack(c: nat)
    ensures var s := CentsText(c);
      ParseNat(s[..|s| - 3]) == Some(c / 100)
      && |s[|s| - 2..]| == 2 && ParseNat(s[|s| - 2..]) == Some(c % 100)
  {
    var s := CentsText(c);
    var d := PaddedDecimal(c, 3);
    var whole, cents := d[..|d| - 2], d[|d| - 2..];
    assert s[..|s| - 3] == whole && s[|s| - 2..] == cents;
    assert d == whole + cents;
    ParsePadded(c, 3);
    assert DecimalValue(d) == c;
    DecimalValueAppend(whole, cents);
    assert Pow10(2) == 100;
    DecimalBelowPow10(cents);
    DivModUnique(c, DecimalValue(whole), DecimalValue(cents));
  }

  /** c = 100 q + r with 0 <= r < 100 determines q and r. */
  lemma DivModUnique(c: nat, q: nat, r: nat)
    requires c == q * 100 + r && r < 100
    ensures q == c / 100 && r == c % 100
  {
  }

  /**
   * `n.toFixed(2)` (the exponent form JavaScript uses from 1e21 on is not
   * modelled): a '-' for a negative value, then the magnitude rounded to
   * hundredths; infinities and NaN print their names.
   */
  function ToFixed2(n: Num): (s: string)
    ensures |s| >= 1 && s[0] != '+'
    ensures n.Finite? && n.value >= 0.0 ==> s == CentsText(RoundCents(n.value))
    ensures n.Finite? && n.value < 0.0 ==> s == "-" + CentsText(RoundCents(-n.value))
    ensures n.PosInfinity? ==> s == "Infinity"
    ensures n.NegInfinity? ==> s == "-Infinity"
    ensures n.NaN? ==> s == "NaN"
  {
    match n
    case Finite(v) =>
      if v < 0.0 then
        var t := "-" + CentsText(RoundCents(-v));
        assert t[0] == '-';
        t
      else
        var t := CentsText(RoundCents(v));
        assert IsDigit(t[0]);
        t
    case PosInfinity => "Infinity"
    case NegInfinity => "-Infinity"
    case NaN => "NaN"
  }

  /**
   * Reading the printed text of a non-negative finite value back (whole
   * part, '.', two digits) gives a number within half a hundredth of it.
   */
  lemma ToFixed2ReadsBack(v: real)
    requires v >= 0.0
    ensures var s := ToFixed2(Finite(v));
      |s| >= 4 && s[|s| - 3] == '.' && s[0] != '-'
      && ParseNat(s[..|s| - 3]).Some? && ParseNat(s[|s| - 2..]).Some?
      && var read := ParseNat(s[..|s| - 3]).value as real + ParseNat(s[|s| - 2..]).value as real / 100.0;
         read - 0.005 <= v < read + 0.005
  {
    var c := RoundCents(v);
    var s := CentsText(c);
    CentsTextReadsBack(c);
    RoundCentsNearest(v);
    assert (c / 100) as real + (c % 100) as real / 100.0 == c as real / 100.0;
    assert ParseNat(s[..|s| - 3]).Some? ==> s[0] != '-' by {
      if ParseNat(s[..|s| - 3]).Some? {
        assert IsDigit(s[..|s| - 3][0]);
      }
    }
  }
}
