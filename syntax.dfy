/** Syntax trees and the classification of words into numbers and symbols
    (parser.js `numberOrSymbol`). */
module Syntax {

  /** A parsed expression: a number, a symbol, or a parenthesised list. */
  datatype Tree = Num(value: real) | Sym(name: string) | List(elems: seq<Tree>)

  predicate IsDigit(c: char) { '0' <= c <= '9' }

  predicate AllDigits(s: string) { forall i :: 0 <= i < |s| ==> IsDigit(s[i]) }

  /** Length of the run of digits that starts `s`. */
  function DigitRun(s: string): (k: nat)
    ensures k <= |s| && AllDigits(s[..k])
    ensures k < |s| ==> !IsDigit(s[k])
  {
    if s == [] || !IsDigit(s[0]) then 0
    else
      var k := 1 + DigitRun(s[1..]);
      assert s[..k] == [s[0]] + s[1..][..k - 1];
      k
  }

  /** A word without its optional leading minus sign. */
  function Unsigned(w: string): string {
    if |w| > 0 && w[0] == '-' then w[1..] else w
  }

  /** The numeral pattern `^-?\d+\.?\d*$`: an optional minus, one or more digits,
      an optional point and any number of further digits. */
  predicate IsNumeral(w: string) {
    var body := Unsigned(w);
    var k := DigitRun(body);
    k > 0 && (k == |body| || (body[k] == '.' && AllDigits(body[k + 1..])))
  }

  /** The text of a numeral assembled from its parts. */
  function NumeralText(negative: bool, whole: string, point: bool, fraction: string): string {
    (if negative then "-" else "") + whole + (if point then "." else "") + fraction
  }

  lemma DigitRunOfDigits(d: string, rest: string)
    requires AllDigits(d) && (rest == [] || !IsDigit(rest[0]))
    ensures DigitRun(d + rest) == |d|
  {
    if d != [] {
      assert (d + rest)[1..] == d[1..] + rest;
      DigitRunOfDigits(d[1..], rest);
    }
  }

  /** Every text assembled from the pattern's parts matches the pattern. */
  lemma {:induction false} NumeralTextMatches(negative: bool, whole: string, point: bool, fraction: string)
    requires |whole| > 0 && AllDigits(whole) && AllDigits(fraction)
    requires !point ==> fraction == []
    ensures IsNumeral(NumeralText(negative, whole, point, fraction))
  {
    var w := NumeralText(negative, whole, point, fraction);
    var tail := (if point then "." else "") + fraction;
    assert Unsigned(w) == whole + tail by {
      if negative { assert w == "-" + (whole + tail); }
      else { assert w == whole + tail; }
    }
    DigitRunOfDigits(whole, tail);
    if point {
      assert (whole + tail)[|whole|] == '.';
      assert (whole + tail)[|whole| + 1..] == fraction;
    }
  }

  /** Conversely, every word that matches the pattern splits into those parts. */
  lemma {:induction false} NumeralSplits(w: string)
    requires IsNumeral(w)
    ensures
      var body := Unsigned(w);
      var k := DigitRun(body);
      var point := k < |body|;
      w == NumeralText(|w| > 0 && w[0] == '-', body[..k], point, if point then body[k + 1..] else [])
  {
    var body := Unsigned(w);
    var k := DigitRun(body);
    var point := k < |body|;
    var fraction := if point then body[k + 1..] else [];
    assert body == body[..k] + (if point then "." else "") + fraction by {
      if point {
        assert body[k] == '.';
        assert body == body[..k] + [body[k]] + body[k + 1..];
      } else {
        assert body[..k] == body;
      }
    }
    if |w| > 0 && w[0] == '-' {
      assert w == "-" + body;
    } else {
      assert w == body;
    }
  }

  /** Value of a run of decimal digits. */
  function DigitsValue(d: string): nat
    requires AllDigits(d)
  {
    if d == [] then 0
    else 10 * DigitsValue(d[..|d| - 1]) + (d[|d| - 1] as int - '0' as int)
  }

  function Pow10(n: nat): (p: nat)
    ensures p > 0
  {
    if n == 0 then 1 else 10 * Pow10(n - 1)
  }

  /** The exact number a numeral denotes (JavaScript's `Number(s)` without rounding). */
  function NumeralValue(w: string): real
    requires IsNumeral(w)
  {
    var body := Unsigned(w);
    var k := DigitRun(body);
    var fraction := if k < |body| then body[k + 1..] else [];
    var magnitude := DigitsValue(body[..k]) as real + DigitsValue(fraction) as real / Pow10(|fraction|) as real;
    if |w| > 0 && w[0] == '-' then -magnitude else magnitude
  }

  /** A word becomes a number exactly when it matches the numeral pattern, and
      otherwise stays the same word as a symbol. */
  function NumberOrSymbol(w: string): (t: Tree)
    ensures t.Num? <==> IsNumeral(w)
    ensures t.Sym? <==> !IsNumeral(w)
    ensures t.Sym? ==> t.name == w
  {
    if IsNumeral(w) then Num(NumeralValue(w)) else Sym(w)
  }

  lemma IntegerNumeralExample(w: string)
    requires w == "42"
    ensures NumberOrSymbol(w) == Num(42.0)
  {
    NumeralTextMatches(false, w, false, "");
    assert NumeralText(false, w, false, "") == w;
    assert DigitRun(w) == 2 by { DigitRunOfDigits(w, ""); assert w + "" == w; }
    assert w[..2] == w;
    assert DigitsValue(w) == 42 by {
      assert w[..1][..0] == "" && w[..1][0] == '4';
      assert DigitsValue(w[..1]) == 4;
      assert w[..|w| - 1] == w[..1] && w[|w| - 1] == '2';
    }
  }

  lemma SignedDecimalExample(w: string)
    requires w == "-2.5"
    ensures NumberOrSymbol(w) == Num(-2.5)
  {
    var body := w[1..];
    NumeralTextMatches(true, body[..1], true, body[2..]);
    assert NumeralText(true, body[..1], true, body[2..]) == w;
    assert Unsigned(w) == body;
    assert DigitRun(body) == 1 by { DigitRunOfDigits(body[..1], body[1..]); assert body[..1] + body[1..] == body; }
    assert DigitsValue(body[..1]) == 2 by { assert body[..1][..0] == ""; }
    assert DigitsValue(body[2..]) == 5 by { assert body[2..][..0] == ""; }
  }

  lemma TrailingPointExample(w: string)
    requires w == "1."
    ensures NumberOrSymbol(w) == Num(1.0)
  {
    NumeralTextMatches(false, w[..1], true, "");
    assert NumeralText(false, w[..1], true, "") == w;
    assert DigitRun(w) == 1 by { DigitRunOfDigits(w[..1], w[1..]); assert w[..1] + w[1..] == w; }
    assert w[2..] == "";
    assert DigitsValue(w[..1]) == 1 by { assert w[..1][..0] == ""; }
  }

  lemma SymbolExamples(minus: string, point: string, dots: string)
    requires minus == "-" && point == ".5" && dots == "1.2.3"
    ensures NumberOrSymbol(minus) == Sym(minus)
    ensures NumberOrSymbol(point) == Sym(point)
    ensures NumberOrSymbol(dots) == Sym(dots)
  {
    assert Unsigned(minus) == "";
    assert DigitRun(point) == 0;
    assert DigitRun(dots) == 1 by { DigitRunOfDigits(dots[..1], dots[1..]); assert dots[..1] + dots[1..] == dots; }
    assert dots[2..][1] == '.';
  }

  /** A single decimal digit is a numeral denoting its own value. */
  lemma DigitNumeral(w: string)
    requires |w| == 1 && IsDigit(w[0])
    ensures NumberOrSymbol(w) == Num((w[0] as int - '0' as int) as real)
  {
    DigitRunOfDigits(w, "");
    assert w + "" == w;
    assert w[..1] == w && w[..0] == "";
  }

  /** A word that does not start with a digit or a minus sign is a symbol. */
  lemma LetterWordIsSymbol(w: string)
    requires |w| > 0 && !IsDigit(w[0]) && w[0] != '-'
    ensures NumberOrSymbol(w) == Sym(w)
  {
  }
}
