// src/utils/currency.ts: conversion between the store's three currencies
// over a fixed rate table (rates relative to USD), rounding to cents with
// `toFixed(2)`, and the guard of the price formatter.

module Currency {
  import opened Common

  /** A value passed where a price is expected: a number, or something
      `typeof x !== 'number' || isNaN(x)` rejects. */
  datatype PriceInput = Number(value: real) | NotANumber

  const USD: string := "USD"
  const ILS: string := "ILS"
  const EUR: string := "EUR"

  predicate IsKnown(code: string)
  {
    code == USD || code == ILS || code == EUR
  }

  /** The exchange-rate table: units of the currency per US dollar. */
  function Rate(code: string): (r: real)
    requires IsKnown(code)
    ensures r > 0.0
  {
    if code == USD then 1.0 else if code == ILS then 3.6 else 0.92
  }

  /** A whole number of cents. */
  predicate IsCents(x: real)
  {
    (x * 100.0).Floor as real == x * 100.0
  }

  /** n cents. */
  lemma WholeCents(n: int)
    ensures IsCents(n as real / 100.0)
  {
    assert n as real / 100.0 * 100.0 == n as real;
  }

  lemma NegatedCents(x: real)
    requires IsCents(x)
    ensures IsCents(-x)
  {
    var k := (x * 100.0).Floor;
    assert -x * 100.0 == (-k) as real;
  }

  /** Rounding a magnitude to the nearest cent, halves upward. */
  function RoundUpCents(m: real): (r: real)
    requires m >= 0.0
    ensures IsCents(r) && r >= 0.0
    ensures -0.005 <= r - m <= 0.005
  {
    var n := (m * 100.0 + 0.5).Floor;
    assert n as real <= m * 100.0 + 0.5 < n as real + 1.0;
    WholeCents(n);
    n as real / 100.0
  }

  /** `Number(x.toFixed(2))`: the nearest cent, halves rounded away from zero
      (toFixed rounds the magnitude and keeps the sign). */
  function RoundCents(x: real): (r: real)
    ensures IsCents(r)
    ensures -0.005 <= r - x <= 0.005
    ensures x >= 0.0 ==> r >= 0.0
  {
    if x >= 0.0 then RoundUpCents(x)
    else
      var m := RoundUpCents(-x);
      NegatedCents(m);
      -m
  }

  /** The exact value of `price` in `to`, before rounding. */
  function Exact(price: real, from: string, to: string): real
    requires IsKnown(from) && IsKnown(to)
  {
    price / Rate(from) * Rate(to)
  }

  /** `convertPrice(price, fromCurrency, toCurrency)` */
  function ConvertPrice(price: PriceInput, from: string, to: string): (r: real)
    ensures price.NotANumber? ==> r == 0.0
    ensures price.Number? && from == to ==> r == price.value
    ensures price.Number? && from != to && !(IsKnown(from) && IsKnown(to)) ==> r == price.value
    ensures price.Number? && from != to && IsKnown(from) && IsKnown(to) ==>
              IsCents(r) && -0.005 <= r - Exact(price.value, from, to) <= 0.005
  {
    match price
    case NotANumber => 0.0
    case Number(p) =>
      if from == to then p
      else if !IsKnown(from) || !IsKnown(to) then p
      else
        var usdAmount := if from == USD then p else p / Rate(from);
        RoundCents(usdAmount * Rate(to))
  }

  /** Converting to another known currency and back lands within 2.5 cents
      of the starting price (two roundings, the first one scaled by at most
      3.6 / 0.92). */
  lemma ConvertRoundTrip(x: real, a: string, b: string)
    requires IsKnown(a) && IsKnown(b) && a != b
    ensures var y := ConvertPrice(Number(x), a, b);
            -0.025 <= ConvertPrice(Number(y), b, a) - x <= 0.025
  {
    var y := ConvertPrice(Number(x), a, b);
    var z := ConvertPrice(Number(y), b, a);
    assert -0.005 <= y - Exact(x, a, b) <= 0.005;
    assert -0.005 <= z - Exact(y, b, a) <= 0.005;
    // With the rates fixed, each pair is linear: the first rounding error
    // reaches z scaled by Rate(a) / Rate(b), which is below 4.
    if a == USD && b == ILS {
      assert Exact(y, b, a) - x == (y - Exact(x, a, b)) / 3.6;
    } else if a == USD && b == EUR {
      assert Exact(y, b, a) - x == (y - Exact(x, a, b)) / 0.92;
    } else if a == ILS && b == USD {
      assert Exact(y, b, a) - x == (y - Exact(x, a, b)) * 3.6;
    } else if a == ILS && b == EUR {
      assert Exact(y, b, a) - x == (y - Exact(x, a, b)) * 3.6 / 0.92;
    } else if a == EUR && b == USD {
      assert Exact(y, b, a) - x == (y - Exact(x, a, b)) * 0.92;
    } else {
      assert Exact(y, b, a) - x == (y - Exact(x, a, b)) * 0.92 / 3.6;
    }
  }

  /** `formatPrice(amount, currency)`: a placeholder for what is not a number;
      otherwise the locale formatter's text, or the plain number when the
      formatter throws (None). */
  function FormatPrice(amount: PriceInput, currency: string,
                       format: (real, string) -> Option<string>, plain: real -> string): (r: string)
    ensures amount.NotANumber? ==> r == "---"
    ensures amount.Number? && format(amount.value, currency).Some? ==> r == format(amount.value, currency).value
    ensures amount.Number? && format(amount.value, currency).None? ==> r == plain(amount.value)
  {
    match amount
    case NotANumber => "---"
    case Number(v) =>
      match format(v, currency)
      case Some(text) => text
      case None => plain(v)
  }
}
