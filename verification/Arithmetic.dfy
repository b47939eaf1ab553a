/** Arithmetic that other modules use by name, so that its meaning can be hidden where only its laws are needed. */
module Arithmetic {

  // ----- Reals

  function Abs(x: real): real {
    if x < 0.0 then -x else x
  }

  function Times(x: real, y: real): real {
    x * y
  }

  function Quotient(x: real, y: real): real
    requires y != 0.0
  {
    x / y
  }

  lemma TimesMinus(w: real, x: real, y: real)
    ensures Times(w, y - x) == Times(w, y) - Times(w, x)
  {
  }

  lemma TimesSign(x: real, k: real)
    requires k >= 0.0
    ensures x >= 0.0 ==> Times(x, k) >= 0.0
    ensures x <= 0.0 ==> Times(x, k) <= 0.0
  {
  }

  lemma TimesKeepsOrder(w: real, x: real, y: real)
    requires w >= 0.0 && x <= y
    ensures Times(w, x) <= Times(w, y)
  {
    hide Times;
    TimesSign(w, y - x);
    TimesMinus(w, x, y);
  }

  // ----- Integers

  function Product(x: int, y: int): int {
    x * y
  }

  lemma ProductMinus(x: int, y: int, k: int, l: int)
    ensures Product(x, l) - Product(x, k) == Product(x, l - k)
    ensures Product(x, k) - Product(y, k) == Product(x - y, k)
  {
  }

  lemma ProductSign(x: int, k: int)
    requires k >= 0
    ensures x >= 0 ==> Product(x, k) >= 0
    ensures x <= 0 ==> Product(x, k) <= 0
  {
  }
}
