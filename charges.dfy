/** Tax and service: each is entered either as a percentage of the bill or
    as a fixed amount, and is resolved to an amount before it is split. */
module Charges {

  /** The two input modes of the "Tax" and "Service" radio buttons. */
  datatype Charge = Percent(rate: real) | Fixed(amount: real)

  /** The number fields behind both modes have minimum 0. */
  predicate NonNegative(c: Charge) {
    match c
    case Percent(p) => p >= 0.0
    case Fixed(a) => a >= 0.0
  }

  /** `computed_tax` / `computed_service`: a fixed amount as it is, a
      percentage as `total_bill * (p / 100)`. A charge entered through the
      form is never negative on a non-negative bill. */
  function Resolve(c: Charge, totalBill: real): (r: real)
    ensures NonNegative(c) && totalBill >= 0.0 ==> r >= 0.0
  {
    match c
    case Fixed(a) => a
    case Percent(p) => totalBill * (p / 100.0)
  }

  /** `grand_total`: the bill with both charges added. */
  function GrandTotal(totalBill: real, tax: real, service: real): real {
    totalBill + tax + service
  }

  /** A fixed charge does not depend on the bill. */
  lemma FixedIgnoresBill(a: real, bill1: real, bill2: real)
    ensures Resolve(Fixed(a), bill1) == Resolve(Fixed(a), bill2) == a
  {
  }

  /** A percentage charge is `p` hundredths of the bill: linear in the bill,
      the whole bill at 100 and nothing at 0. */
  lemma PercentOfBill(p: real, bill1: real, bill2: real)
    ensures Resolve(Percent(p), bill1) * 100.0 == bill1 * p
    ensures Resolve(Percent(p), bill1 + bill2) == Resolve(Percent(p), bill1) + Resolve(Percent(p), bill2)
    ensures Resolve(Percent(100.0), bill1) == bill1
    ensures Resolve(Percent(0.0), bill1) == 0.0
  {
  }
}
