/**
 Amounts as the ledger computes with them: integers whose sums are accepted exactly when the two-limb
 sum is, as Amounts.AddIsExact shows. FITS_ODDLY is the one sum outside the 38-digit bound that the range
 check lets through. Subtracting FITS_ODDLY itself adds it on the limbs (Amounts.SubIsExact); the totals of
 reachable accounts are never negative, so the ledger never does.
 */
module Money {
  import opened Wrappers

  const MAX_AMOUNT: int := 99_999_999_999_999_999_999_999_999_999_999_999_999
  const FITS_ODDLY: int := -0x8000_0000_0000_0000_0000_0000_0000_0000

  predicate InBound(x: int) {
    -MAX_AMOUNT <= x <= MAX_AMOUNT
  }

  predicate Fits(x: int) {
    InBound(x) || x == FITS_ODDLY
  }

  function Add(a: int, b: int): Option<int> {
    if Fits(a + b) then Some(a + b) else None
  }

  function Sub(a: int, b: int): Option<int> {
    Add(a, -b)
  }
}
