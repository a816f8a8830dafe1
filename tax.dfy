/** The progressive income-tax walk of `FinancialYear.calculate_tax`:
    a five-band table of (lower, upper, rate), applied once to the operator's
    permanent income and once to the business earnings. */
module Tax {
  import opened Money

  /** The upper end of a band: a finite limit, or `float('inf')`. */
  datatype Ceiling = Capped(limit: real) | Unbounded

  datatype Bracket = Bracket(lower: real, upper: Ceiling, rate: real)

  /** The table exactly as the code writes it: the lower bound of every band
      but the first is one dollar above the previous band's upper bound. */
  const Brackets: seq<Bracket> := [
    Bracket(0.0, Capped(14000.0), 0.105),
    Bracket(14001.0, Capped(48000.0), 0.175),
    Bracket(48001.0, Capped(70000.0), 0.30),
    Bracket(70001.0, Capped(180000.0), 0.33),
    Bracket(180001.0, Unbounded, 0.39)
  ]

  /** The contiguous table the band comments describe ("over $14,000 up to
      $48,000", ...): each band starts where the previous one ends. */
  const IntendedBrackets: seq<Bracket> := [
    Bracket(0.0, Capped(14000.0), 0.105),
    Bracket(14000.0, Capped(48000.0), 0.175),
    Bracket(48000.0, Capped(70000.0), 0.30),
    Bracket(70000.0, Capped(180000.0), 0.33),
    Bracket(180000.0, Unbounded, 0.39)
  ]

  /** No band starts below zero and no rate is negative. */
  predicate WellFormed(table: seq<Bracket>) {
    forall i :: 0 <= i < |table| ==> table[i].lower >= 0.0 && table[i].rate >= 0.0
  }

  /** `min(income, upper)`. */
  function Cap(c: Ceiling, income: real): real {
    match c
    case Unbounded => income
    case Capped(u) => if u < income then u else income
  }

  /** The part of `income` the walk taxes in band `b`: only when the income
      exceeds the band's lower bound, and only when `min(income, upper) - lower`
      is positive. */
  function Taxable(b: Bracket, income: real): (t: real)
    ensures t >= 0.0
    ensures t > 0.0 <==> income > b.lower && (b.upper.Capped? ==> b.upper.limit > b.lower)
    ensures t <= if income > b.lower then income - b.lower else 0.0
  {
    if income > b.lower then
      var t := Cap(b.upper, income) - b.lower;
      if t > 0.0 then t else 0.0
    else 0.0
  }

  /** The tax the walk adds for band `b`. */
  function Contribution(b: Bracket, income: real): real {
    Taxable(b, income) * b.rate
  }

  /** The unrounded tax on `income`: the sum of every band's contribution,
      taken in table order. */
  function TaxOwed(table: seq<Bracket>, income: real): real {
    if table == [] then 0.0
    else TaxOwed(table[..|table| - 1], income) + Contribution(table[|table| - 1], income)
  }

  /** The amount of income that the walk taxes at some rate. */
  function TaxedIncome(table: seq<Bracket>, income: real): real {
    if table == [] then 0.0
    else TaxedIncome(table[..|table| - 1], income) + Taxable(table[|table| - 1], income)
  }

  /** `calculate_tax_for_income`: accumulate `rate * (min(income, upper) - lower)`
      over the bands in order, without rounding. */
  method TaxForIncome(table: seq<Bracket>, income: real) returns (owed: real)
    ensures owed == TaxOwed(table, income)
  {
    owed := 0.0;
    var remaining := income;
    var i := 0;
    while i < |table|
      invariant 0 <= i <= |table|
      invariant owed == TaxOwed(table[..i], income)
    {
      var b := table[i];
      if remaining > b.lower {
        var taxable := Cap(b.upper, remaining) - b.lower;
        if taxable > 0.0 {
          owed := owed + taxable * b.rate;
        }
      }
      assert table[..i + 1][..i] == table[..i];
      i := i + 1;
    }
    assert table[..i] == table;
  }

  /** The earnings figure the walk is applied to: with GST registration the
      earnings are taken to include GST and the exclusive part is used. */
  function BusinessIncome(earnings: real, gstRegistered: bool): (r: real)
    ensures gstRegistered ==> r * (1.0 + GstRate) == earnings
    ensures !gstRegistered ==> r == earnings
    ensures earnings >= 0.0 ==> 0.0 <= r <= earnings
  {
    if gstRegistered then earnings / (1.0 + GstRate) else earnings
  }

  /** `FinancialYear.calculate_tax`: the tax on the permanent income and the
      tax on the business earnings, each walked from zero on its own and
      rounded to the cent only as a total. The permanent figure depends on
      nothing but the permanent income. */
  method CalculateTax(permanentIncome: real, earnings: real, gstRegistered: bool)
    returns (permanentTax: real, earningsTax: real)
    ensures permanentTax == RoundCents(TaxOwed(Brackets, permanentIncome))
    ensures earningsTax == RoundCents(TaxOwed(Brackets, BusinessIncome(earnings, gstRegistered)))
  {
    var owedPermanent := TaxForIncome(Brackets, permanentIncome);
    var owedEarnings: real;
    if gstRegistered {
      var earningsExcludingGst := earnings / (1.0 + GstRate);
      owedEarnings := TaxForIncome(Brackets, earningsExcludingGst);
    } else {
      owedEarnings := TaxForIncome(Brackets, earnings);
    }
    permanentTax, earningsTax := RoundCents(owedPermanent), RoundCents(owedEarnings);
  }

  // ----- properties of the walk, for any well-formed table -----

  lemma WellFormedPrefix(table: seq<Bracket>, k: nat)
    requires WellFormed(table) && k <= |table|
    ensures WellFormed(table[..k])
  {
  }

  /** No income at or below zero is taxed. */
  lemma {:induction false} TaxOwedZeroAtOrBelowZero(table: seq<Bracket>, income: real)
    requires WellFormed(table) && income <= 0.0
    ensures TaxOwed(table, income) == 0.0
  {
    if table != [] {
      WellFormedPrefix(table, |table| - 1);
      TaxOwedZeroAtOrBelowZero(table[..|table| - 1], income);
    }
  }

  /** No band ever contributes a negative amount. */
  lemma {:induction false} TaxOwedNonNegative(table: seq<Bracket>, income: real)
    requires WellFormed(table)
    ensures TaxOwed(table, income) >= 0.0
  {
    if table != [] {
      WellFormedPrefix(table, |table| - 1);
      TaxOwedNonNegative(table[..|table| - 1], income);
      var b := table[|table| - 1];
      assert Taxable(b, income) * b.rate >= 0.0;
    }
  }

  lemma ContributionMonotone(b: Bracket, x: real, y: real)
    requires x <= y && b.rate >= 0.0
    ensures Contribution(b, x) <= Contribution(b, y)
  {
    var gain := Taxable(b, y) - Taxable(b, x);
    assert gain >= 0.0;
    assert gain * b.rate >= 0.0;
  }

  /** More income never means less tax. */
  lemma {:induction false} TaxOwedMonotone(table: seq<Bracket>, x: real, y: real)
    requires WellFormed(table) && x <= y
    ensures TaxOwed(table, x) <= TaxOwed(table, y)
  {
    if table != [] {
      WellFormedPrefix(table, |table| - 1);
      TaxOwedMonotone(table[..|table| - 1], x, y);
      ContributionMonotone(table[|table| - 1], x, y);
    }
  }

  lemma BracketsWellFormed()
    ensures WellFormed(Brackets) && WellFormed(IntendedBrackets)
  {
  }

  // ----- the written table in closed form -----

  /** The written table's tax as a piecewise-linear function of income: the
      slope is the rate of the band the income falls in, and it is flat over
      the one-dollar gap above every band's upper bound. */
  function BandTax(income: real): real {
    if income <= 0.0 then 0.0
    else if income <= 14000.0 then 0.105 * income
    else if income <= 14001.0 then 1470.0
    else if income <= 48000.0 then 1470.0 + 0.175 * (income - 14001.0)
    else if income <= 48001.0 then 7419.825
    else if income <= 70000.0 then 7419.825 + 0.30 * (income - 48001.0)
    else if income <= 70001.0 then 14019.525
    else if income <= 180000.0 then 14019.525 + 0.33 * (income - 70001.0)
    else if income <= 180001.0 then 50319.195
    else 50319.195 + 0.39 * (income - 180001.0)
  }

  lemma TaxOwedSnoc(table: seq<Bracket>, b: Bracket, income: real)
    ensures TaxOwed(table + [b], income) == TaxOwed(table, income) + Contribution(b, income)
    ensures TaxedIncome(table + [b], income) == TaxedIncome(table, income) + Taxable(b, income)
  {
    assert (table + [b])[..|table|] == table;
  }

  /** The walk over a five-band table is the sum of the five contributions. */
  lemma TaxOwedFive(t: seq<Bracket>, income: real)
    requires |t| == 5
    ensures TaxOwed(t, income) == Contribution(t[0], income) + Contribution(t[1], income)
      + Contribution(t[2], income) + Contribution(t[3], income) + Contribution(t[4], income)
    ensures TaxedIncome(t, income) == Taxable(t[0], income) + Taxable(t[1], income)
      + Taxable(t[2], income) + Taxable(t[3], income) + Taxable(t[4], income)
  {
    assert t == [] + [t[0]] + [t[1]] + [t[2]] + [t[3]] + [t[4]];
    TaxOwedSnoc([], t[0], income);
    TaxOwedSnoc([t[0]], t[1], income);
    TaxOwedSnoc([t[0], t[1]], t[2], income);
    TaxOwedSnoc([t[0], t[1], t[2]], t[3], income);
    TaxOwedSnoc([t[0], t[1], t[2], t[3]], t[4], income);
    assert [t[0], t[1], t[2], t[3]] + [t[4]] == t;
  }

  /** The walk over the written table agrees with the closed form. */
  lemma TaxOwedMatchesBands(income: real)
    ensures TaxOwed(Brackets, income) == BandTax(income)
  {
    TaxOwedFive(Brackets, income);
  }

  /** Up to $14,000 the tax is 10.5% of income, anything from $14,000 to
      $14,001 pays exactly $1,470, and the tax never exceeds the top rate
      applied to the whole income. */
  lemma FirstBandAndGap(income: real)
    ensures 0.0 <= income <= 14000.0 ==> TaxOwed(Brackets, income) == 0.105 * income
    ensures 14000.0 <= income <= 14001.0 ==> TaxOwed(Brackets, income) == 1470.0
    ensures income >= 0.0 ==> TaxOwed(Brackets, income) <= 0.39 * income
  {
    TaxOwedMatchesBands(income);
  }

  // ----- what calculate_tax promises -----

  /** Tax on any income at or below zero is zero, and taxes are never negative. */
  lemma CalculatedTaxBounds(income: real)
    ensures income <= 0.0 ==> RoundCents(TaxOwed(Brackets, income)) == 0.0
    ensures RoundCents(TaxOwed(Brackets, income)) >= 0.0
  {
    BracketsWellFormed();
    TaxOwedNonNegative(Brackets, income);
    RoundCentsMonotone(0.0, TaxOwed(Brackets, income));
    assert RoundCents(0.0) == 0.0 by { RoundCentsOfWholeCents(0.0); }
    if income <= 0.0 {
      TaxOwedZeroAtOrBelowZero(Brackets, income);
    }
  }

  /** The rounded tax on a larger income is never smaller. */
  lemma CalculatedTaxMonotone(x: real, y: real)
    requires x <= y
    ensures RoundCents(TaxOwed(Brackets, x)) <= RoundCents(TaxOwed(Brackets, y))
  {
    BracketsWellFormed();
    TaxOwedMonotone(Brackets, x, y);
    RoundCentsMonotone(TaxOwed(Brackets, x), TaxOwed(Brackets, y));
  }

  /** A GST-registered operator's business tax is never greater than an
      unregistered operator's on the same earnings. */
  lemma RegisteredNeverPaysMore(earnings: real)
    ensures RoundCents(TaxOwed(Brackets, BusinessIncome(earnings, true)))
         <= RoundCents(TaxOwed(Brackets, BusinessIncome(earnings, false)))
  {
    BracketsWellFormed();
    var registered := BusinessIncome(earnings, true);
    if earnings >= 0.0 {
      CalculatedTaxMonotone(registered, earnings);
    } else {
      assert registered <= 0.0;
      TaxOwedZeroAtOrBelowZero(Brackets, registered);
      TaxOwedZeroAtOrBelowZero(Brackets, earnings);
    }
  }

  // ----- the one-dollar gaps of the written table -----

  /** As written, an income of $48,000 has only $47,999 of it taxed, and the
      tax comes to 7419.825, which rounds to 7419.82 instead of 7420.00. */
  lemma WrittenBracketsSkipBoundaryDollars()
    ensures TaxedIncome(Brackets, 48000.0) == 47999.0
    ensures TaxOwed(Brackets, 48000.0) == 7419.825
    ensures RoundCents(TaxOwed(Brackets, 48000.0)) == 7419.82
  {
    TaxOwedFive(Brackets, 48000.0);
    assert (741982.5).Floor == 741982;
  }

  /** With contiguous bands every dollar of a non-negative income is taxed
      exactly once. */
  lemma IntendedBracketsTaxEveryDollar(income: real)
    requires income >= 0.0
    ensures TaxedIncome(IntendedBrackets, income) == income
  {
    TaxOwedFive(IntendedBrackets, income);
  }

  /** The contiguous table gives the published figures: $1,470 at $14,000
      and $7,420 at $48,000. */
  lemma IntendedBracketsFigures()
    ensures TaxOwed(IntendedBrackets, 14000.0) == 1470.0
    ensures TaxOwed(IntendedBrackets, 48000.0) == 7420.0
  {
    TaxOwedFive(IntendedBrackets, 14000.0);
    TaxOwedFive(IntendedBrackets, 48000.0);
  }
}
