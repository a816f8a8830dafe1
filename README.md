# Tax, GST and depreciation core of a New Zealand bookkeeping app

This project models the arithmetic core of a small Django bookkeeping app in Dafny. The app is for one operator who records earnings and expenses per New Zealand financial year (1 April to 31 March). The model covers:

- the progressive income-tax walk of `FinancialYear.calculate_tax`, applied once to the permanent income and once to the business earnings (made GST-exclusive when the operator is GST-registered);
- the GST that `Expense.save` and `Earning.save` derive from the amount;
- the depreciation rules of an expense;
- the `create_depreciation` signal handler, which writes one Depreciation row per year of a good's schedule and get-or-creates the FinancialYear of each year;
- the PersonalDetails guard, which admits only one record;
- the rule that gives the financial year of a date.

Modules:

- `Money` (`money.dfy`): rounding to the cent the way Python's `round(Decimal, 2)` does it (half-even), and the GST rate.
- `Tax` (`tax.dfy`): the bracket table, the walk as a specification function `TaxOwed` and as the looping method `TaxForIncome`, `CalculateTax`, and the lemmas about them.
- `Models` (`models.dfy`): the financial year of a date, the PersonalDetails table as a class, GST, and the `Expense` and `Earning` classes.
- `Signals` (`signals.dfy`): the FinancialYear and Depreciation tables as a class, and `CreateDepreciation`.

Money is an exact rational (`real`). The rate literals of the code (0.105, 0.175, 0.30, 0.33, 0.39, 0.15) are exact fractions. The top band is `Unbounded` where the code writes `float('inf')`.

The model does what the code does in three places where a reader might expect otherwise:

- the schedule length is `int(amount / (amount * rate / 100))`, that is ⌊100/rate⌋ years, whatever the amount;
- rounding to the cent is half-even (ROUND_HALF_EVEN), so a tie goes to the even cent;
- the code does not validate a depreciation rate: a rate on a good of 500 or less, or a rate outside [0, 100], is accepted, and the model accepts it too;
- the code's band lower bounds are 14001, 48001, 70001 and 180001, not 14000, 48000, 70000 and 180000 (see Findings).

Inputs that the code reads from the world are parameters here. `CalculateTax` takes the permanent income where the code calls `PersonalDetails.objects.first()`. `FinancialYearOf` takes the year and month where the code reads `timezone.now()`. The database tables are fields of the classes `PersonalDetailsTable` and `Store`.

## Model

| member | source | states |
|---|---|---|
| `Money.RoundHalfEven` | finance/models.py:54 | the result is an integer at most one half from `x`, and on a tie it is the even one |
| `Money.RoundHalfEvenUnique` | finance/models.py:54 | any integer with those two properties is the rounded value, so they define the rounding |
| `Money.RoundHalfEvenMonotone` | finance/models.py:54 | rounding never reverses the order of two values |
| `Money.RoundCents` | finance/models.py:54 | `round(x, 2)` is a whole number of cents within half a cent of `x`, and on a tie it is the even cent |
| `Money.RoundCentsMonotone` | finance/models.py:54 | rounding to the cent keeps the order of two amounts |
| `Money.RoundCentsOfWholeCents` | finance/models.py:118 | an amount already in whole cents is not changed by rounding |
| `Tax.Taxable` | finance/models.py:37-41 | a band's taxed part is never negative; it is positive exactly when the income is above the band's lower bound (and the band is not empty); it never exceeds the income above that bound |
| `Tax.TaxForIncome` | finance/models.py:33-42 | the loop's accumulated, unrounded total is the sum over the bands, in table order, of `rate * (min(income, upper) - lower)` for every band whose lower bound the income exceeds |
| `Tax.BusinessIncome` | finance/models.py:47-52 | when registered, the figure walked is the earnings with GST taken out (it times 1.15 gives the earnings); otherwise it is the earnings; for non-negative earnings it lies between 0 and the earnings |
| `Tax.CalculateTax` | finance/models.py:19-54 | returns the pair (rounded tax on the permanent income, rounded tax on the business income); the first depends on the permanent income alone; each stream is walked from zero on its own and is rounded only as a total |
| `Tax.TaxOwedZeroAtOrBelowZero` | finance/models.py:37-38 | for any table whose bands start at or above zero, an income at or below zero owes nothing |
| `Tax.TaxOwedNonNegative` | finance/models.py:39-41 | with non-negative rates, no band adds a negative amount, so the tax is never negative |
| `Tax.TaxOwedMonotone` | finance/models.py:37-42 | with non-negative rates, a larger income never owes less tax |
| `Tax.BracketsWellFormed` | finance/models.py:25-31 | the written table (and the corrected one) have non-negative lower bounds and rates |
| `Tax.TaxOwedMatchesBands` | finance/models.py:25-42 | the walk over the written table equals an independent piecewise-linear formula. Its slope is the rate of the band the income falls in, and it is flat across each one-dollar gap between bands |
| `Tax.FirstBandAndGap` | finance/models.py:26-27 | up to 14000 the tax is 10.5% of income; every income in [14000, 14001] pays exactly 1470; the tax never exceeds 39% of a non-negative income |
| `Tax.CalculatedTaxBounds` | finance/models.py:44-54 | each rounded figure is never negative, and it is 0 for an income at or below zero |
| `Tax.CalculatedTaxMonotone` | finance/models.py:44-54 | the rounded tax is non-decreasing in income |
| `Tax.RegisteredNeverPaysMore` | finance/models.py:47-52 | on the same earnings, the business tax of a GST-registered operator is never greater than that of an unregistered one |
| `Tax.WrittenBracketsSkipBoundaryDollars` | finance/models.py:27-30 | as written, an income of 48000 has only 47999 of it taxed; the tax is 7419.825, which rounds to 7419.82 |
| `Tax.IntendedBracketsTaxEveryDollar` | finance/models.py:26-30 | with contiguous bands, every dollar of a non-negative income is taxed exactly once |
| `Tax.IntendedBracketsFigures` | finance/models.py:26-27 | with contiguous bands the tax is 1470 at 14000 and 7420 at 48000 |
| `Models.FinancialYearOf` | finance/models.py:10-13 | the result is the financial year that holds the given month: its April-to-December months fall in that calendar year and its January-to-March months in the next |
| `Models.FinancialYearUnique` | finance/models.py:12-13 | a month lies in only one financial year |
| `Models.FinancialYearOfOrdered` | finance/models.py:10-13 | a later month never falls in an earlier financial year |
| `Models.PersonalDetailsTable.Clean` | finance/models.py:65-68 | saving fails with a ValidationError exactly when a record already exists and the record being saved has no key (`not self.pk`, which includes key 0) |
| `Models.PersonalDetailsTable.Save` | finance/models.py:70-73 | a rejected save leaves the table unchanged; a new record into the empty table is inserted under a fresh key; a record with a stored key replaces that row in place; the next key grows by one after a fresh insert, stays after an update, and moves past an explicit new key; the table keeps unique keys; a table of at most one row stays at most one row when the record saved is new or is the stored one |
| `Models.UnknownKeyBypassesGuard` | finance/models.py:65-73 | after a new record, a record that carries a key no row has is inserted, leaving two rows |
| `Models.InclusiveGst` | finance/models.py:141-142 | expense GST is 15% of what remains once it is taken out, that is 3/23 of the amount; for a positive amount it lies strictly between 0 and the amount |
| `Models.ExclusiveGst` | finance/models.py:160 | for earnings, adding the 15% GST to an amount and then extracting the GST from the total gives back that GST |
| `Models.GstRoundTrip` | finance/models.py:141-142 | the 15% of what is left after extracting expense GST is the extracted GST |
| `Models.QuotientIsHundredOverRate` | finance/models.py:110-111 | `amount / (amount * rate / 100)` times the rate is 100 for any non-zero amount |
| `Models.WholeYearsFitRate` | finance/models.py:111 | the whole part `n` of `100 / rate` satisfies `n * rate <= 100 < (n + 1) * rate` |
| `Models.NoYearAboveHundred` | finance/models.py:111 | a rate above 100 leaves no whole year |
| `Models.Expense.ShouldDepreciate` | finance/models.py:103-105 | holds exactly when the expense is a good and its amount is above 500 |
| `Models.QualifyingGoodHasYears` | finance/models.py:103-111 | an expense that should depreciate always gets a number of years: its amount is above 500, so the division in `depreciation_years` is defined |
| `Models.Expense.DepreciationYears` | finance/models.py:107-112 | 0 when the rate is missing or not positive; otherwise the number of years `n` with `n * rate <= 100 < (n + 1) * rate`, which is 0 above 100%; a zero amount with a positive rate fails (`0 / 0`) |
| `Models.Expense.CalculateDepreciation` | finance/models.py:114-119 | 0 for a non-good or a missing or zero rate; otherwise the flat write-off of the amount at the rate, a whole number of cents within half a cent of `amount * rate / 100` |
| `Models.Expense.CalculateDepreciationForYear` | finance/models.py:133-137 | whatever the year, the write-off is `calculate_depreciation()`, and the current value plus the write-off is the amount |
| `Models.FlatWriteOff` | finance/models.py:117-118 | the rate's share of the amount rounded to a whole number of cents, within half a cent of `amount * rate / 100`, the even cent on a tie |
| `Models.RateShareWithinWhole` | finance/models.py:117-118 | a rate in [0, 100] takes a share of a non-negative amount that lies between 0 and the amount |
| `Models.RoundedWriteOffWithinAmount` | finance/models.py:117-118 | for a non-negative whole-cent amount and a rate in [0, 100], the rounded share lies between 0 and the amount |
| `Models.WriteOffWithinAmount` | finance/models.py:114-119 | for a non-negative whole-cent amount and a rate in [0, 100], the write-off lies between 0 and the amount |
| `Models.Expense.Save` | finance/models.py:139-143 | only `gst` changes, and it becomes the GST contained in the amount |
| `Models.Earning.Save` | finance/models.py:158-161 | only `gst` changes, and it becomes 15% of the amount |
| `Signals.ScheduleShape` | finance/signals.py:10-20 | a schedule of `n` years has `n` rows in ascending years; years to zero strictly decrease from `n` to 1; every row names the expense and has the same current value and write-off |
| `Signals.Store.GetOrCreateFinancialYear` | finance/signals.py:11 | a year already present is reused and nothing changes; a missing year is appended; years stay unique |
| `Signals.Store.CreateDepreciationRow` | finance/signals.py:14-20 | the row is appended after the existing rows |
| `Signals.CreateDepreciation` | finance/signals.py:6-20 | nothing changes unless the expense was just created, is a good and costs more than 500. Otherwise the existing rows are kept and one row per schedule year is appended: row `i` is for `purchase year + i`, with `years - i` years to zero, the flat write-off and `amount - write-off`. Afterwards a FinancialYear exists for exactly the old years plus the schedule's years; the old ones are kept in place, the missing ones come after in ascending order, and none is duplicated |
| `Signals.NoScheduleWithoutUsableRate` | finance/signals.py:9-10 | a qualifying good whose rate is missing, not positive or above 100 gets a schedule of 0 years, so nothing is written |

## Findings

| source | as written | input that shows it | evidently intended | confidence | as-written member | corrected member |
|---|---|---|---|---|---|---|
| finance/models.py:27-30 | each band after the first starts one dollar above the previous band's upper bound (14001, 48001, 70001, 180001), so the income between 14000 and 14001, 48000 and 48001, and so on, is taxed in no band | income 48000: only 47999 is taxed, and the tax is 7419.825, rounded 7419.82 | each band starts where the previous one ends, as the band comments say ("over $14,000 up to $48,000"), so the tax at 48000 is 7420.00 | high; not executed | `Tax.WrittenBracketsSkipBoundaryDollars` | `Tax.IntendedBracketsTaxEveryDollar` |

The corrected table is `Tax.IntendedBrackets`. `Tax.IntendedBracketsFigures` gives its published figures. `TaxOwedZeroAtOrBelowZero`, `TaxOwedNonNegative` and `TaxOwedMonotone` are proved for any well-formed table, so they hold for both tables. `CalculateTax` keeps the written table, so that it states what the code computes.

## Left out

- Floating point: `permanent_income` and `depreciation_rate` are FloatFields. The rate literals are floats wrapped in `Decimal(...)`. The top band is `float('inf')`. Decimal division rounds to 28 significant digits. The model uses exact rationals instead.
- Tax.CalculateTax: does not model the missing-record case of `PersonalDetails.objects.first()`, which gives `None` and then an AttributeError. The permanent income is a parameter.
- Models.FinancialYearOf: the clock read `timezone.now()` is replaced by the year and month passed in.
- Models.PersonalDetailsTable.Save: the field checks that `full_clean` does besides `clean` (`max_length`, e-mail format, uniqueness) are Django's own validation and are not modelled. Neither is the race between check and write, a concurrency concern.
- Models.Expense.Save, Models.Earning.Save: Django quantises DecimalFields to two places when it writes them; the model keeps the exact GST. Coercing the amount to `Decimal` leaves its value unchanged, so only `gst` is assigned.
- Models.Expense.DepreciationYears: a NaN or infinite float rate is not modelled.
- Signals.CreateDepreciation: the `post_save` wiring and the atomicity of the batch belong to the framework and the database. `get_or_create` with two rows for one year would raise MultipleObjectsReturned; the model instead requires the store to keep years unique (`Store.Valid`).
- `Expense.tax_impact` calls `calculate_tax` with one argument and subtracts from the tuple it returns, so it cannot run as written; it is not modelled.
- The views' yearly totals are ORM `Sum` aggregates, and their calls to `calculate_tax` pass one argument where it takes two. The forms, admin, URLs and migration are configuration. `BusinessCost` is a record with no logic. The never-called `create_default_personal_details` in finance/apps.py is not modelled either.
- File attachments, and the `financial_year` foreign keys of Expense and Earning, are pass-through data that no modelled operation reads.
