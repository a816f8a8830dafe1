/** The records of the finance app and the rules they carry: the financial
    year a date falls in, the single PersonalDetails record, GST derived at
    save time for expenses and earnings, and the depreciation rules of an
    expense. */
module Models {
  import opened Money

  datatype Option<T> = None | Some(value: T)

  /** The exceptions the code can raise: Django's `ValidationError`, and the
      `InvalidOperation` that `Decimal` raises for `0 / 0`. */
  datatype Failure = ValidationError(message: string) | DivisionUndefined

  datatype Result<T> = Ok(value: T) | Err(failure: Failure)

  datatype Outcome = Pass | Fail(failure: Failure)

  datatype Date = Date(year: int, month: int, day: int)

  // ----- the financial year of a date -----

  /** The financial year that starts on 1 April of `fy` holds the months from
      April of `fy` to March of `fy + 1`. */
  predicate InFinancialYear(fy: int, year: int, month: int) {
    (year == fy && 4 <= month <= 12) || (year == fy + 1 && 1 <= month <= 3)
  }

  /** `get_current_financial_year`, with today's year and month passed in. */
  function FinancialYearOf(year: int, month: int): (fy: int)
    requires 1 <= month <= 12
    ensures InFinancialYear(fy, year, month)
  {
    if month >= 4 then year else year - 1
  }

  /** A month belongs to one financial year only. */
  lemma FinancialYearUnique(fy: int, year: int, month: int)
    requires InFinancialYear(fy, year, month)
    ensures fy == FinancialYearOf(year, month)
  {
  }

  /** A later month never falls in an earlier financial year. */
  lemma FinancialYearOfOrdered(y1: int, m1: int, y2: int, m2: int)
    requires 1 <= m1 <= 12 && 1 <= m2 <= 12
    requires y1 < y2 || (y1 == y2 && m1 <= m2)
    ensures FinancialYearOf(y1, m1) <= FinancialYearOf(y2, m2)
  {
  }

  // ----- PersonalDetails: one record only -----

  datatype PersonalDetails = PersonalDetails(
    pk: Option<nat>,
    gstRegistered: bool,
    firstName: string,
    lastName: string,
    email: string,
    phone: string,
    permanentIncome: real)

  /** `not self.pk`: no primary key, or the falsy key 0. */
  predicate Unsaved(record: PersonalDetails) {
    record.pk.None? || record.pk.value == 0
  }

  /** The position of the row whose key is `pk`, or `|rows|` when none has it. */
  function Find(rows: seq<PersonalDetails>, pk: nat): (i: nat)
    ensures i <= |rows|
    ensures i < |rows| ==> rows[i].pk == Some(pk)
    ensures forall j :: 0 <= j < i ==> rows[j].pk != Some(pk)
  {
    if rows == [] then 0
    else if rows[0].pk == Some(pk) then 0
    else 1 + Find(rows[1..], pk)
  }

  /** The PersonalDetails table: its rows and the next key the database hands out. */
  class PersonalDetailsTable {
    var rows: seq<PersonalDetails>
    var nextPk: nat

    /** Every stored row has a key below `nextPk`, and no two rows share one. */
    ghost predicate Valid()
      reads this
    {
      && nextPk >= 1
      && (forall i :: 0 <= i < |rows| ==> rows[i].pk.Some? && rows[i].pk.value < nextPk)
      && (forall i, j :: 0 <= i < j < |rows| ==> rows[i].pk != rows[j].pk)
    }

    constructor ()
      ensures Valid() && rows == [] && nextPk == 1
    {
      rows := [];
      nextPk := 1;
    }

    /** `PersonalDetails.clean`: a record without a key may not be saved
        while any record exists. */
    function Clean(record: PersonalDetails): (r: Outcome)
      reads this
      ensures r.Fail? <==> rows != [] && Unsaved(record)
      ensures r.Fail? ==> r.failure.ValidationError?
    {
      if |rows| > 0 && Unsaved(record) then
        Fail(ValidationError("Only one instance of PersonalDetails can exist."))
      else Pass
    }

    /** `PersonalDetails.save`: run `clean`, then insert a record that has no
        key (the database gives it the next key), update the row that has the
        record's key, or insert the record under its own key when no row has it. */
    method Save(record: PersonalDetails) returns (r: Result<PersonalDetails>)
      requires Valid()
      modifies this
      ensures Valid()
      ensures r.Err? <==> old(rows) != [] && Unsaved(record)
      ensures r.Err? ==> rows == old(rows) && nextPk == old(nextPk)
      ensures r.Ok? && record.pk.None? ==>
        r.value == record.(pk := Some(old(nextPk))) && rows == old(rows) + [r.value]
      ensures r.Ok? && record.pk.Some? ==> r.value == record
      ensures r.Ok? && record.pk.Some? && Find(old(rows), record.pk.value) < |old(rows)| ==>
        rows == old(rows)[Find(old(rows), record.pk.value) := record]
      ensures r.Ok? && record.pk.Some? && Find(old(rows), record.pk.value) == |old(rows)| ==>
        rows == old(rows) + [record]
      ensures r.Ok? && record.pk.None? ==> nextPk == old(nextPk) + 1
      ensures r.Ok? && record.pk.Some? && Find(old(rows), record.pk.value) < |old(rows)| ==>
        nextPk == old(nextPk)
      ensures r.Ok? && record.pk.Some? && Find(old(rows), record.pk.value) == |old(rows)| ==>
        nextPk == if record.pk.value + 1 > old(nextPk) then record.pk.value + 1 else old(nextPk)
      // the table never grows past one row through a new record or the stored one
      ensures |old(rows)| <= 1 && (record.pk.Some? ==> Find(old(rows), record.pk.value) < |old(rows)| || old(rows) == [])
        ==> |rows| <= 1
    {
      var check := Clean(record);
      if check.Fail? {
        return Err(check.failure);
      }
      match record.pk
      case None =>
        var saved := record.(pk := Some(nextPk));
        rows := rows + [saved];
        nextPk := nextPk + 1;
        r := Ok(saved);
      case Some(k) =>
        var i := Find(rows, k);
        if i < |rows| {
          rows := rows[i := record];
        } else {
          rows := rows + [record];
          nextPk := if k + 1 > nextPk then k + 1 else nextPk;
        }
        r := Ok(record);
    }
  }

  /** The guard only looks at the key of the record being saved: a record that
      carries a key no stored row has is inserted beside the existing one. */
  method UnknownKeyBypassesGuard() returns (count: nat)
    ensures count == 2
  {
    var table := new PersonalDetailsTable();
    var first := table.Save(PersonalDetails(None, false, "", "", "", "", 0.0));
    assert table.rows == [PersonalDetails(Some(1), false, "", "", "", "", 0.0)];
    assert Find(table.rows, 7) == 1;
    var second := table.Save(PersonalDetails(Some(7), true, "", "", "", "", 0.0));
    count := |table.rows|;
  }

  // ----- GST derived at save time -----

  /** The GST inside a GST-inclusive amount, `amount - amount / 1.15`: the
      part that is 15% of what remains, three twenty-thirds of the amount. */
  function InclusiveGst(amount: real): (g: real)
    ensures g == GstRate * (amount - g)
    ensures g * 23.0 == amount * 3.0
    ensures amount > 0.0 ==> 0.0 < g < amount
    ensures amount <= 0.0 ==> amount <= g <= 0.0
  {
    amount - amount / (1.0 + GstRate)
  }

  /** The GST on a GST-exclusive amount, `amount * 0.15`. Adding it and then
      extracting the GST from the total gives it back. */
  function ExclusiveGst(amount: real): (g: real)
    ensures InclusiveGst(amount + g) == g
    ensures amount >= 0.0 ==> 0.0 <= g <= amount
  {
    amount * GstRate
  }

  /** The other direction: the exclusive GST of the amount left once the
      inclusive GST is taken out is that inclusive GST. */
  lemma GstRoundTrip(amount: real)
    ensures ExclusiveGst(amount - InclusiveGst(amount)) == InclusiveGst(amount)
  {
  }

  // ----- Expense -----

  datatype ExpenseType =
    | OfficeSupplies | Travel | Equipment | Utilities | Marketing
    | Insurance | Salaries | Rent | ProfessionalServices

  /** `a / (a * (rate / 100))` is `100 / rate` whenever `a` is not zero. */
  lemma QuotientIsHundredOverRate(amount: real, rate: real)
    requires amount != 0.0 && rate > 0.0
    ensures amount / (amount * (rate / 100.0)) * rate == 100.0
  {
    var d := rate / 100.0;
    assert d * 100.0 == rate;
    var m := amount * d;
    assert m != 0.0;
    var q := amount / m;
    assert q * m == amount;
    assert amount * (q * d - 1.0) == 0.0;
    assert q * d == 1.0;
    assert q * rate == q * (d * 100.0);
  }

  lemma ScaleStrict(a: real, b: real, c: real)
    requires a < b && c > 0.0
    ensures a * c < b * c
  {
  }

  lemma Scale(a: real, b: real, c: real)
    requires a <= b && c > 0.0
    ensures a * c <= b * c
  {
  }

  /** The whole part of `100 / rate` is the number of years whose yearly
      write-offs fit into one hundred percent. */
  lemma WholeYearsFitRate(q: real, whole: real, rate: real)
    requires rate > 0.0 && q * rate == 100.0
    requires whole <= q < whole + 1.0
    ensures q > 0.0
    ensures whole * rate <= 100.0
    ensures 100.0 < (whole + 1.0) * rate
  {
    ScaleStrict(q, whole + 1.0, rate);
    Scale(whole, q, rate);
  }

  /** A rate above one hundred percent leaves no whole year. */
  lemma NoYearAboveHundred(years: nat, rate: real)
    requires rate > 100.0 && years as real * rate <= 100.0
    ensures years == 0
  {
    if years >= 1 {
      Scale(1.0, years as real, rate);
    }
  }

  class Expense {
    var reference: Option<string>
    var description: string
    var amount: real
    var isGood: bool
    var depreciationRate: Option<real>
    var expenseType: ExpenseType
    var gst: real
    var purchaseDate: Date

    /** A new, unsaved expense; `gst` has its default of 0.00. */
    constructor (reference: Option<string>, description: string, amount: real, isGood: bool,
                 depreciationRate: Option<real>, expenseType: ExpenseType, purchaseDate: Date)
      ensures this.reference == reference && this.description == description
      ensures this.amount == amount && this.isGood == isGood
      ensures this.depreciationRate == depreciationRate && this.expenseType == expenseType
      ensures this.purchaseDate == purchaseDate && gst == 0.0
    {
      this.reference := reference;
      this.description := description;
      this.amount := amount;
      this.isGood := isGood;
      this.depreciationRate := depreciationRate;
      this.expenseType := expenseType;
      this.purchaseDate := purchaseDate;
      gst := 0.0;
    }

    /** `should_depreciate`. */
    predicate ShouldDepreciate()
      reads this
      ensures ShouldDepreciate() <==> isGood && amount > 500.0
    {
      isGood && amount > 500.0
    }

    /** A rate is set and is positive. */
    predicate HasPositiveRate()
      reads this
    {
      depreciationRate.Some? && depreciationRate.value > 0.0
    }

    /** `depreciation_years`: zero without a positive rate; otherwise the
        largest whole number of years whose write-offs stay within one hundred
        percent. An amount of zero makes the division `0 / 0`, which fails. */
    function DepreciationYears(): (r: Result<nat>)
      reads this
      ensures r.Err? <==> HasPositiveRate() && amount == 0.0
      ensures r.Err? ==> r.failure == DivisionUndefined
      ensures !HasPositiveRate() ==> r == Ok(0)
      ensures r.Ok? && HasPositiveRate() ==>
        r.value as real * depreciationRate.value <= 100.0 < (r.value as real + 1.0) * depreciationRate.value
      ensures r.Ok? && HasPositiveRate() && depreciationRate.value > 100.0 ==> r.value == 0
    {
      if HasPositiveRate() then
        var rateDecimal := depreciationRate.value / 100.0;
        if amount == 0.0 then Err(DivisionUndefined)
        else
          var years := amount / (amount * rateDecimal);
          QuotientIsHundredOverRate(amount, depreciationRate.value);
          WholeYearsFitRate(years, years.Floor as real, depreciationRate.value);
          if depreciationRate.value > 100.0 then
            NoYearAboveHundred(years.Floor, depreciationRate.value);
            Ok(years.Floor)
          else Ok(years.Floor)
      else Ok(0)
    }

    /** `is_good and depreciation_rate`: a good whose rate is set and non-zero. */
    predicate HasWriteOff()
      reads this
    {
      isGood && depreciationRate.Some? && depreciationRate.value != 0.0
    }

    /** `calculate_depreciation`: a flat yearly write-off, the rate's share of the
        amount to the nearest cent; nothing for a non-good or a missing or zero rate. */
    function CalculateDepreciation(): (r: real)
      reads this
      ensures !HasWriteOff() ==> r == 0.0
      ensures HasWriteOff() ==> r == FlatWriteOff(amount, depreciationRate.value)
      ensures HasWriteOff() ==>
        IsWholeCents(r) && -0.005 <= r - amount * (depreciationRate.value / 100.0) <= 0.005
    {
      if HasWriteOff() then FlatWriteOff(amount, depreciationRate.value)
      else 0.0
    }

    /** `calculate_depreciation_for_year`: the same (current value, write-off)
        pair whatever the year, and the two always add up to the amount. */
    function CalculateDepreciationForYear(year: int): (r: (real, real))
      reads this
      ensures r.1 == CalculateDepreciation()
      ensures r.0 + r.1 == amount
    {
      var writeOff := CalculateDepreciation();
      (amount - writeOff, writeOff)
    }

    /** `Expense.save`: the amount is GST-inclusive, so the stored GST is the
        part of it that is GST. Coercing the amount to `Decimal` leaves its
        value as it is, so only `gst` changes. */
    method Save()
      modifies this`gst
      ensures gst == InclusiveGst(amount)
    {
      gst := amount - amount / (1.0 + GstRate);
    }
  }

  /** The yearly write-off of `amount` at `rate` percent, `round(amount * rate / 100, 2)`. */
  function FlatWriteOff(amount: real, rate: real): (w: real)
    ensures IsWholeCents(w)
    ensures -0.005 <= w - amount * (rate / 100.0) <= 0.005
    ensures (w - amount * (rate / 100.0) == 0.005 || amount * (rate / 100.0) - w == 0.005) ==>
      (w * 100.0).Floor % 2 == 0
  {
    RoundCents(amount * (rate / 100.0))
  }

  lemma PartWithinWhole(amount: real, share: real)
    requires amount >= 0.0 && 0.0 <= share <= 1.0
    ensures 0.0 <= amount * share <= amount
  {
    assert amount * (1.0 - share) >= 0.0;
  }

  /** Rounding keeps a part of an amount that rounding leaves alone between
      nothing and that amount. */
  lemma RoundedPartWithinWhole(amount: real, part: real)
    requires 0.0 <= part <= amount && IsWholeCents(amount)
    ensures 0.0 <= RoundCents(part) <= amount
  {
    RoundCentsOfWholeCents(amount);
    RoundCentsOfWholeCents(0.0);
    RoundCentsMonotone(0.0, part);
    RoundCentsMonotone(part, amount);
  }

  /** A rate between nothing and one hundred percent, as a share of one. */
  lemma ShareOfHundred(rate: real)
    requires 0.0 <= rate <= 100.0
    ensures 0.0 <= rate / 100.0 <= 1.0
  {
  }

  /** An expense that should depreciate has an amount above 500, so the
      division in `depreciation_years` is always defined for it. */
  lemma QualifyingGoodHasYears(e: Expense)
    requires e.ShouldDepreciate()
    ensures e.DepreciationYears().Ok?
  {
  }

  /** A rate between nothing and one hundred percent takes a share of an
      amount between nothing and the amount. */
  lemma RateShareWithinWhole(amount: real, rate: real)
    requires amount >= 0.0 && 0.0 <= rate <= 100.0
    ensures 0.0 <= amount * (rate / 100.0) <= amount
  {
    ShareOfHundred(rate);
    PartWithinWhole(amount, rate / 100.0);
  }

  /** For a non-negative amount in whole cents and a rate up to one hundred
      percent, the rounded write-off lies between nothing and the amount. */
  lemma RoundedWriteOffWithinAmount(amount: real, rate: real)
    requires amount >= 0.0 && IsWholeCents(amount)
    requires 0.0 <= rate <= 100.0
    ensures 0.0 <= FlatWriteOff(amount, rate) <= amount
  {
    RateShareWithinWhole(amount, rate);
    RoundedPartWithinWhole(amount, amount * (rate / 100.0));
  }

  /** The write-off of an expense with such an amount and rate lies between
      nothing and the amount, so its current value is never negative. */
  lemma WriteOffWithinAmount(e: Expense)
    requires e.amount >= 0.0 && IsWholeCents(e.amount)
    requires e.depreciationRate.Some? && 0.0 <= e.depreciationRate.value <= 100.0
    ensures 0.0 <= e.CalculateDepreciation() <= e.amount
  {
    if e.HasWriteOff() {
      RoundedWriteOffWithinAmount(e.amount, e.depreciationRate.value);
    }
  }

  // ----- Earning -----

  class Earning {
    var reference: Option<string>
    var description: string
    var amount: real
    var date: Date
    var gst: real

    /** A new, unsaved earning; `gst` has its default of 0.00. */
    constructor (reference: Option<string>, description: string, amount: real, date: Date)
      ensures this.reference == reference && this.description == description
      ensures this.amount == amount && this.date == date && gst == 0.0
    {
      this.reference := reference;
      this.description := description;
      this.amount := amount;
      this.date := date;
      gst := 0.0;
    }

    /** `Earning.save`: the amount is GST-exclusive, so the stored GST is 15%
        on top of it. */
    method Save()
      modifies this`gst
      ensures gst == ExclusiveGst(amount)
    {
      gst := amount * GstRate;
    }
  }
}
