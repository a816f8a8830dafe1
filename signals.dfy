/** The `post_save` handler `create_depreciation`: when a new expense is a
    depreciating good, it writes one Depreciation row per year of the
    schedule, creating the FinancialYear of each year when it is missing. */
module Signals {
  import opened Models

  /** A Depreciation row; the financial year is named by its year, which the
      store keeps unique. */
  datatype DepreciationRow = DepreciationRow(
    expense: Expense,
    financialYear: int,
    currentValue: real,
    taxWriteOff: real,
    yearsToZero: int)

  predicate Distinct(s: seq<int>) {
    forall i, j :: 0 <= i < j < |s| ==> s[i] != s[j]
  }

  /** The rows of a schedule of `years` years starting in `start`: row `k`
      belongs to year `start + k` and has `years - k` years to go. */
  function Schedule(expense: Expense, start: int, years: nat, currentValue: real, taxWriteOff: real)
    : seq<DepreciationRow>
  {
    seq(years, k => DepreciationRow(expense, start + k, currentValue, taxWriteOff, years - k))
  }

  /** A schedule has one row per year, in ascending years, every row with
      the same figures, and its years to zero count down from `years` to 1. */
  lemma ScheduleShape(expense: Expense, start: int, years: nat, currentValue: real, taxWriteOff: real)
    ensures var s := Schedule(expense, start, years, currentValue, taxWriteOff);
      && |s| == years
      && (forall i, j :: 0 <= i < j < years ==> s[i].financialYear < s[j].financialYear)
      && (forall i, j :: 0 <= i < j < years ==> s[i].yearsToZero > s[j].yearsToZero)
      && (years > 0 ==> s[0].yearsToZero == years && s[years - 1].yearsToZero == 1)
      && (forall i :: 0 <= i < years ==>
            && s[i].expense == expense
            && s[i].taxWriteOff == taxWriteOff
            && s[i].currentValue == currentValue
            && s[i].yearsToZero >= 1)
  {
  }

  /** The FinancialYear and Depreciation tables. */
  class Store {
    var financialYears: seq<int>
    var depreciations: seq<DepreciationRow>

    /** At most one FinancialYear per year, as `get_or_create` assumes. */
    ghost predicate Valid()
      reads this
    {
      Distinct(financialYears)
    }

    constructor ()
      ensures Valid() && financialYears == [] && depreciations == []
    {
      financialYears := [];
      depreciations := [];
    }

    /** `FinancialYear.objects.get_or_create(year=year)`. */
    method GetOrCreateFinancialYear(year: int) returns (created: bool)
      requires Valid()
      modifies this`financialYears
      ensures Valid()
      ensures created <==> year !in old(financialYears)
      ensures financialYears == if created then old(financialYears) + [year] else old(financialYears)
    {
      created := year !in financialYears;
      if created {
        financialYears := financialYears + [year];
      }
    }

    /** `Depreciation.objects.create(...)`. */
    method CreateDepreciationRow(row: DepreciationRow)
      modifies this`depreciations
      ensures depreciations == old(depreciations) + [row]
    {
      depreciations := depreciations + [row];
    }
  }

  /** `create_depreciation`. Nothing happens unless the expense was just
      created and is a good of more than 500. Then the schedule's rows are
      appended after the existing ones, and the FinancialYears of the
      schedule's years exist afterwards: the missing ones are appended in
      ascending order, the others are reused and none is duplicated. */
  method CreateDepreciation(db: Store, instance: Expense, created: bool)
    requires db.Valid()
    modifies db
    ensures db.Valid()
    ensures !(created && instance.isGood && instance.amount > 500.0) ==>
      db.financialYears == old(db.financialYears) && db.depreciations == old(db.depreciations)
    ensures created && instance.ShouldDepreciate() ==>
      var years := instance.DepreciationYears().value;
      var start := instance.purchaseDate.year;
      var writeOff := instance.CalculateDepreciation();
      && db.depreciations == old(db.depreciations)
           + Schedule(instance, start, years, instance.amount - writeOff, writeOff)
      && |old(db.financialYears)| <= |db.financialYears|
      && db.financialYears[..|old(db.financialYears)|] == old(db.financialYears)
      && (forall y :: y in db.financialYears <==> y in old(db.financialYears) || start <= y < start + years)
      && (forall i, j :: |old(db.financialYears)| <= i < j < |db.financialYears| ==>
            db.financialYears[i] < db.financialYears[j])
  {
    if created && instance.ShouldDepreciate() {
      var outcome := instance.DepreciationYears();
      var years := outcome.value;
      var start := instance.purchaseDate.year;
      ghost var writeOff := instance.CalculateDepreciation();
      ghost var rows := Schedule(instance, start, years, instance.amount - writeOff, writeOff);
      ghost var oldYears := db.financialYears;
      var year := start;
      while year < start + years
        invariant start <= year <= start + years
        invariant db.Valid()
        invariant db.depreciations == old(db.depreciations) + rows[..year - start]
        invariant |oldYears| <= |db.financialYears| && db.financialYears[..|oldYears|] == oldYears
        invariant forall y :: y in db.financialYears <==> y in oldYears || start <= y < year
        invariant forall i :: |oldYears| <= i < |db.financialYears| ==> start <= db.financialYears[i] < year
        invariant forall i, j :: |oldYears| <= i < j < |db.financialYears| ==>
          db.financialYears[i] < db.financialYears[j]
      {
        var _ := db.GetOrCreateFinancialYear(year);
        var values := instance.CalculateDepreciationForYear(year);
        var currentValue, taxWriteOff := values.0, values.1;
        var yearsToZero := years - (year - start);
        db.CreateDepreciationRow(DepreciationRow(instance, year, currentValue, taxWriteOff, yearsToZero));
        assert rows[..year + 1 - start] == rows[..year - start] + [rows[year - start]];
        year := year + 1;
      }
      assert rows[..year - start] == rows;
    }
  }

  /** A good that qualifies but whose rate is missing, not positive or above
      one hundred percent gets a schedule of no years, so nothing is written. */
  lemma NoScheduleWithoutUsableRate(e: Expense)
    requires e.ShouldDepreciate()
    requires e.depreciationRate.None? || e.depreciationRate.value <= 0.0 || e.depreciationRate.value > 100.0
    ensures e.DepreciationYears() == Ok(0)
  {
  }
}
