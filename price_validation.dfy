/** The issue and warning flags of `validate_price_data` in src/utils.py, over the price
    column as a sequence of optional numbers (None standing for NaN). */
module PriceValidation {
  import opened Wrappers

  type Prices = seq<Option<real>>

  datatype Issue = ColumnNotFound(column: string) | NegativePrices(count: nat)
  datatype Warning = MissingValues(count: nat) | ZeroPrices(count: nat)
  datatype Validation = Validation(isValid: bool, issues: seq<Issue>, warnings: seq<Warning>)

  predicate IsMissing(p: Option<real>) { p.None? }
  /** Comparisons with NaN are false, so a missing price is neither negative nor zero. */
  predicate IsNegative(p: Option<real>) { p.Some? && p.value < 0.0 }
  predicate IsZero(p: Option<real>) { p.Some? && p.value == 0.0 }

  function CountMissing(s: Prices): nat
  {
    if s == [] then 0 else CountMissing(s[..|s| - 1]) + (if IsMissing(s[|s| - 1]) then 1 else 0)
  }

  function CountNegative(s: Prices): nat
  {
    if s == [] then 0 else CountNegative(s[..|s| - 1]) + (if IsNegative(s[|s| - 1]) then 1 else 0)
  }

  function CountZero(s: Prices): nat
  {
    if s == [] then 0 else CountZero(s[..|s| - 1]) + (if IsZero(s[|s| - 1]) then 1 else 0)
  }

  lemma {:induction false} NoNegative(s: Prices)
    ensures CountNegative(s) == 0 <==> forall i :: 0 <= i < |s| ==> !IsNegative(s[i])
  {
    if s != [] {
      var init := s[..|s| - 1];
      NoNegative(init);
      assert forall i :: 0 <= i < |init| ==> init[i] == s[i];
    }
  }

  lemma {:induction false} NoMissing(s: Prices)
    ensures CountMissing(s) == 0 <==> forall i :: 0 <= i < |s| ==> !IsMissing(s[i])
  {
    if s != [] {
      var init := s[..|s| - 1];
      NoMissing(init);
      assert forall i :: 0 <= i < |init| ==> init[i] == s[i];
    }
  }

  lemma {:induction false} NoZero(s: Prices)
    ensures CountZero(s) == 0 <==> forall i :: 0 <= i < |s| ==> !IsZero(s[i])
  {
    if s != [] {
      var init := s[..|s| - 1];
      NoZero(init);
      assert forall i :: 0 <= i < |init| ==> init[i] == s[i];
    }
  }

  /** `validate_price_data` without its statistics: a missing column is the only issue and
      ends the check; a negative price makes the data invalid; missing values and zero
      prices are warnings only. */
  method ValidatePriceData(column: Option<Prices>, priceColumn: string) returns (r: Validation)
    ensures column.None? ==> r == Validation(false, [ColumnNotFound(priceColumn)], [])
    ensures column.Some? ==> var prices := column.value;
              && (r.isValid <==> forall i :: 0 <= i < |prices| ==> !IsNegative(prices[i]))
              && (r.issues == [] <==> r.isValid)
              && r.issues == (if CountNegative(prices) > 0 then [NegativePrices(CountNegative(prices))] else [])
              && r.warnings == (if CountMissing(prices) > 0 then [MissingValues(CountMissing(prices))] else [])
                               + (if CountZero(prices) > 0 then [ZeroPrices(CountZero(prices))] else [])
              && (MissingValues(CountMissing(prices)) in r.warnings <==> exists i :: 0 <= i < |prices| && IsMissing(prices[i]))
              && (ZeroPrices(CountZero(prices)) in r.warnings <==> exists i :: 0 <= i < |prices| && IsZero(prices[i]))
  {
    r := Validation(true, [], []);
    if column.None? {
      r := r.(isValid := false, issues := r.issues + [ColumnNotFound(priceColumn)]);
      return;
    }
    var prices := column.value;
    NoMissing(prices);
    NoNegative(prices);
    NoZero(prices);
    var missingCount := CountMissing(prices);
    if missingCount > 0 {
      r := r.(warnings := r.warnings + [MissingValues(missingCount)]);
    }
    var negativeCount := CountNegative(prices);
    if negativeCount > 0 {
      r := r.(issues := r.issues + [NegativePrices(negativeCount)], isValid := false);
    }
    var zeroCount := CountZero(prices);
    if zeroCount > 0 {
      r := r.(warnings := r.warnings + [ZeroPrices(zeroCount)]);
    }
  }
}
