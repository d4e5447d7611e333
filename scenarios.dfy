/**
 * Sessions driven through the handlers, as a user would: what the method
 * contracts of `App.Session` let a caller conclude.
 */
module Scenarios {
  import opened Wrappers
  import Text
  import Pricing
  import Days
  import App

  /** 2 adults at 5000 and 1 child at 3000 with GST on: 13000 + 2340.00 = 15340.00. */
  method QuoteWithGst() returns (package: nat, gst: nat, total: nat)
    ensures package == 13000 && gst == 234000 && total == 1534000
  {
    var s := new App.Session([], []);
    Text.DecimalRoundTrip(2);
    Text.DecimalRoundTrip(5000);
    Text.DecimalRoundTrip(1);
    Text.DecimalRoundTrip(3000);
    // `Text.DecimalString(n)` is the string the user types for n ("2", "5000", ...).
    s.HandleNumberInput(Pricing.Adults, Pricing.Count, Text.DecimalString(2));
    s.HandleNumberInput(Pricing.Adults, Pricing.CostPerHead, Text.DecimalString(5000));
    s.HandleNumberInput(Pricing.Children, Pricing.Count, Text.DecimalString(1));
    s.HandleNumberInput(Pricing.Children, Pricing.CostPerHead, Text.DecimalString(3000));
    assert !Text.IsNumericInput("x");
    s.HandleNumberInput(Pricing.Infants, Pricing.Count, "x");
    assert s.packageAmount == 13000;
    s.SetIncludeGst(true);
    package, gst, total := s.packageAmount, s.GstAmount(), s.TotalAmount();
  }

  /** A manual amount of 7500 is dropped for the automatic total when the override is unchecked. */
  method OverrideThenRevert() returns (amount: nat, manualText: string)
    ensures amount == 100 && Text.IsNumericInput(manualText) && Text.DecimalValue(manualText) == 7500
  {
    var s := new App.Session([], []);
    Text.DecimalRoundTrip(4);
    Text.DecimalRoundTrip(100);
    Text.DecimalRoundTrip(7500);
    Text.DecimalRoundTrip(1);
    // `Text.DecimalString(n)` is the string the user types for n ("4", "100", "7500", "1").
    s.HandleNumberInput(Pricing.Adults, Pricing.Count, Text.DecimalString(4));
    s.HandleNumberInput(Pricing.Adults, Pricing.CostPerHead, Text.DecimalString(100));
    s.SetManualOverride(true);
    assert Text.DecimalString(7500) != "";
    s.SetManualAmount(Text.DecimalString(7500));
    assert s.packageAmount == 7500;
    s.HandleNumberInput(Pricing.Adults, Pricing.Count, Text.DecimalString(1));
    assert s.packageAmount == 7500;
    s.SetManualOverride(false);
    amount, manualText := s.packageAmount, s.manualPackageAmount;
  }

  /**
   * Adding a day after an undated day gives no date; after dating it, the next
   * day follows. Removing the first day three times empties the plan.
   */
  method DatedDays(d: int) returns (second: Option<int>, third: Option<int>, remaining: nat)
    ensures second.None? && third == Some(d + 1) && remaining == 0
  {
    var s := new App.Session([], []);
    s.AddDay();
    second := s.days[1].date;
    s.UpdateDay(1, Days.SetDate(Some(d)));
    s.AddDay();
    third := s.days[2].date;
    s.RemoveDay(0);
    s.RemoveDay(0);
    s.RemoveDay(0);
    remaining := |s.days|;
  }
}
