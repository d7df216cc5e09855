/**
 * components/price-confirmation.tsx: the price shown before a transcription
 * is confirmed (one dollar plus ten cents per started minute) and the
 * duration label of the dialog.
 */
module PriceConfirmation {
  import opened Wrappers
  import opened Strings
  import opened RealMath

  const BasePrice: real := 1.0
  const PricePerMinute: real := 0.1

  /** `Math.ceil(durationInSeconds / 60)`: the minutes charged. */
  function ChargedMinutes(duration: real): (m: int)
    ensures (m - 1) as real * 60.0 < duration <= m as real * 60.0
  {
    Ceil(duration / 60.0)
  }

  /** `calculatePrice`, in exact arithmetic. */
  function CalculatePrice(duration: real): real {
    BasePrice + ChargedMinutes(duration) as real * PricePerMinute
  }

  /** The same price as a whole number of cents. */
  function PriceCents(duration: real): int {
    100 + 10 * ChargedMinutes(duration)
  }

  /**
   * The price is one dollar plus ten cents for every started minute: the
   * duration charge pays for at least the whole duration and for less than
   * one minute beyond it.
   */
  lemma PriceCoversDuration(duration: real)
    ensures CalculatePrice(duration) * 100.0 == PriceCents(duration) as real
    ensures (CalculatePrice(duration) - BasePrice) * 600.0 >= duration
    ensures (CalculatePrice(duration) - BasePrice) * 600.0 - 60.0 < duration
  {
    var m := ChargedMinutes(duration);
    assert (CalculatePrice(duration) - BasePrice) * 600.0 == m as real * 60.0;
  }

  /** A longer recording never costs less; an empty one costs the base price. */
  lemma PriceMonotone(shorter: real, longer: real)
    requires shorter <= longer
    ensures PriceCents(shorter) <= PriceCents(longer)
    ensures PriceCents(0.0) == 100
    ensures 0.0 < longer <= 60.0 ==> PriceCents(longer) == 110
  {
    assert ChargedMinutes(0.0) == 0;
    if 0.0 < longer <= 60.0 {
      assert ChargedMinutes(longer) == 1;
    }
  }

  /** `n.toFixed(2)` for an exact amount of cents, with the sign of a negative amount. */
  function FixedCents(cents: int): string {
    if cents < 0 then "-" + FixedMagnitude(-cents) else FixedMagnitude(cents)
  }

  function FixedMagnitude(cents: nat): string {
    NatToString(cents / 100) + "." + ZeroPad(cents % 100, 2)
  }

  /**
   * The labels of the dialog: the duration price (`price - 1`, which is ten
   * cents per charged minute), the total price and the confirm button.
   */
  function DurationPriceLabel(duration: real): string {
    "$" + FixedCents(10 * ChargedMinutes(duration))
  }

  function TotalPriceLabel(duration: real): string {
    "$" + FixedCents(PriceCents(duration))
  }

  function ConfirmLabel(duration: real): string {
    "Confirm ($" + FixedCents(PriceCents(duration)) + ")"
  }

  /** Reads `D…D.CC` back into cents. */
  function ParseCents(s: string): Option<int> {
    if |s| >= 4 && s[|s| - 3] == '.' && AllDigits(s[..|s| - 3]) && AllDigits(s[|s| - 2..]) then
      Some(DigitsValue(s[..|s| - 3]) * 100 + DigitsValue(s[|s| - 2..]))
    else None
  }

  lemma ReadCents(dollars: string, cents: string, total: int)
    requires AllDigits(dollars) && AllDigits(cents) && |dollars| >= 1 && |cents| == 2
    requires DigitsValue(dollars) * 100 + DigitsValue(cents) == total
    ensures ParseCents(dollars + "." + cents) == Some(total)
  {
    CentsSlices(dollars, cents);
  }

  lemma CentsSlices(dollars: string, cents: string)
    requires |dollars| >= 1 && |cents| == 2
    ensures var s := dollars + "." + cents;
            |s| >= 4 && s[|s| - 3] == '.' && s[..|s| - 3] == dollars && s[|s| - 2..] == cents
  {
    var a := dollars + ".";
    var s := a + cents;
    assert s[..|a|] == a && s[|a|..] == cents;
    assert a[..|dollars|] == dollars && a[|dollars|] == '.';
  }

  /** A non-negative amount is written with two decimals and reads back exactly. */
  lemma FixedCentsRoundTrip(cents: int)
    requires cents >= 0
    ensures FixedCents(cents) == NatToString(cents / 100) + "." + ZeroPad(cents % 100, 2)
    ensures ParseCents(FixedCents(cents)) == Some(cents)
  {
    assert Pow10(2) == 100;
    ReadCents(NatToString(cents / 100), ZeroPad(cents % 100, 2), cents);
  }

  /**
   * The dialog's amounts read back as the total price and the duration price,
   * in cents, and the confirm button shows the total price.
   */
  lemma LabelsAgree(duration: real)
    requires duration >= 0.0
    ensures ParseCents(TotalPriceLabel(duration)[1..]) == Some(PriceCents(duration))
    ensures ParseCents(DurationPriceLabel(duration)[1..]) == Some(PriceCents(duration) - 100)
    ensures ConfirmLabel(duration) == "Confirm (" + TotalPriceLabel(duration) + ")"
    ensures var confirm := ConfirmLabel(duration);
            |confirm| > 11 && ParseCents(confirm[10..|confirm| - 1]) == Some(PriceCents(duration))
  {
    var minutes := ChargedMinutes(duration);
    assert minutes >= 0;
    LabelReads(TotalPriceLabel(duration), 100 + 10 * minutes);
    LabelReads(DurationPriceLabel(duration), 10 * minutes);
    ConfirmSlice(FixedCents(PriceCents(duration)));
  }

  lemma ConfirmSlice(amount: string)
    ensures var confirm := "Confirm ($" + amount + ")";
            |confirm| == |amount| + 11 && confirm[10..|confirm| - 1] == amount
            && confirm == "Confirm (" + ("$" + amount) + ")"
  {
    var front := "Confirm ($";
    assert |front| == 10;
    var confirm := front + amount + ")";
    assert confirm[10..|confirm| - 1] == (front + amount)[10..];
  }

  lemma LabelReads(shown: string, cents: int)
    requires cents >= 0 && shown == "$" + FixedCents(cents)
    ensures ParseCents(shown[1..]) == Some(cents)
  {
    assert shown[1..] == FixedCents(cents);
    FixedCentsRoundTrip(cents);
  }

  /** `formatDuration`: `Hh Mm Ss`, `Mm Ss` or `Ss`, without padding. */
  function FormatDuration(seconds: real): string {
    var hours := Hours(seconds);
    var minutes := MinutesOfHour(seconds);
    var remaining := SecondsOfMinute(seconds);
    if hours > 0 then IntToString(hours) + "h " + IntToString(minutes) + "m " + IntToString(remaining) + "s"
    else if minutes > 0 then IntToString(minutes) + "m " + IntToString(remaining) + "s"
    else IntToString(remaining) + "s"
  }

  /**
   * For a non-negative duration the label leaves out leading zero units,
   * shows minutes and seconds in 0..59, and its units add up to the whole
   * seconds of the duration.
   */
  lemma FormatDurationFields(seconds: real)
    requires seconds >= 0.0
    ensures 0 <= MinutesOfHour(seconds) < 60 && 0 <= SecondsOfMinute(seconds) < 60
    ensures Hours(seconds) * 3600 + MinutesOfHour(seconds) * 60 + SecondsOfMinute(seconds) == Floor(seconds)
    ensures seconds >= 3600.0 ==>
              FormatDuration(seconds)
              == NatToString(Hours(seconds)) + "h " + NatToString(MinutesOfHour(seconds)) + "m "
                 + NatToString(SecondsOfMinute(seconds)) + "s"
    ensures 60.0 <= seconds < 3600.0 ==>
              FormatDuration(seconds)
              == NatToString(MinutesOfHour(seconds)) + "m " + NatToString(SecondsOfMinute(seconds)) + "s"
    ensures seconds < 60.0 ==> FormatDuration(seconds) == NatToString(Floor(seconds)) + "s"
  {
    ClockFields(seconds);
  }
}
