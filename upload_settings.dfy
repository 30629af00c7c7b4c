/**
 * The choices the upload settings offer, and what each choice becomes on its
 * way through the upload function and the result panel: the expiry codes
 * "1h" … "30d" and the download limits "1" … "100" and "unlimited".
 */
module UploadSettings {
  import opened Wrappers
  import opened JsText
  import opened UploadFile
  import opened UploadResult

  /** An expiry choice: the code is the amount in decimal followed by the unit letter. */
  datatype ExpiryOption = ExpiryOption(amount: nat, unit: char) {
    function Code(): string {
      DecimalText(amount) + [unit]
    }

    /** The caption the form shows for the choice, singular for an amount of 1. */
    function Caption(): string {
      DecimalText(amount) + (if unit == 'd' then " day" else " hour") + (if amount == 1 then "" else "s")
    }

    /** The hours the option's caption promises. */
    function HoursMeant(): nat {
      if unit == 'd' then 24 * amount else amount
    }
  }

  /** A download-limit choice: a number, or "unlimited". */
  datatype LimitOption = Count(n: nat) | NoLimit {
    function Code(): string {
      match this
      case Count(n) => DecimalText(n)
      case NoLimit => "unlimited"
    }
  }

  const ExpiryOptions: seq<ExpiryOption> := [
    ExpiryOption(1, 'h'), ExpiryOption(6, 'h'), ExpiryOption(12, 'h'),
    ExpiryOption(24, 'h'), ExpiryOption(48, 'h'), ExpiryOption(72, 'h'),
    ExpiryOption(7, 'd'), ExpiryOption(14, 'd'), ExpiryOption(30, 'd')
  ]

  const LimitOptions: seq<LimitOption> := [
    Count(1), Count(2), Count(3), Count(5), Count(10), Count(25), Count(50), Count(100), NoLimit
  ]

  /** The select values of the settings form, in the order it lists them. */
  const ExpiryCodes := ["1h", "6h", "12h", "24h", "48h", "72h", "7d", "14d", "30d"]
  const LimitCodes := ["1", "2", "3", "5", "10", "25", "50", "100", "unlimited"]

  /** The captions the settings form shows for the expiry choices. */
  const ExpiryCaptions := ["1 hour", "6 hours", "12 hours", "24 hours", "48 hours", "72 hours",
                           "7 days", "14 days", "30 days"]

  /** The codes of the expiry options are the expiry select values of the settings form. */
  lemma ExpiryOptionCodes()
    ensures |ExpiryOptions| == |ExpiryCodes|
    ensures forall i :: 0 <= i < |ExpiryOptions| ==> ExpiryOptions[i].Code() == ExpiryCodes[i]
  {
    AmountTexts();
  }

  /** The codes of the limit options are the download-limit select values of the settings form. */
  lemma LimitOptionCodes()
    ensures |LimitOptions| == |LimitCodes|
    ensures forall i :: 0 <= i < |LimitOptions| ==> LimitOptions[i].Code() == LimitCodes[i]
  {
    SmallLimitCodes();
    LargeLimitCodes();
  }

  lemma SmallLimitCodes()
    ensures forall i :: 0 <= i < 4 ==> LimitOptions[i].Code() == LimitCodes[i]
  {
    LimitAmountTexts();
  }

  lemma LargeLimitCodes()
    ensures forall i :: 4 <= i < 9 ==> LimitOptions[i].Code() == LimitCodes[i]
  {
    LimitAmountTexts();
  }

  /** The decimal texts of the download limits the form offers. */
  lemma LimitAmountTexts()
    ensures DecimalText(1) == "1" && DecimalText(2) == "2" && DecimalText(3) == "3" && DecimalText(5) == "5"
    ensures DecimalText(10) == "10" && DecimalText(25) == "25"
    ensures DecimalText(50) == "50" && DecimalText(100) == "100"
  {
  }

  /** The decimal texts of the expiry amounts the form offers. */
  lemma AmountTexts()
    ensures DecimalText(1) == "1" && DecimalText(6) == "6" && DecimalText(7) == "7"
    ensures DecimalText(12) == "12" && DecimalText(14) == "14" && DecimalText(24) == "24"
    ensures DecimalText(30) == "30" && DecimalText(48) == "48" && DecimalText(72) == "72"
  {
  }

  /** The captions of the expiry options are the captions of the settings form. */
  lemma ExpiryOptionCaptions()
    ensures |ExpiryOptions| == |ExpiryCaptions|
    ensures forall i :: 0 <= i < |ExpiryOptions| ==> ExpiryOptions[i].Caption() == ExpiryCaptions[i]
  {
    HourCaptions();
    DayCaptions();
  }

  lemma HourCaptions()
    ensures forall i :: 0 <= i < 6 ==> ExpiryOptions[i].Caption() == ExpiryCaptions[i]
  {
    AmountTexts();
  }

  lemma DayCaptions()
    ensures forall i :: 6 <= i < 9 ==> ExpiryOptions[i].Caption() == ExpiryCaptions[i]
  {
    AmountTexts();
  }

  /** Every expiry choice is an amount followed by 'h' or 'd'. */
  lemma ExpiryUnits(i: nat)
    requires i < |ExpiryOptions|
    ensures ExpiryOptions[i].unit == 'h' || ExpiryOptions[i].unit == 'd'
  {
  }

  /**
   * As written, the upload function reads every expiry choice as its amount
   * in hours, so each day choice expires 24 times sooner than its label says.
   */
  lemma ExpiryOptionsAsWritten(i: nat)
    requires i < |ExpiryOptions|
    ensures ExpiryHours(TextField(ExpiryOptions[i].Code())) == Some(ExpiryOptions[i].amount as int)
    ensures ExpiryOptions[i].unit == 'd' ==>
      ExpiryHours(TextField(ExpiryOptions[i].Code())) != Some(ExpiryOptions[i].HoursMeant() as int)
  {
    var o := ExpiryOptions[i];
    ExpiryUnits(i);
    ExpiryHoursOfCode(o.amount, o.unit);
  }

  /** The "7 days" choice: shown as "7 days", stored as 7 hours after the upload. */
  lemma SevenDaysExpireAfterSevenHours(now: int)
    requires ValidTime(now) && ValidTime(now + 7 * MsPerHour)
    ensures FormatExpiryTime("7d") == "7 days"
    ensures ExpiresAt(now, ExpiryHours(TextField("7d"))) == Some(now + 7 * MsPerHour)
  {
    assert DecimalText(7) + ['d'] == "7d";
    ExpiryCodeIsHours(now, 7, 'd');
    FormatExpiryTimeEdgeCases();
  }

  /** With the corrected reading every expiry choice lasts the hours its label promises. */
  lemma ExpiryOptionsCorrected(i: nat)
    requires i < |ExpiryOptions|
    ensures IntendedExpiryHours(TextField(ExpiryOptions[i].Code())) == Some(ExpiryOptions[i].HoursMeant() as int)
  {
    var o := ExpiryOptions[i];
    ExpiryUnits(i);
    IntendedExpiryOfCode(o.amount, o.unit);
  }

  /** The result panel shows an expiry choice as its amount and the plural unit word. */
  lemma OptionShown(o: ExpiryOption)
    requires o.unit == 'h' || o.unit == 'd'
    ensures FormatExpiryTime(o.Code()) == DecimalText(o.amount) + (if o.unit == 'd' then DaysUnit else HoursUnit)
  {
    var code := o.Code();
    assert DropLast(code) == DecimalText(o.amount);
    assert code[|code| - 1..] == [o.unit];
  }

  /** The result panel shows each expiry choice as its amount and the plural unit word. */
  lemma ExpiryOptionsShown(i: nat)
    requires i < |ExpiryOptions|
    ensures FormatExpiryTime(ExpiryOptions[i].Code())
      == DecimalText(ExpiryOptions[i].amount) + (if ExpiryOptions[i].unit == 'd' then DaysUnit else HoursUnit)
  {
    ExpiryUnits(i);
    OptionShown(ExpiryOptions[i]);
  }

  /**
   * The result panel repeats the form's caption of an expiry choice except for
   * an amount of 1, where the form says "1 hour" and the panel "1 hours".
   */
  lemma CaptionShown(o: ExpiryOption)
    requires o.unit == 'h' || o.unit == 'd'
    ensures FormatExpiryTime(o.Code()) == o.Caption() <==> o.amount != 1
  {
    OptionShown(o);
    if o.amount == 1 {
      assert |FormatExpiryTime(o.Code())| != |o.Caption()|;
    }
  }

  /**
   * A limit choice is stored as unlimited (-1) exactly when it is "unlimited",
   * and a number choice as that number; the panel shows "Unlimited" for the
   * same choice and the number's text otherwise.
   */
  lemma LimitOptionsStored(i: nat)
    requires i < |LimitOptions|
    ensures MaxDownloads(TextField(LimitOptions[i].Code())) == Some(UnlimitedDownloads) <==> LimitOptions[i].NoLimit?
    ensures LimitOptions[i].Count? ==> MaxDownloads(TextField(LimitOptions[i].Code())) == Some(LimitOptions[i].n)
    ensures DownloadsRemaining(LimitOptions[i].Code()) == "Unlimited" <==> LimitOptions[i].NoLimit?
    ensures LimitOptions[i].Count? ==> DownloadsRemaining(LimitOptions[i].Code()) == DecimalText(LimitOptions[i].n)
  {
    var o := LimitOptions[i];
    if o.Count? {
      var f := UploadedFile([], [], []);
      MaxDownloadsOfNumber(o.n, f);
      assert DecimalText(o.n)[0] != 'u';
    }
  }
}
