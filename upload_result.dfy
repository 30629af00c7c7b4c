/**
 * The two labels the upload result panel shows: "Expires in: …", built by
 * `formatExpiryTime` from the expiry code, and "Downloads remaining: …",
 * built from the download limit.
 */
module UploadResult {
  import opened JsText

  const DaysUnit := " days"
  const HoursUnit := " hours"

  /**
   * `formatExpiryTime`: a code ending in 'd' is the text before its last
   * character followed by " days"; any other code, the empty one included,
   * is the text before its last character followed by " hours".
   */
  function FormatExpiryTime(time: string): (shown: string)
    ensures |DropLast(time)| <= |shown| && shown[..|DropLast(time)|] == DropLast(time)
    ensures shown[|DropLast(time)|..] == DaysUnit <==> EndsWith(time, "d")
    ensures shown[|DropLast(time)|..] == HoursUnit <==> !EndsWith(time, "d")
  {
    if EndsWith(time, "d") then DropLast(time) + DaysUnit else DropLast(time) + HoursUnit
  }

  /** The label's unit tells which branch was taken: it ends in " days" exactly for a 'd' code. */
  lemma LabelUnit(time: string)
    ensures EndsWith(FormatExpiryTime(time), DaysUnit) <==> EndsWith(time, "d")
    ensures EndsWith(FormatExpiryTime(time), HoursUnit) <==> !EndsWith(time, "d")
  {
    var shown := FormatExpiryTime(time);
    var p := DropLast(time);
    if EndsWith(time, "d") {
      assert shown == p + DaysUnit;
      assert shown[|shown| - 2] == 'y';
      assert shown[|shown| - |DaysUnit|..] == DaysUnit;
    } else {
      assert shown == p + HoursUnit;
      assert shown[|shown| - 2] == 'r';
      assert shown[|shown| - |HoursUnit|..] == HoursUnit;
    }
    if EndsWith(shown, DaysUnit) {
      assert shown[|shown| - 2] == DaysUnit[3];
    }
    if EndsWith(shown, HoursUnit) {
      assert shown[|shown| - 2] == HoursUnit[4];
    }
  }

  /**
   * The expiry code a label was made from, for codes whose last character is
   * a unit letter 'd' or 'h': the inverse of `FormatExpiryTime` on them.
   */
  function ExpiryCodeOfLabel(shown: string): string {
    if EndsWith(shown, DaysUnit) then shown[..|shown| - |DaysUnit|] + "d"
    else if EndsWith(shown, HoursUnit) then shown[..|shown| - |HoursUnit|] + "h"
    else shown
  }

  /** Formatting loses nothing for codes that end in 'd' or 'h'. */
  lemma FormatExpiryTimeRoundTrip(time: string)
    requires EndsWith(time, "d") || EndsWith(time, "h")
    ensures ExpiryCodeOfLabel(FormatExpiryTime(time)) == time
  {
    LabelUnit(time);
    var shown := FormatExpiryTime(time);
    var p := DropLast(time);
    var last := time[|time| - 1];
    assert time[|time| - 1..] == [last];
    assert time == p + [last];
    if EndsWith(time, "d") {
      assert last == 'd';
      assert shown == p + DaysUnit;
      assert shown[..|shown| - |DaysUnit|] == p;
      assert ExpiryCodeOfLabel(shown) == p + "d";
    } else {
      assert last == 'h';
      assert shown == p + HoursUnit;
      assert shown[..|shown| - |HoursUnit|] == p;
      assert ExpiryCodeOfLabel(shown) == p + "h";
    }
  }

  /** The empty code is shown as " hours"; "1h" is shown as "1 hours", with no singular. */
  lemma FormatExpiryTimeEdgeCases()
    ensures FormatExpiryTime("") == " hours"
    ensures FormatExpiryTime("1h") == "1 hours"
    ensures FormatExpiryTime("7d") == "7 days"
  {
  }

  /**
   * "Downloads remaining": "Unlimited" for the limit "unlimited", and the
   * limit text itself otherwise.
   */
  function DownloadsRemaining(downloadLimit: string): (shown: string)
    ensures shown == "Unlimited" <==> downloadLimit == "unlimited" || downloadLimit == "Unlimited"
    ensures downloadLimit != "unlimited" ==> shown == downloadLimit
  {
    if downloadLimit == "unlimited" then "Unlimited" else downloadLimit
  }
}
