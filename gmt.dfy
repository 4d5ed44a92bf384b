/**
 * The `(GMT±H:MM) <label>` prefix of every option label (src/index.tsx:162-165).
 *
 * The source computes `min = offset * 60` from the library's offset in hours;
 * here the offset is given directly in whole minutes.  The hour part is
 * `(min / 60) ^ 0`: the quotient truncated toward zero and then wrapped to a
 * signed 32-bit integer by `^`.  The minute part is `"00"` when `min % 60` is
 * zero and otherwise the absolute value of that truncated remainder, with no
 * padding.  A `+` is put in front exactly when the hour:minute text contains no
 * `-`.
 */
module GmtOffset {
  import opened Decimal

  const TwoTo31: int := 0x8000_0000
  const TwoTo32: int := 0x1_0000_0000

  /** The quotient `minutes / 60`, truncated toward zero. */
  function WholeHours(minutes: int): (h: int)
    ensures minutes >= 0 ==> 0 <= minutes - 60 * h < 60
    ensures minutes < 0 ==> -60 < minutes - 60 * h <= 0
  {
    if minutes >= 0 then minutes / 60 else -((-minutes) / 60)
  }

  /** JavaScript's `minutes % 60`: the remainder has the sign of the dividend. */
  function Remainder(minutes: int): (r: int)
    ensures minutes == 60 * WholeHours(minutes) + r
    ensures -60 < r < 60
    ensures r != 0 ==> (r < 0 <==> minutes < 0)
  {
    minutes - 60 * WholeHours(minutes)
  }

  function Abs(x: int): nat {
    if x < 0 then -x else x
  }

  /** ECMAScript's ToInt32, which `x ^ 0` applies to an integral `x`. */
  function ToInt32(x: int): (r: int)
    ensures -TwoTo31 <= r < TwoTo31
    ensures (x - r) % TwoTo32 == 0
    ensures -TwoTo31 <= x < TwoTo31 ==> r == x
  {
    var m := x % TwoTo32;
    if m >= TwoTo31 then m - TwoTo32 else m
  }

  /**
   * `(min / 60) ^ 0`: the whole hours, wrapped to a signed 32-bit integer; they
   * are the whole hours themselves when those fit that range.
   */
  function Hour(minutes: int): (h: int)
    ensures -TwoTo31 <= h < TwoTo31
    ensures (WholeHours(minutes) - h) % TwoTo32 == 0
    ensures -TwoTo31 * 60 < minutes < TwoTo31 * 60 ==> h == WholeHours(minutes)
  {
    ToInt32(WholeHours(minutes))
  }

  /**
   * `min % 60 === 0 ? '00' : Math.abs(min % 60)`: `"00"` for a whole hour,
   * otherwise the magnitude of the remainder written without padding.
   */
  function MinuteText(minutes: int): (s: string)
    ensures AllDigits(s) && 1 <= |s| <= 2
    ensures s == "00" <==> Remainder(minutes) == 0
    ensures Remainder(minutes) != 0 ==> ParseNat(s) == Abs(Remainder(minutes)) && s[0] != '0'
  {
    if Remainder(minutes) == 0 then "00"
    else
      ParseNatToString(Abs(Remainder(minutes)));
      NatToString(Abs(Remainder(minutes)))
  }

  /** The source's `hr`: it holds a `-`, at its start, exactly when the hour is negative. */
  function HourText(minutes: int): (s: string)
    ensures '-' in s <==> Hour(minutes) < 0
    ensures '-' in s ==> s[0] == '-'
  {
    IntToString(Hour(minutes)) + ":" + MinuteText(minutes)
  }

  /**
   * `(GMT` + hr with a `+` put in front when hr holds no `-`, + `)`: the fifth
   * character is the sign of the wrapped hour.
   */
  function GmtTag(minutes: int): (t: string)
    ensures 8 <= |t| && t[..4] == "(GMT" && t[|t| - 1] == ')'
    ensures t[4] == (if Hour(minutes) < 0 then '-' else '+')
  {
    var hr := HourText(minutes);
    "(GMT" + (if '-' in hr then hr else "+" + hr) + ")"
  }

  /** The source's `prefix`: the GMT tag, a space and the catalog label. */
  function Prefix(minutes: int, catalogLabel: string): (p: string)
    ensures |p| == |GmtTag(minutes)| + 1 + |catalogLabel|
    ensures p[..4] == "(GMT" && p[|p| - |catalogLabel| - 1] == ' '
    ensures p[|p| - |catalogLabel|..] == catalogLabel
  {
    GmtTag(minutes) + " " + catalogLabel
  }

  /** Offsets whose whole hours fit the signed 32-bit range, so `^ 0` does not wrap. */
  predicate InHourRange(minutes: int) {
    -TwoTo31 * 60 < minutes < TwoTo31 * 60
  }

  /** The sign shown in the tag is `-` exactly when the (wrapped) hour is negative. */
  lemma GmtTagSign(minutes: int)
    ensures GmtTag(minutes)
         == "(GMT" + (if Hour(minutes) < 0 then "-" else "+")
            + NatToString(Abs(Hour(minutes))) + ":" + MinuteText(minutes) + ")"
  {
    if Hour(minutes) < 0 {
      assert IntToString(Hour(minutes)) == "-" + NatToString(Abs(Hour(minutes)));
    }
  }

  /**
   * Within the 32-bit hour range, the tag shows `-` exactly for offsets of at
   * most -60 minutes, followed by the whole hours and the minute text.
   */
  lemma GmtTagShape(minutes: int)
    requires InHourRange(minutes)
    ensures Hour(minutes) == WholeHours(minutes)
    ensures GmtTag(minutes)
         == "(GMT" + (if minutes <= -60 then "-" else "+")
            + NatToString(Abs(WholeHours(minutes))) + ":" + MinuteText(minutes) + ")"
  {
    GmtTagSign(minutes);
  }

  /** Within an hour of zero, the tag is `+0:` followed by the distance in minutes. */
  lemma UnderAnHourTag(minutes: int)
    requires -60 < minutes < 60 && minutes != 0
    ensures GmtTag(minutes) == "(GMT+0:" + NatToString(Abs(minutes)) + ")"
  {
    GmtTagShape(minutes);
    assert WholeHours(minutes) == 0 && MinuteText(minutes) == NatToString(Abs(minutes));
    assert NatToString(0) == "0";
  }

  /** Faithful quirk: an offset strictly between -60 and 0 minutes shows `+0:`, the same tag as its negation. */
  lemma NegativeUnderAnHourShowsPlus(minutes: int)
    requires -60 < minutes < 0
    ensures GmtTag(minutes) == GmtTag(-minutes)
    ensures GmtTag(minutes) == "(GMT+0:" + NatToString(-minutes) + ")"
  {
    UnderAnHourTag(minutes);
    UnderAnHourTag(-minutes);
  }

  lemma GmtTagOfMinus270()
    ensures GmtTag(-270) == "(GMT-4:30)"
  {
    GmtTagShape(-270);
  }

  lemma GmtTagOf330()
    ensures GmtTag(330) == "(GMT+5:30)"
  {
    GmtTagShape(330);
  }

  lemma GmtTagOfZero()
    ensures GmtTag(0) == "(GMT+0:00)"
  {
    GmtTagShape(0);
  }

  lemma GmtTagOf60()
    ensures GmtTag(60) == "(GMT+1:00)"
  {
    GmtTagShape(60);
  }

  lemma GmtTagOfMinus30()
    ensures GmtTag(-30) == "(GMT+0:30)"
  {
    GmtTagShape(-30);
  }

  lemma ColonPositionsDiffer(x1: string, y1: string, x2: string, y2: string)
    requires AllDigits(x2) && |x1| < |x2|
    ensures x1 + ":" + y1 != x2 + ":" + y2
  {
    assert (x1 + ":" + y1)[|x1|] == ':';
    assert (x2 + ":" + y2)[|x1|] == x2[|x1|];
  }

  lemma SplitAtColon(x1: string, y1: string, x2: string, y2: string)
    requires AllDigits(x1) && AllDigits(x2)
    requires x1 + ":" + y1 == x2 + ":" + y2
    ensures x1 == x2 && y1 == y2
  {
    var s := x1 + ":" + y1;
    if |x1| < |x2| {
      ColonPositionsDiffer(x1, y1, x2, y2);
    } else if |x2| < |x1| {
      ColonPositionsDiffer(x2, y2, x1, y1);
    }
    assert x1 == s[..|x1|] && x2 == (x2 + ":" + y2)[..|x2|];
    assert y1 == s[|x1| + 1..] && y2 == (x2 + ":" + y2)[|x2| + 1..];
  }

  lemma MinuteTextInjective(a: int, b: int)
    requires MinuteText(a) == MinuteText(b)
    ensures Abs(Remainder(a)) == Abs(Remainder(b))
  {
    if Remainder(a) != 0 && Remainder(b) != 0 {
      NatToStringInjective(Abs(Remainder(a)), Abs(Remainder(b)));
    }
  }

  /** The sign character and the text between it and the closing parenthesis. */
  lemma GmtTagParts(minutes: int)
    requires InHourRange(minutes)
    ensures var t := GmtTag(minutes);
      6 <= |t| && t[4] == (if minutes <= -60 then '-' else '+')
      && t[5..|t| - 1] == NatToString(Abs(WholeHours(minutes))) + ":" + MinuteText(minutes)
  {
    GmtTagShape(minutes);
  }

  /**
   * Outside the quirk's interval (-60, 0), two offsets in the hour range with the
   * same tag are the same offset: the tag determines the offset.
   */
  lemma GmtTagInjective(a: int, b: int)
    requires InHourRange(a) && InHourRange(b)
    requires !(-60 < a < 0) && !(-60 < b < 0)
    requires GmtTag(a) == GmtTag(b)
    ensures a == b
  {
    GmtTagParts(a);
    GmtTagParts(b);
    var ha, hb := Abs(WholeHours(a)), Abs(WholeHours(b));
    SplitAtColon(NatToString(ha), MinuteText(a), NatToString(hb), MinuteText(b));
    NatToStringInjective(ha, hb);
    MinuteTextInjective(a, b);
  }
}
