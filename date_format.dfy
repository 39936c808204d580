/**
 The two string helpers of the web API: the two-character zero padding and the
 `"YYYY-MM-DD HH:MM:SS"` UTC timestamp written into every `last_update` field.
 The clock is not read here: the UTC components are parameters.
 */
module DateFormat {

  /** The character of a decimal digit. */
  function Digit(d: nat): (c: char)
    requires d < 10
    ensures '0' <= c <= '9'
  {
    (48 + d) as char
  }

  predicate IsDigits(s: string)
  {
    forall i :: 0 <= i < |s| ==> '0' <= s[i] <= '9'
  }

  /** Decimal rendering of a non-negative integer, as JavaScript's `toString()` writes a whole number. */
  function NatToString(n: nat): (s: string)
    ensures 1 <= |s|
    ensures IsDigits(s)
    decreases n
  {
    if n < 10 then [Digit(n)] else NatToString(n / 10) + [Digit(n % 10)]
  }

  /** The number a string of decimal digits denotes (a non-digit reads as 0); the inverse of NatToString. */
  function DecimalValue(s: string): nat
  {
    if s == [] then 0
    else
      var c := s[|s| - 1];
      DecimalValue(s[..|s| - 1]) * 10 + (if '0' <= c <= '9' then c as int - 48 else 0)
  }

  function Pow10(k: nat): nat
  {
    if k == 0 then 1 else 10 * Pow10(k - 1)
  }

  lemma {:induction false} DecimalValueOfNatToString(n: nat)
    ensures DecimalValue(NatToString(n)) == n
    decreases n
  {
    if n >= 10 {
      var s := NatToString(n);
      assert s[..|s| - 1] == NatToString(n / 10);
      DecimalValueOfNatToString(n / 10);
    }
  }

  /** A number with k + 1 digits is written with k + 1 characters: no sign and no leading zero. */
  lemma {:induction false} NatToStringLength(n: nat, k: nat)
    requires Pow10(k) <= n < Pow10(k + 1)
    ensures |NatToString(n)| == k + 1
    decreases k
  {
    if k > 0 {
      NatToStringLength(n / 10, k - 1);
    }
  }

  /** `addZeroForTwoChar`: a one-character string gets a leading "0"; every other string is returned as it is. */
  function AddZeroForTwoChar(s: string): (r: string)
    ensures |s| == 1 ==> |r| == 2 && r[0] == '0' && r[1..] == s
    ensures |s| != 1 ==> r == s
    ensures IsDigits(s) ==> IsDigits(r)
  {
    if |s| == 1 then "0" + s else s
  }

  lemma AddZeroForTwoCharIdempotent(s: string)
    ensures AddZeroForTwoChar(AddZeroForTwoChar(s)) == AddZeroForTwoChar(s)
  {
  }

  /** A number below 100, rendered and padded, is exactly two digits that read back as that number. */
  lemma PaddedTwoDigits(n: nat)
    requires n < 100
    ensures |AddZeroForTwoChar(NatToString(n))| == 2
    ensures IsDigits(AddZeroForTwoChar(NatToString(n)))
    ensures DecimalValue(AddZeroForTwoChar(NatToString(n))) == n
  {
    var s := NatToString(n);
    if n < 10 {
      var p := AddZeroForTwoChar(s);
      assert p == ['0', Digit(n)];
      assert p[..1] == ['0'] && ['0'][..0] == [];
    } else {
      NatToStringLength(n, 1);
      DecimalValueOfNatToString(n);
    }
  }

  /**
   `getNowDate`: year, then month (written 1-based), day, hours, minutes and
   seconds, each but the year padded to two characters, joined as
   `year "-" MM "-" DD " " HH ":" MM ":" SS`. `monthIndex` is the 0-based
   month the clock reports.
   */
  function NowDate(year: nat, monthIndex: nat, day: nat, hours: nat, minutes: nat, seconds: nat): (r: string)
    ensures |NatToString(year)| < |r| && r[..|NatToString(year)|] == NatToString(year)
    ensures r[|NatToString(year)|] == '-'
    ensures StampChars(r)
  {
    var y := NatToString(year);
    var mo := AddZeroForTwoChar(NatToString(monthIndex + 1));
    var d := AddZeroForTwoChar(NatToString(day));
    var h := AddZeroForTwoChar(NatToString(hours));
    var mi := AddZeroForTwoChar(NatToString(minutes));
    var se := AddZeroForTwoChar(NatToString(seconds));
    JoinedStampChars(y, mo, d, h, mi, se);
    y + "-" + mo + "-" + d + " " + h + ":" + mi + ":" + se
  }

  /** The characters a timestamp is made of: decimal digits and the separators '-', ' ' and ':'. */
  predicate StampChars(s: string)
  {
    forall i :: 0 <= i < |s| ==> '0' <= s[i] <= '9' || s[i] in "-: "
  }

  /** Digits joined by the timestamp's separators keep to the timestamp's characters. */
  lemma JoinedStampChars(y: string, mo: string, d: string, h: string, mi: string, se: string)
    requires IsDigits(y) && IsDigits(mo) && IsDigits(d) && IsDigits(h) && IsDigits(mi) && IsDigits(se)
    ensures StampChars(y + "-" + mo + "-" + d + " " + h + ":" + mi + ":" + se)
  {
  }

  /**
   For a four-digit year and in-range components the timestamp is 19
   characters with its separators at fixed positions, and each field reads
   back as the component it was built from.
   */
  lemma NowDateLayout(year: nat, monthIndex: nat, day: nat, hours: nat, minutes: nat, seconds: nat)
    requires 1000 <= year <= 9999 && monthIndex < 12 && 1 <= day <= 31
    requires hours < 24 && minutes < 60 && seconds < 60
    ensures var r := NowDate(year, monthIndex, day, hours, minutes, seconds);
      && |r| == 19
      && r[4] == '-' && r[7] == '-' && r[10] == ' ' && r[13] == ':' && r[16] == ':'
      && IsDigits(r[0..4]) && IsDigits(r[5..7]) && IsDigits(r[8..10])
      && IsDigits(r[11..13]) && IsDigits(r[14..16]) && IsDigits(r[17..19])
      && DecimalValue(r[0..4]) == year
      && DecimalValue(r[5..7]) == monthIndex + 1
      && DecimalValue(r[8..10]) == day
      && DecimalValue(r[11..13]) == hours
      && DecimalValue(r[14..16]) == minutes
      && DecimalValue(r[17..19]) == seconds
  {
    assert Pow10(3) == 1000 && Pow10(4) == 10000;
    NatToStringLength(year, 3);
    DecimalValueOfNatToString(year);
    PaddedTwoDigits(monthIndex + 1);
    PaddedTwoDigits(day);
    PaddedTwoDigits(hours);
    PaddedTwoDigits(minutes);
    PaddedTwoDigits(seconds);
    JoinedFields(NatToString(year), AddZeroForTwoChar(NatToString(monthIndex + 1)),
      AddZeroForTwoChar(NatToString(day)), AddZeroForTwoChar(NatToString(hours)),
      AddZeroForTwoChar(NatToString(minutes)), AddZeroForTwoChar(NatToString(seconds)));
  }

  /** Where each field lands once a four-character year and five two-character fields are joined. */
  lemma JoinedFields(y: string, mo: string, d: string, h: string, mi: string, se: string)
    requires |y| == 4 && |mo| == 2 && |d| == 2 && |h| == 2 && |mi| == 2 && |se| == 2
    ensures var r := y + "-" + mo + "-" + d + " " + h + ":" + mi + ":" + se;
      && |r| == 19
      && r[4] == '-' && r[7] == '-' && r[10] == ' ' && r[13] == ':' && r[16] == ':'
      && r[0..4] == y && r[5..7] == mo && r[8..10] == d
      && r[11..13] == h && r[14..16] == mi && r[17..19] == se
  {
    // Deep in the join the solver needs each two-character slice spelled out.
    var r := y + "-" + mo + "-" + d + " " + h + ":" + mi + ":" + se;
    assert r[11..13] == [h[0], h[1]] && r[14..16] == [mi[0], mi[1]] && r[17..19] == [se[0], se[1]];
  }
}
