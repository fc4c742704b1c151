/**
 * Duration formatting of the metadata resolver: whole seconds rendered as
 * `M:SS` below one hour and `H:MM:SS` from one hour on. The leading unit is
 * never padded and hours are never capped.
 */
module Duration {
  import opened Wrappers
  import opened Text

  /** `String.prototype.padStart(2, '0')`. */
  function PadStart2(s: string): (r: string)
    ensures |r| == if |s| >= 2 then |s| else 2
    ensures r[|r| - |s|..] == s
    ensures forall i :: 0 <= i < |r| - |s| ==> r[i] == '0'
  {
    if |s| >= 2 then s else if |s| == 1 then "0" + s else "00"
  }

  /** The whole hours in `seconds`. */
  function Hours(seconds: nat): (h: nat)
    ensures h * 3600 <= seconds < h * 3600 + 3600
  {
    seconds / 3600
  }

  /** The whole minutes left over after the hours. */
  function Minutes(seconds: nat): (m: nat)
    ensures m < 60 && m * 60 <= seconds % 3600 < m * 60 + 60
  {
    (seconds % 3600) / 60
  }

  /** The seconds left over after the whole minutes. */
  function Seconds(seconds: nat): (s: nat)
    ensures s < 60 && (seconds - s) % 60 == 0
  {
    seconds % 60
  }

  /** The three fields recombine to the input and the lower two are clock fields. */
  lemma FieldsRecombine(seconds: nat)
    ensures Hours(seconds) * 3600 + Minutes(seconds) * 60 + Seconds(seconds) == seconds
    ensures Minutes(seconds) < 60 && Seconds(seconds) < 60
    ensures Hours(seconds) == 0 ==> Minutes(seconds) == seconds / 60
  {
    var r := seconds % 3600;
    assert seconds == Hours(seconds) * 3600 + r;
    assert r == Minutes(seconds) * 60 + r % 60;
    assert r % 60 == seconds % 60 by {
      assert seconds == Hours(seconds) * 60 * 60 + r;
    }
  }

  /** The text for the given fields: the leading field unpadded, the others padded to two digits. */
  function Clock(hours: nat, minutes: nat, remainingSeconds: nat): string
  {
    if hours > 0 then
      NatToString(hours) + ":" + PadStart2(NatToString(minutes)) + ":" + PadStart2(NatToString(remainingSeconds))
    else
      NatToString(minutes) + ":" + PadStart2(NatToString(remainingSeconds))
  }

  /** `formatDuration`: reading the text back with ParseDuration gives `seconds`. */
  function FormatDuration(seconds: nat): (text: string)
    ensures ParseDuration(text).Some? && ParseDuration(text).value == seconds
  {
    FieldsRecombine(seconds);
    ClockRoundTrip(Hours(seconds), Minutes(seconds), Seconds(seconds));
    Clock(Hours(seconds), Minutes(seconds), Seconds(seconds))
  }

  predicate IsColon(c: char) { c == ':' }

  /** The value of two or three decimal fields, weighted 60 and 1, or 3600, 60 and 1. */
  function FieldsValue(p: seq<string>): Option<nat>
  {
    if |p| == 2 && IsNumeral(p[0]) && IsNumeral(p[1]) then
      Some(DigitsValue(p[0]) * 60 + DigitsValue(p[1]))
    else if |p| == 3 && IsNumeral(p[0]) && IsNumeral(p[1]) && IsNumeral(p[2]) then
      Some(DigitsValue(p[0]) * 3600 + DigitsValue(p[1]) * 60 + DigitsValue(p[2]))
    else
      None
  }

  /**
   * Reads a duration back from its colon-separated fields: the inverse of
   * FormatDuration. It accepts exactly two or three fields, each a numeral.
   */
  function ParseDuration(text: string): (r: Option<nat>)
    ensures var p := Pieces(text, IsColon);
      r.Some? <==> (|p| == 2 || |p| == 3) && forall i :: 0 <= i < |p| ==> IsNumeral(p[i])
  {
    FieldsValue(Pieces(text, IsColon))
  }

  /** A clock field (below 60) rendered and padded: exactly two digits, same value. */
  lemma ClockField(n: nat)
    requires n < 60
    ensures |PadStart2(NatToString(n))| == 2
    ensures IsNumeral(PadStart2(NatToString(n)))
    ensures DigitsValue(PadStart2(NatToString(n))) == n
  {
    var s := NatToString(n);
    DigitsValueOfNatToString(n);
    if n >= 10 {
      assert |s| == 2 by {
        assert NatToString(n / 10) == [DigitChar(n / 10)];
      }
    } else {
      var p := PadStart2(s);
      assert p == ['0'] + s;
      assert p[..1] == ['0'];
    }
  }

  lemma NoColonInNumeral(s: string)
    requires AllDigits(s)
    ensures forall i :: 0 <= i < |s| ==> !IsColon(s[i])
  {
  }

  /** Splitting `a:b` and `a:b:c` at the colons when no field holds a colon. */
  lemma PiecesOfFields2(a: string, b: string)
    requires AllDigits(a) && AllDigits(b)
    ensures Pieces(a + ":" + b, IsColon) == [a, b]
  {
    PiecesSplitAt(a, ':', b, IsColon);
    PiecesOfPlain(b, IsColon);
  }

  lemma PiecesOfFields3(a: string, b: string, c: string)
    requires AllDigits(a) && AllDigits(b) && AllDigits(c)
    ensures Pieces(a + ":" + b + ":" + c, IsColon) == [a, b, c]
  {
    assert a + ":" + b + ":" + c == a + [':'] + (b + ":" + c);
    PiecesSplitAt(a, ':', b + ":" + c, IsColon);
    PiecesOfFields2(b, c);
  }

  /**
   * The rendered duration has the documented layout: the leading field
   * unpadded, each lower field exactly two digits reading back to its value.
   */
  lemma FormatDurationShape(seconds: nat)
    ensures var p := Pieces(FormatDuration(seconds), IsColon);
      && (seconds >= 3600 ==>
            && |p| == 3 && p[0] == NatToString(seconds / 3600)
            && |p[1]| == 2 && IsNumeral(p[1]) && DigitsValue(p[1]) == (seconds % 3600) / 60
            && |p[2]| == 2 && IsNumeral(p[2]) && DigitsValue(p[2]) == seconds % 60)
      && (seconds < 3600 ==>
            && |p| == 2 && p[0] == NatToString(seconds / 60)
            && |p[1]| == 2 && IsNumeral(p[1]) && DigitsValue(p[1]) == seconds % 60)
  {
    FieldsRecombine(seconds);
    ClockField(Minutes(seconds));
    ClockField(Seconds(seconds));
    if Hours(seconds) > 0 {
      PiecesOfFields3(NatToString(Hours(seconds)), PadStart2(NatToString(Minutes(seconds))),
                      PadStart2(NatToString(Seconds(seconds))));
    } else {
      PiecesOfFields2(NatToString(Minutes(seconds)), PadStart2(NatToString(Seconds(seconds))));
    }
  }

  /** Reading clock fields back gives their weighted sum. */
  lemma ClockRoundTrip(h: nat, m: nat, s: nat)
    requires m < 60 && s < 60
    ensures ParseDuration(Clock(h, m, s)).Some?
    ensures ParseDuration(Clock(h, m, s)).value == h * 3600 + m * 60 + s
  {
    if h > 0 {
      ClockRoundTripHours(h, m, s);
    } else {
      ClockRoundTripMinutes(m, s);
    }
  }

  lemma ClockRoundTripHours(h: nat, m: nat, s: nat)
    requires h > 0 && m < 60 && s < 60
    ensures ParseDuration(Clock(h, m, s)).Some?
    ensures ParseDuration(Clock(h, m, s)).value == h * 3600 + m * 60 + s
  {
    var hs, ms, ss := NatToString(h), PadStart2(NatToString(m)), PadStart2(NatToString(s));
    ClockField(m);
    ClockField(s);
    DigitsValueOfNatToString(h);
    assert Clock(h, m, s) == hs + ":" + ms + ":" + ss;
    ParseFields3(hs, ms, ss);
  }

  lemma ClockRoundTripMinutes(m: nat, s: nat)
    requires m < 60 && s < 60
    ensures ParseDuration(Clock(0, m, s)).Some?
    ensures ParseDuration(Clock(0, m, s)).value == m * 60 + s
  {
    var ms, ss := NatToString(m), PadStart2(NatToString(s));
    ClockField(s);
    DigitsValueOfNatToString(m);
    assert Clock(0, m, s) == ms + ":" + ss;
    ParseFields2(ms, ss);
  }

  /** Reading `a:b:c` back weighs the fields 3600, 60 and 1. */
  lemma ParseFields3(a: string, b: string, c: string)
    requires IsNumeral(a) && IsNumeral(b) && IsNumeral(c)
    ensures ParseDuration(a + ":" + b + ":" + c).Some?
    ensures ParseDuration(a + ":" + b + ":" + c).value == DigitsValue(a) * 3600 + DigitsValue(b) * 60 + DigitsValue(c)
  {
    PiecesOfFields3(a, b, c);
    var p := [a, b, c];
    assert |p| == 3 && p[0] == a && p[1] == b && p[2] == c;
    var v := FieldsValue(p);
    assert v.Some? && v.value == DigitsValue(a) * 3600 + DigitsValue(b) * 60 + DigitsValue(c);
  }

  /** Reading `a:b` back weighs the fields 60 and 1. */
  lemma ParseFields2(a: string, b: string)
    requires IsNumeral(a) && IsNumeral(b)
    ensures ParseDuration(a + ":" + b).Some?
    ensures ParseDuration(a + ":" + b).value == DigitsValue(a) * 60 + DigitsValue(b)
  {
    PiecesOfFields2(a, b);
    var p := [a, b];
    assert |p| == 2 && p[0] == a && p[1] == b;
    var v := FieldsValue(p);
    assert v.Some? && v.value == DigitsValue(a) * 60 + DigitsValue(b);
  }

  /** FormatDuration loses nothing: two durations that render alike are equal. */
  lemma FormatDurationInjective(a: nat, b: nat)
    requires FormatDuration(a) == FormatDuration(b)
    ensures a == b
  {
    assert ParseDuration(FormatDuration(a)).value == a;
  }

  lemma FormatDurationSecondsExample()
    ensures FormatDuration(45) == "0:45"
  {
    assert Hours(45) == 0 && Minutes(45) == 0 && Seconds(45) == 45;
    SecondsClockExample();
  }

  lemma SecondsClockExample()
    ensures Clock(0, 0, 45) == "0:45"
  {
    assert NatToString(45) == "45" && NatToString(0) == "0";
  }

  lemma FormatDurationMinuteExample()
    ensures FormatDuration(125) == "2:05"
  {
    assert Hours(125) == 0 && Minutes(125) == 2 && Seconds(125) == 5;
    MinuteClockExample();
  }

  lemma MinuteClockExample()
    ensures Clock(0, 2, 5) == "2:05"
  {
    assert NatToString(2) == "2" && NatToString(5) == "5";
    assert PadStart2("5") == "05";
  }

  lemma FormatDurationHourExample()
    ensures FormatDuration(3725) == "1:02:05"
  {
    assert Hours(3725) == 1 && Minutes(3725) == 2 && Seconds(3725) == 5;
    HourClockExample();
  }

  lemma HourClockExample()
    ensures Clock(1, 2, 5) == "1:02:05"
  {
    assert NatToString(1) == "1" && NatToString(2) == "2" && NatToString(5) == "5";
    assert PadStart2("2") == "02" && PadStart2("5") == "05";
  }

  /** Hours are neither capped nor padded. */
  lemma FormatDurationLongExample()
    ensures FormatDuration(360000) == "100:00:00"
  {
    assert Hours(360000) == 100 && Minutes(360000) == 0 && Seconds(360000) == 0;
    LongClockExample();
  }

  lemma LongClockExample()
    ensures Clock(100, 0, 0) == "100:00:00"
  {
    assert NatToString(100) == "100" && NatToString(0) == "0";
    assert PadStart2("0") == "00";
  }
}
