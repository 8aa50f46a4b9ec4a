/**
 * The text formats the order code checks with regular expressions: the
 * `YYYY-MM-DD` date and `HH:MM` time of the schema and the client, and the
 * looser hour-and-minute pattern of the request validator.
 */
module Formats {
  import opened Text

  /** `^\d{4}-\d{2}-\d{2}$`: four digits, '-', two digits, '-', two digits. */
  predicate IsDateFormat(s: string)
  {
    && |s| == 10
    && IsDigit(s[0]) && IsDigit(s[1]) && IsDigit(s[2]) && IsDigit(s[3])
    && s[4] == '-' && IsDigit(s[5]) && IsDigit(s[6])
    && s[7] == '-' && IsDigit(s[8]) && IsDigit(s[9])
  }

  /** `^\d{2}:\d{2}$`: two digits, ':', two digits; any digits, so "99:99" passes. */
  predicate IsClockFormat(s: string)
  {
    |s| == 5 && IsDigit(s[0]) && IsDigit(s[1]) && s[2] == ':' && IsDigit(s[3]) && IsDigit(s[4])
  }

  /** A clock text whose hour is at most 23 and whose minute is at most 59. */
  predicate IsClockTime(s: string)
  {
    && IsClockFormat(s)
    && DigitValue(s[0]) * 10 + DigitValue(s[1]) <= 23
    && DigitValue(s[3]) * 10 + DigitValue(s[4]) <= 59
  }

  /** The hour alternatives of `([0-1]?[0-9]|2[0-3])`. */
  predicate IsRouteHour(h: string)
  {
    || (|h| == 1 && IsDigit(h[0]))
    || (|h| == 2 && '0' <= h[0] <= '1' && IsDigit(h[1]))
    || (|h| == 2 && h[0] == '2' && '0' <= h[1] <= '3')
  }

  /** The minute part `[0-5][0-9]`. */
  predicate IsRouteMinute(m: string)
  {
    |m| == 2 && '0' <= m[0] <= '5' && IsDigit(m[1])
  }

  /** `^([0-1]?[0-9]|2[0-3]):[0-5][0-9]$` read as a pattern: some ':' splits an hour and a minute. */
  ghost predicate MatchesRouteTimePattern(s: string)
  {
    exists i :: 0 <= i < |s| && s[i] == ':' && IsRouteHour(s[..i]) && IsRouteMinute(s[i + 1..])
  }

  /** The request validator's time check, by the position of the ':' (which the minute fixes). */
  predicate IsRouteTime(s: string)
  {
    |s| >= 4 && s[|s| - 3] == ':' && IsRouteHour(s[..|s| - 3]) && IsRouteMinute(s[|s| - 2..])
  }

  /** The positional check accepts exactly the strings the pattern matches. */
  lemma RouteTimeMatchesPattern(s: string)
    ensures IsRouteTime(s) <==> MatchesRouteTimePattern(s)
  {
    if IsRouteTime(s) {
      var i := |s| - 3;
      assert s[i + 1..] == s[|s| - 2..];
      assert 0 <= i < |s| && s[i] == ':' && IsRouteHour(s[..i]) && IsRouteMinute(s[i + 1..]);
    }
    if MatchesRouteTimePattern(s) {
      var i :| 0 <= i < |s| && s[i] == ':' && IsRouteHour(s[..i]) && IsRouteMinute(s[i + 1..]);
      assert i == |s| - 3;
    }
  }

  /**
   * How the request validator and the schema disagree on times: the validator
   * accepts exactly the in-range clock times, written with two hour digits or,
   * for hours 0 to 9, with one; the schema accepts every two-digit, two-digit
   * text. So "9:30" passes the validator and fails the schema, and "99:99"
   * passes the schema and fails the validator.
   */
  lemma RouteTimeVersusClockFormat(s: string)
    ensures IsRouteTime(s) <==> IsClockTime(if |s| == 4 then "0" + s else s)
    ensures IsRouteTime(s) && IsClockFormat(s) <==> IsClockTime(s)
    ensures IsRouteTime(s) && !IsClockFormat(s) <==> |s| == 4 && IsClockTime("0" + s)
    ensures IsRouteTime("9:30") && !IsClockFormat("9:30")
    ensures IsClockFormat("99:99") && !IsRouteTime("99:99")
  {
    if |s| == 4 {
      var t := "0" + s;
      assert t[1..] == s && t[0] == '0';
      assert s[..1] == [s[0]] && s[2..] == [s[2], s[3]];
    } else if |s| == 5 {
      assert s[..2] == [s[0], s[1]] && s[3..] == [s[3], s[4]];
    }
    assert "9:30"[..1] == "9" && "9:30"[2..] == "30";
    assert "99:99"[..2] == "99";
  }
}
