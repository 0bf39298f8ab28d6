/**
 * `process_date`, the lenient validity-date normaliser nested in `upload_document` (api.py):
 * blank strings and the words "null", "none" and "string" mean no date; otherwise the text is
 * kept exactly when `datetime.strptime(text, "%Y-%m-%d")` accepts it, and dropped when not.
 */
module Dates {
  import opened Wrappers
  import opened Text

  predicate IsDigit(c: char) { '0' <= c <= '9' }

  /** The text of `%Y`: four digits. */
  predicate YearText(t: string) {
    |t| == 4 && forall i :: 0 <= i < 4 ==> IsDigit(t[i])
  }

  /** The text of `%m`, whose pattern is `1[0-2]|0[1-9]|[1-9]`. */
  predicate MonthText(t: string) {
    || (|t| == 2 && t[0] == '1' && '0' <= t[1] <= '2')
    || (|t| == 2 && t[0] == '0' && '1' <= t[1] <= '9')
    || (|t| == 1 && '1' <= t[0] <= '9')
  }

  /** The text of `%d`, whose pattern is `3[01]|[12]\d|0[1-9]|[1-9]| [1-9]`. */
  predicate DayText(t: string) {
    || (|t| == 2 && t[0] == '3' && (t[1] == '0' || t[1] == '1'))
    || (|t| == 2 && (t[0] == '1' || t[0] == '2') && IsDigit(t[1]))
    || (|t| == 2 && (t[0] == '0' || t[0] == ' ') && '1' <= t[1] <= '9')
    || (|t| == 1 && '1' <= t[0] <= '9')
  }

  function Digit(c: char): nat { if IsDigit(c) then c as int - '0' as int else 0 }

  /** `int(t)` of a field: its digits in base ten (the leading blank a day may have counts as nothing). */
  function FieldValue(t: string): nat {
    if t == [] then 0
    else
      FieldValue(t[..|t| - 1]) * 10 + Digit(t[|t| - 1])
  }

  lemma FieldValueOfFour(t: string)
    requires |t| == 4
    ensures FieldValue(t) == 1000 * Digit(t[0]) + 100 * Digit(t[1]) + 10 * Digit(t[2]) + Digit(t[3])
  {
    var t1, t2, t3 := t[..1], t[..2], t[..3];
    assert t1[..0] == [] && t2[..1] == t1 && t3[..2] == t2 && t[..3] == t3;
    assert FieldValue(t1) == Digit(t[0]);
    assert FieldValue(t2) == 10 * Digit(t[0]) + Digit(t[1]);
    assert FieldValue(t3) == 100 * Digit(t[0]) + 10 * Digit(t[1]) + Digit(t[2]);
  }

  predicate IsLeap(y: int) {
    y % 4 == 0 && (y % 100 != 0 || y % 400 == 0)
  }

  function DaysInMonth(y: int, m: int): int {
    if m == 2 then (if IsLeap(y) then 29 else 28)
    else if m == 4 || m == 6 || m == 9 || m == 11 then 30
    else 31
  }

  /** What `datetime.date(y, m, d)` accepts: years 1 to 9999 and a day that exists in its month. */
  predicate CalendarDate(y: int, m: int, d: int) {
    1 <= y <= 9999 && 1 <= m <= 12 && 1 <= d <= DaysInMonth(y, m)
  }

  /**
   * The strings `strptime(s, "%Y-%m-%d")` accepts: four year digits, a dash, a month field,
   * a dash, a day field and nothing after it, naming a real calendar date.
   */
  ghost predicate StrptimeAccepts(s: string) {
    exists p :: 5 < p < |s| && s[4] == '-' && s[p] == '-'
      && YearText(s[..4]) && MonthText(s[5..p]) && DayText(s[p + 1..])
      && CalendarDate(FieldValue(s[..4]), FieldValue(s[5..p]), FieldValue(s[p + 1..]))
  }

  /** The position of the second dash: right after a one- or two-character month. */
  function SecondDash(s: string): Option<nat> {
    if |s| < 8 || s[4] != '-' then None
    else if s[6] == '-' then Some(6)
    else if s[7] == '-' then Some(7)
    else None
  }

  /** The strptime check, position by position. */
  predicate ParsesAsDate(s: string) {
    match SecondDash(s)
    case None => false
    case Some(p) =>
      && p < |s|
      && YearText(s[..4]) && MonthText(s[5..p]) && DayText(s[p + 1..])
      && CalendarDate(FieldValue(s[..4]), FieldValue(s[5..p]), FieldValue(s[p + 1..]))
  }

  /** The position-by-position check accepts exactly the strings strptime accepts. */
  lemma ParsesAsDateCorrect(s: string)
    ensures ParsesAsDate(s) <==> StrptimeAccepts(s)
  {
    if StrptimeAccepts(s) {
      var p :| 5 < p < |s| && s[4] == '-' && s[p] == '-'
        && YearText(s[..4]) && MonthText(s[5..p]) && DayText(s[p + 1..])
        && CalendarDate(FieldValue(s[..4]), FieldValue(s[5..p]), FieldValue(s[p + 1..]));
      assert |s[p + 1..]| >= 1 && |s[5..p]| <= 2;
      if p == 7 {
        assert s[5..p][1] == s[6];
      }
      assert SecondDash(s) == Some(p);
    }
  }

  /** The words `process_date` reads as "no date", compared after lower-casing. */
  predicate IsNoDateWord(s: string) {
    Lower(s) in ["", "null", "none", "string"]
  }

  /**
   * `process_date`: `None` for a missing, blank or "no date" value and for one strptime rejects
   * (the ValueError is caught); the value itself, unchanged, when strptime accepts it.
   */
  function ProcessDate(s: Option<string>): (r: Option<string>)
    ensures r.Some? ==> r == s
    ensures r.Some? <==> s.Some? && StrptimeAccepts(s.value)
  {
    if s.None? || s.value == "" || IsBlank(s.value) || IsNoDateWord(s.value) then
      None
    else
      ParsesAsDateCorrect(s.value);
      if ParsesAsDate(s.value) then s else None
  }

  /** Missing, blank and "no date" values normalise to no date. */
  lemma ProcessDateNoDateValues()
    ensures ProcessDate(None) == None && ProcessDate(Some("")) == None && ProcessDate(Some(" \t ")) == None
    ensures ProcessDate(Some("null")) == None && ProcessDate(Some("None")) == None && ProcessDate(Some("STRING")) == None
  {
    assert Lower("null") == "null";
    assert Lower("None") == "none";
    assert Lower("STRING") == "string";
    assert IsBlank(" \t ");
  }

  /** Text strptime rejects normalises to no date: an impossible month, February 29 of a common year, year 0, trailing text. */
  lemma ProcessDateRejects()
    ensures ProcessDate(Some("2025-13-40")) == None
    ensures ProcessDate(Some("2025-02-29")) == None
    ensures ProcessDate(Some("0000-01-01")) == None
    ensures ProcessDate(Some("2025-09-01 ")) == None
  {
    assert !ParsesAsDate("2025-13-40") by {
      assert !MonthText("2025-13-40"[5..7]);
    }
    assert !ParsesAsDate("2025-02-29") by {
      var s := "2025-02-29";
      assert s[..4] == "2025" && s[5..7] == "02";
      FieldValueOfFour("2025");
    }
    assert !ParsesAsDate("0000-01-01") by {
      assert "0000-01-01"[..4] == "0000";
      FieldValueOfFour("0000");
    }
    assert !ParsesAsDate("2025-09-01 ") by {
      assert |"2025-09-01 "[8..]| == 3;
    }
    ParsesAsDateCorrect("2025-13-40");
    ParsesAsDateCorrect("2025-02-29");
    ParsesAsDateCorrect("0000-01-01");
    ParsesAsDateCorrect("2025-09-01 ");
  }

  /** Real calendar dates pass through unchanged. */
  lemma ProcessDateKeepsIsoDate()
    ensures ProcessDate(Some("2025-09-01")) == Some("2025-09-01")
  {
    var s := "2025-09-01";
    assert ParsesAsDate(s) by {
      assert SecondDash(s) == Some(7);
      assert s[..4] == "2025" && s[5..7] == "09" && s[8..] == "01";
      FieldValueOfFour("2025");
      assert FieldValue("09") == 9 by { assert "09"[..1][..0] == []; }
      assert FieldValue("01") == 1 by { assert "01"[..1][..0] == []; }
    }
    ParsesAsDateCorrect(s);
  }

  /** February 29 of a leap year is a real date. */
  lemma ProcessDateKeepsLeapDay()
    ensures ProcessDate(Some("2024-02-29")) == Some("2024-02-29")
  {
    var s := "2024-02-29";
    assert ParsesAsDate(s) by {
      assert SecondDash(s) == Some(7);
      assert s[..4] == "2024" && s[5..7] == "02" && s[8..] == "29";
      FieldValueOfFour("2024");
      assert FieldValue("02") == 2 by { assert "02"[..1][..0] == []; }
      assert FieldValue("29") == 29 by { assert "29"[..1][..0] == []; }
    }
    ParsesAsDateCorrect(s);
  }

  /** `%m` and `%d` also take a single digit, so this text is kept as written. */
  lemma ProcessDateKeepsShortFields()
    ensures ProcessDate(Some("2025-9-1")) == Some("2025-9-1")
  {
    var s := "2025-9-1";
    assert ParsesAsDate(s) by {
      assert SecondDash(s) == Some(6);
      assert s[..4] == "2025" && s[5..6] == "9" && s[7..] == "1";
      FieldValueOfFour("2025");
      assert FieldValue("9") == 9 by { assert "9"[..0] == []; }
      assert FieldValue("1") == 1 by { assert "1"[..0] == []; }
    }
    ParsesAsDateCorrect(s);
  }
}
