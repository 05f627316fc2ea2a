/** The time format of the bot: is_valid_time (bot.py:32-33) and the
    combined "time, space, description" pattern of the add flow
    (bot.py:65, 70), written as predicates over characters. */
module TimeFormat {
  import opened Wrappers
  import opened Digits

  /** The hour group ([0-1]?[0-9]|2[0-3]) matched against all of h. */
  predicate IsHourText(h: string) {
    || (|h| == 1 && IsDigit(h[0]))
    || (|h| == 2 && '0' <= h[0] <= '1' && IsDigit(h[1]))
    || (|h| == 2 && h[0] == '2' && '0' <= h[1] <= '3')
  }

  /** The minute part [0-5][0-9] matched against all of m. */
  predicate IsMinuteText(m: string) {
    |m| == 2 && '0' <= m[0] <= '5' && IsDigit(m[1])
  }

  /** is_valid_time: the anchored pattern ^([0-1]?[0-9]|2[0-3]):[0-5][0-9]$.
      The minute is always the last two characters, so the colon sits
      third from the end and the hour is whatever precedes it. */
  function IsValidTime(s: string): (valid: bool)
    ensures valid ==> 4 <= |s| <= 5 && s[|s| - 3] == ':' && forall i | 0 <= i < |s| :: IsDigit(s[i]) <==> i != |s| - 3
  {
    4 <= |s| <= 5 && IsHourText(s[..|s| - 3]) && s[|s| - 3] == ':' && IsMinuteText(s[|s| - 2..])
  }

  function TwoDigits(n: nat): string
    requires n < 100
  {
    [DigitChar(n / 10), DigitChar(n % 10)]
  }

  /** The text of the time h:m, with the hour written with two digits when
      padded holds and with one digit otherwise. */
  function TimeText(h: nat, m: nat, padded: bool): string
    requires h < 24 && m < 60 && (padded || h < 10)
  {
    (if padded then TwoDigits(h) else [DigitChar(h)]) + ":" + TwoDigits(m)
  }

  function HourOf(s: string): nat
    requires IsValidTime(s)
  {
    DigitsValue(s[..|s| - 3])
  }

  function MinuteOf(s: string): nat
    requires IsValidTime(s)
  {
    DigitsValue(s[|s| - 2..])
  }

  lemma TwoDigitsValue(n: nat)
    requires n < 100
    ensures AllDigits(TwoDigits(n)) && DigitsValue(TwoDigits(n)) == n
  {
    DigitsValueShort(TwoDigits(n));
  }

  /** Every time of day, written with a one-digit hour (hours 0-9) or a
      two-digit hour, is accepted, and its hour and minute read back. */
  lemma TimeTextIsValid(h: nat, m: nat, padded: bool)
    requires h < 24 && m < 60 && (padded || h < 10)
    ensures var t := TimeText(h, m, padded);
      IsValidTime(t) && HourOf(t) == h && MinuteOf(t) == m && (|t| == 5 <==> padded)
  {
    var t := TimeText(h, m, padded);
    var hour := if padded then TwoDigits(h) else [DigitChar(h)];
    assert t[..|t| - 3] == hour;
    assert t[|t| - 2..] == TwoDigits(m);
    TwoDigitsValue(m);
    if padded {
      TwoDigitsValue(h);
    } else {
      DigitsValueShort(hour);
    }
  }

  /** Every accepted string is the text of a time of day: an hour below 24
      (below 10 when written with one digit) and a minute below 60. */
  lemma ValidTimeIsTimeText(s: string)
    requires IsValidTime(s)
    ensures HourOf(s) < 24 && MinuteOf(s) < 60 && (|s| == 5 || HourOf(s) < 10)
    ensures s == TimeText(HourOf(s), MinuteOf(s), |s| == 5)
  {
    var hour, minute := s[..|s| - 3], s[|s| - 2..];
    var m0, m1 := DigitValue(minute[0]), DigitValue(minute[1]);
    DigitsValueShort(minute);
    DigitsValueShort(hour);
    assert m0 <= 5;
    assert TwoDigits(MinuteOf(s)) == minute;
    if |s| == 5 {
      var h0, h1 := DigitValue(hour[0]), DigitValue(hour[1]);
      assert h0 <= 2 && (h0 == 2 ==> h1 <= 3);
      assert TwoDigits(HourOf(s)) == hour;
    } else {
      assert [DigitChar(HourOf(s))] == hour;
    }
    assert s == hour + ":" + minute;
  }

  /** is_valid_time accepts exactly the texts of the times of day. */
  lemma ValidTimeIff(s: string)
    ensures IsValidTime(s) <==>
      exists h: nat, m: nat, padded: bool :: h < 24 && m < 60 && (padded || h < 10) && s == TimeText(h, m, padded)
  {
    if IsValidTime(s) {
      ValidTimeIsTimeText(s);
    }
    forall h: nat, m: nat, padded: bool | h < 24 && m < 60 && (padded || h < 10) && s == TimeText(h, m, padded)
      ensures IsValidTime(s)
    {
      TimeTextIsValid(h, m, padded);
    }
  }

  /** Hours past 23, minutes past 59, a missing colon and the empty text are
      refused; "9:30" and "09:30" are both accepted and are different keys. */
  lemma TimeExamples()
    ensures !IsValidTime("24:00") && !IsValidTime("12:60") && !IsValidTime("1230") && !IsValidTime("")
    ensures !IsValidTime("123:45") && !IsValidTime("1:5")
    ensures IsValidTime("9:30") && IsValidTime("09:30") && "9:30" != "09:30"
    ensures IsValidTime("0:00") && IsValidTime("23:59")
  {
    assert "24:00"[..2] == "24";
    assert "12:60"[3..] == "60";
    assert "9:30"[..1] == "9" && "9:30"[2..] == "30";
    assert "09:30"[..2] == "09" && "09:30"[3..] == "30";
    assert "0:00"[..1] == "0" && "0:00"[2..] == "00";
    assert "23:59"[..2] == "23" && "23:59"[3..] == "59";
  }

  lemma ValidTimeHasNoSpace(s: string)
    requires IsValidTime(s)
    ensures ' ' !in s
  {
    ValidTimeIsTimeText(s);
  }

  /** The add-flow pattern ^([0-1]?[0-9]|2[0-3]):[0-5][0-9] .+ under
      re.match, which anchors only at the start: a valid time, one space,
      then at least one character, the first of which is not a line feed
      (the regex dot does not match "\n"); anything may follow it. */
  predicate MatchesAddPattern(text: string) {
    || (|text| >= 6 && IsValidTime(text[..4]) && text[4] == ' ' && text[5] != '\n')
    || (|text| >= 7 && IsValidTime(text[..5]) && text[5] == ' ' && text[6] != '\n')
  }

  /** The add pattern read through the first space: text matches exactly
      when it has a space, the text before the first space is a valid
      time, and a character other than a line feed follows that space. */
  lemma AddPatternAtFirstSpace(text: string)
    ensures MatchesAddPattern(text) <==> var i := FirstSpace(text);
      i >= 0 && IsValidTime(text[..i]) && i + 1 < |text| && text[i + 1] != '\n'
  {
    if |text| >= 6 && IsValidTime(text[..4]) && text[4] == ' ' {
      ValidTimeHasNoSpace(text[..4]);
      FirstSpaceAt(text, 4);
    } else if |text| >= 7 && IsValidTime(text[..5]) && text[5] == ' ' {
      ValidTimeHasNoSpace(text[..5]);
      FirstSpaceAt(text, 5);
    }
  }

  /** A space with none before it is the first space. */
  lemma FirstSpaceAt(s: string, i: nat)
    requires i < |s| && s[i] == ' ' && ' ' !in s[..i]
    ensures FirstSpace(s) == i
  {
  }

  /** The index of the first space in s, or -1 when there is none. */
  function FirstSpace(s: string): (i: int)
    ensures -1 <= i < |s|
    ensures i >= 0 ==> s[i] == ' ' && ' ' !in s[..i]
    ensures i < 0 ==> ' ' !in s
  {
    if s == [] then -1
    else if s[0] == ' ' then 0
    else
      var j := FirstSpace(s[1..]);
      assert s == [s[0]] + s[1..];
      if j < 0 then -1 else (assert s[..j + 1] == [s[0]] + s[1..][..j]; j + 1)
  }

  /** text.split(' ', 1): the text before the first space and the text
      after it, or the whole text alone when it holds no space. */
  function SplitOnce(text: string): (parts: seq<string>)
    ensures |parts| == 1 || |parts| == 2
    ensures |parts| == 1 <==> ' ' !in text
    ensures |parts| == 1 ==> parts[0] == text
    ensures |parts| == 2 ==> text == parts[0] + " " + parts[1] && ' ' !in parts[0]
  {
    var i := FirstSpace(text);
    if i < 0 then [text] else (assert text == text[..i] + " " + text[i + 1..]; [text[..i], text[i + 1..]])
  }

  /** add_task_time's reading of its input: None when the pattern does not
      match (the flow re-prompts), otherwise the key and the description
      that time, task = text.split(' ', 1) yields. */
  function ParseAddInput(text: string): (r: Option<(string, string)>)
    ensures r.Some? <==> MatchesAddPattern(text)
    ensures r.Some? ==> var (time, task) := r.value;
      IsValidTime(time) && task != [] && task[0] != '\n' && text == time + " " + task
  {
    if MatchesAddPattern(text) then
      var k := if |text| >= 6 && IsValidTime(text[..4]) && text[4] == ' ' && text[5] != '\n' then 4 else 5;
      ValidTimeHasNoSpace(text[..k]);
      assert text[..k + 1] == text[..k] + [' '];
      assert text[k + 1..][0] == text[k + 1];
      var parts := SplitOnce(text);
      assert parts[0] == text[..k] && parts[1] == text[k + 1..] by {
        var i := FirstSpace(text);
        assert i == k;
      }
      Some((parts[0], parts[1]))
    else
      None
  }

  /** Writing a valid time, a space and a description that does not start
      with a line feed gives input the add flow accepts and reads back as
      that time and that description. */
  lemma {:induction false} AddInputRoundTrip(time: string, task: string)
    requires IsValidTime(time) && task != [] && task[0] != '\n'
    ensures ParseAddInput(time + " " + task) == Some((time, task))
  {
    var text := time + " " + task;
    assert text[..|time|] == time;
    assert text[|time|] == ' ' && text[|time| + 1] == task[0];
    ValidTimeIsTimeText(time);
    var r := ParseAddInput(text);
    ValidTimeHasNoSpace(r.value.0);
    ValidTimeHasNoSpace(time);
    assert r.value.0 == time;
    assert r.value.1 == text[|time| + 1..] == task;
  }
}
