/**
 The leasing time windows of a ResourceLeasingPolicy. The code compares "HH:MM"
 strings; the model proves that this is arithmetic on a circle of 1440 minutes.
 */
module TimeWindows {
  import L = Lexicographic

  const DAY: int := 1440

  datatype TimeWindow = TimeWindow(start: string, end: string, days: seq<string>)

  predicate IsDigit(c: char) {
    '0' <= c <= '9'
  }

  function DigitValue(c: char): (v: int)
    requires IsDigit(c)
    ensures 0 <= v <= 9
  {
    c as int - '0' as int
  }

  predicate ValidTime(s: string) {
    && |s| == 5
    && s[2] == ':'
    && IsDigit(s[0]) && IsDigit(s[1])
    && DigitValue(s[0]) * 10 + DigitValue(s[1]) <= 23
    && IsDigit(s[3]) && IsDigit(s[4])
    && DigitValue(s[3]) * 10 + DigitValue(s[4]) <= 59
  }

  /** The code's test of one window, on strings. */
  predicate InRange(current: string, start: string, end: string) {
    && ValidTime(start)
    && ValidTime(end)
    && if L.Less(end, start)
       then L.AtMost(start, current) || L.AtMost(current, end)
       else L.AtMost(start, current) && L.AtMost(current, end)
  }

  function LowerChar(c: char): char {
    if 'A' <= c <= 'Z' then c + ' ' else c
  }

  function ToLower(s: string): (r: string)
    ensures |r| == |s|
  {
    seq(|s|, i requires 0 <= i < |s| => LowerChar(s[i]))
  }

  predicate DayAdmitted(w: TimeWindow, day: string) {
    w.days == [] || exists i :: 0 <= i < |w.days| && ToLower(w.days[i]) == day
  }

  // ---------- The circle of minutes ----------

  /** Minutes since midnight of a well-formed time. */
  function Minutes(s: string): (m: int)
    requires ValidTime(s)
    ensures 0 <= m < DAY
  {
    60 * (DigitValue(s[0]) * 10 + DigitValue(s[1])) + DigitValue(s[3]) * 10 + DigitValue(s[4])
  }

  /** Minutes that pass on the circle on the way from one minute to another. */
  function Clockwise(from: int, to: int): (d: int)
    ensures 0 <= d < DAY
  {
    (to - from) % DAY
  }

  /** The closed arc that starts at minute `from` and runs on for `length` minutes. */
  ghost predicate OnArc(m: int, from: int, length: int) {
    exists k :: 0 <= k <= length && m == Shift(from, k)
  }

  function Shift(from: int, k: int): int {
    (from + k) % DAY
  }

  lemma LessFive(s: string, t: string)
    requires |s| == |t| == 5
    ensures L.Less(s, t) <==>
            || s[0] < t[0]
            || (s[0] == t[0] && s[1] < t[1])
            || (s[..2] == t[..2] && s[2] < t[2])
            || (s[..3] == t[..3] && s[3] < t[3])
            || (s[..4] == t[..4] && s[4] < t[4])
  {
    LessTail(s, t, 0);
    LessTail(s, t, 1);
    LessTail(s, t, 2);
    LessTail(s, t, 3);
    LessTail(s, t, 4);
    assert !L.Less(s[5..], t[5..]);
    assert s[..2] == [s[0], s[1]] && s[..3] == [s[0], s[1], s[2]] && s[..4] == [s[0], s[1], s[2], s[3]];
    assert t[..2] == [t[0], t[1]] && t[..3] == [t[0], t[1], t[2]] && t[..4] == [t[0], t[1], t[2], t[3]];
  }

  lemma LessTail(s: string, t: string, i: nat)
    requires i < |s| == |t|
    ensures L.Less(s[i..], t[i..]) <==> s[i] < t[i] || (s[i] == t[i] && L.Less(s[i + 1..], t[i + 1..]))
  {
    assert s[i..][0] == s[i] && t[i..][0] == t[i];
    assert s[i..][1..] == s[i + 1..] && t[i..][1..] == t[i + 1..];
  }

  /** On well-formed times the string order is the order of minutes. */
  lemma StringOrderIsMinuteOrder(s: string, t: string)
    requires ValidTime(s) && ValidTime(t)
    ensures L.Less(s, t) <==> Minutes(s) < Minutes(t)
    ensures s == t <==> Minutes(s) == Minutes(t)
  {
    LessFive(s, t);
    assert s[..2] == [s[0], s[1]] && s[..3] == [s[0], s[1], s[2]] && s[..4] == [s[0], s[1], s[2], s[3]];
    assert t[..2] == [t[0], t[1]] && t[..3] == [t[0], t[1], t[2]] && t[..4] == [t[0], t[1], t[2], t[3]];
    assert s == s[..4] + [s[4]] && t == t[..4] + [t[4]];
  }

  lemma ClockwiseValue(from: int, to: int)
    requires 0 <= from < DAY && 0 <= to < DAY
    ensures Clockwise(from, to) == if from <= to then to - from else to - from + DAY
  {
  }

  lemma ShiftInverse(from: int, k: int)
    requires 0 <= from < DAY && 0 <= k < DAY
    ensures 0 <= Shift(from, k) < DAY && Clockwise(from, Shift(from, k)) == k
  {
    assert Shift(from, k) == if from + k < DAY then from + k else from + k - DAY;
    ClockwiseValue(from, Shift(from, k));
  }

  /** Lying on an arc is a question of distance from its start. */
  lemma ArcByDistance(m: int, from: int, length: int)
    requires 0 <= m < DAY && 0 <= from < DAY && 0 <= length < DAY
    ensures OnArc(m, from, length) <==> Clockwise(from, m) <= length
  {
    ClockwiseValue(from, m);
    assert m == Shift(from, Clockwise(from, m));
    forall k | 0 <= k <= length && m == Shift(from, k)
      ensures Clockwise(from, m) == k
    {
      ShiftInverse(from, k);
    }
  }

  lemma ArcByOrder(m: int, from: int, to: int)
    requires 0 <= m < DAY && 0 <= from < DAY && 0 <= to < DAY
    ensures OnArc(m, from, Clockwise(from, to)) <==> if to < from then from <= m || m <= to else from <= m <= to
  {
    ClockwiseValue(from, to);
    ClockwiseValue(from, m);
    ArcByDistance(m, from, Clockwise(from, to));
  }

  /** A window is exactly the closed arc from its start to its end, midnight or not. */
  lemma InRangeIsArc(current: string, start: string, end: string)
    requires ValidTime(current)
    ensures InRange(current, start, end) <==>
            ValidTime(start) && ValidTime(end) &&
            OnArc(Minutes(current), Minutes(start), Clockwise(Minutes(start), Minutes(end)))
  {
    if ValidTime(start) && ValidTime(end) {
      StringOrderIsMinuteOrder(end, start);
      StringOrderIsMinuteOrder(start, current);
      StringOrderIsMinuteOrder(current, end);
      ArcByOrder(Minutes(current), Minutes(start), Minutes(end));
    }
  }

  ghost function Arc(from: int, length: int): set<int> {
    set m | 0 <= m < DAY && OnArc(m, from, length)
  }

  /** A well-formed window admits exactly ((end - start) mod 1440) + 1 minutes of the day. */
  lemma {:induction false} ArcSize(from: int, length: int)
    requires 0 <= from < DAY && 0 <= length < DAY
    ensures |Arc(from, length)| == length + 1
  {
    var last := Shift(from, length);
    ShiftInverse(from, length);
    if length == 0 {
      forall m ensures m in Arc(from, 0) <==> m == last {
        if m == last { assert 0 <= m < DAY && m == Shift(from, 0); }
      }
      assert Arc(from, 0) == {last};
    } else {
      ArcSize(from, length - 1);
      forall m ensures m in Arc(from, length) <==> m in Arc(from, length - 1) || m == last {
        ArcStep(m, from, length);
      }
      assert last !in Arc(from, length - 1) by { ArcByDistance(last, from, length - 1); }
      assert Arc(from, length) == Arc(from, length - 1) + {last};
    }
  }

  lemma ArcStep(m: int, from: int, length: int)
    requires 0 <= from < DAY && 0 < length < DAY
    ensures m in Arc(from, length) <==> m in Arc(from, length - 1) || m == Shift(from, length)
  {
    ShiftInverse(from, length);
    if 0 <= m < DAY {
      ArcByDistance(m, from, length);
      ArcByDistance(m, from, length - 1);
      ClockwiseValue(from, m);
      assert m == Shift(from, Clockwise(from, m));
    }
  }

  // ---------- Lists of windows ----------

  /** A policy leases at this moment: it has no windows, or one of them covers the minute. */
  ghost predicate Active(windows: seq<TimeWindow>, day: string, current: string)
    requires ValidTime(current)
  {
    windows == [] || exists i :: 0 <= i < |windows| && Covers(windows[i], day, current)
  }

  ghost predicate Covers(w: TimeWindow, day: string, current: string)
    requires ValidTime(current)
  {
    && DayAdmitted(w, day)
    && ValidTime(w.start) && ValidTime(w.end)
    && OnArc(Minutes(current), Minutes(w.start), Clockwise(Minutes(w.start), Minutes(w.end)))
  }

  /** What is compared for one window, whatever the strings are. */
  predicate Admits(w: TimeWindow, day: string, current: string) {
    DayAdmitted(w, day) && InRange(current, w.start, w.end)
  }

  method IsWithinTimeWindows(windows: seq<TimeWindow>, day: string, current: string) returns (within: bool)
    ensures within <==> windows == [] || exists i :: 0 <= i < |windows| && Admits(windows[i], day, current)
    ensures ValidTime(current) ==> (within <==> Active(windows, day, current))
  {
    if |windows| == 0 {
      return true;
    }
    for i := 0 to |windows|
      invariant forall k :: 0 <= k < i ==> !Admits(windows[k], day, current)
      invariant ValidTime(current) ==> forall k :: 0 <= k < i ==> !Covers(windows[k], day, current)
    {
      var w := windows[i];
      var dayMatches := |w.days| == 0;
      if !dayMatches {
        for j := 0 to |w.days|
          invariant !dayMatches
          invariant forall k :: 0 <= k < j ==> ToLower(w.days[k]) != day
        {
          if ToLower(w.days[j]) == day {
            dayMatches := true;
            break;
          }
        }
      }
      if !dayMatches {
        continue;
      }
      if ValidTime(current) {
        InRangeIsArc(current, w.start, w.end);
      }
      if InRange(current, w.start, w.end) {
        return true;
      }
    }
    return false;
  }

  /**
   A window that crosses midnight is compared with the day of the current minute, so
   the hours after midnight belong to the listed day itself and not to the day after it.
   */
  lemma OvernightWindowCoversOwnMorning(w: TimeWindow, day: string, current: string)
    requires ValidTime(w.start) && ValidTime(w.end) && ValidTime(current)
    requires Minutes(w.end) < Minutes(w.start) && Minutes(current) <= Minutes(w.end)
    ensures Active([w], day, current) <==> DayAdmitted(w, day)
  {
    ArcByOrder(Minutes(current), Minutes(w.start), Minutes(w.end));
    assert [w][0] == w;
  }

  // ---------- The strings themselves ----------

  function TwoDigits(n: int): string
    requires 0 <= n < 100
  {
    ['0' + (n / 10) as char, '0' + (n % 10) as char]
  }

  /** Every minute of the day has exactly one string that is accepted, and nothing else is accepted. */
  lemma ValidTimesAreMinutes(s: string)
    ensures ValidTime(s) <==> exists h, m :: 0 <= h < 24 && 0 <= m < 60 && s == TwoDigits(h) + ":" + TwoDigits(m)
    ensures forall h, m :: 0 <= h < 24 && 0 <= m < 60 && s == TwoDigits(h) + ":" + TwoDigits(m) ==>
              ValidTime(s) && Minutes(s) == 60 * h + m
  {
    if ValidTime(s) {
      var h, m := DigitValue(s[0]) * 10 + DigitValue(s[1]), DigitValue(s[3]) * 10 + DigitValue(s[4]);
      assert s == TwoDigits(h) + ":" + TwoDigits(m);
    }
    forall h, m | 0 <= h < 24 && 0 <= m < 60 && s == TwoDigits(h) + ":" + TwoDigits(m)
      ensures ValidTime(s) && Minutes(s) == 60 * h + m
    {
      assert s[0] == TwoDigits(h)[0] && s[1] == TwoDigits(h)[1] && s[2] == ':';
      assert s[3] == TwoDigits(m)[0] && s[4] == TwoDigits(m)[1];
    }
  }

  /** A day is admitted if none is listed, or if one that is listed differs from it at most in capital letters. */
  lemma DayAdmittedIff(w: TimeWindow, day: string)
    ensures DayAdmitted(w, day) <==>
            || w.days == []
            || exists i :: 0 <= i < |w.days| && |w.days[i]| == |day| && SameLetters(w.days[i], day)
  {
    forall i | 0 <= i < |w.days|
      ensures ToLower(w.days[i]) == day <==> |w.days[i]| == |day| && SameLetters(w.days[i], day)
    {
      LowerIff(w.days[i], day);
    }
  }

  predicate SameLetters(listed: string, day: string)
    requires |listed| == |day|
  {
    forall j :: 0 <= j < |day| ==>
      day[j] as int == if 'A' <= listed[j] <= 'Z' then listed[j] as int + 32 else listed[j] as int
  }

  lemma LowerIff(listed: string, day: string)
    ensures ToLower(listed) == day <==> |listed| == |day| && SameLetters(listed, day)
  {
    if |listed| == |day| && SameLetters(listed, day) {
      forall j | 0 <= j < |day| ensures ToLower(listed)[j] == day[j] {
        assert day[j] as int == if 'A' <= listed[j] <= 'Z' then listed[j] as int + 32 else listed[j] as int;
      }
    }
  }
}
