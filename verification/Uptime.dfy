/** The uptime printer (internal/render/vm.go) and a reader that inverts it. */
module Uptime {
  import opened Decimal

  function Part(n: nat, theUnit: string): string {
    Format(n) + " " + theUnit
  }

  function Join(parts: seq<string>): string {
    if parts == [] then ""
    else if |parts| == 1 then parts[0]
    else Join(parts[..|parts| - 1]) + " " + parts[|parts| - 1]
  }

  function When(n: nat, theUnit: string): seq<string> {
    if n > 0 then [Part(n, theUnit)] else []
  }

  function Print(seconds: int): string {
    if seconds <= 0 then "0 秒"
    else
      var parts := When(seconds / 86400, "天") + When(seconds % 86400 / 3600, "小时") + When(seconds % 3600 / 60, "分钟");
      Join(if parts == [] then [Part(seconds % 60, "秒")] else parts)
  }

  method PrintUptime(seconds: int) returns (text: string)
    ensures text == Print(seconds)
  {
    if seconds <= 0 {
      return "0 秒";
    }
    var days := seconds / 86400;
    var hours := seconds % 86400 / 3600;
    var minutes := seconds % 3600 / 60;
    var secs := seconds % 60;
    var parts: seq<string> := [];
    if days > 0 {
      parts := parts + [Part(days, "天")];
    }
    assert parts == When(days, "天");
    if hours > 0 {
      parts := parts + [Part(hours, "小时")];
    }
    assert parts == When(days, "天") + When(hours, "小时");
    if minutes > 0 {
      parts := parts + [Part(minutes, "分钟")];
    }
    assert parts == When(days, "天") + When(hours, "小时") + When(minutes, "分钟");
    if |parts| == 0 {
      parts := parts + [Part(secs, "秒")];
    }
    text := Join(parts);
  }

  // ---- Reading it back ----

  /** Seconds added up so far, and the number read since the last unit. */
  datatype Meter = Meter(total: nat, pending: nat)

  function Scale(c: char): nat {
    if c == '天' then 86400 else if c == '小' then 3600 else if c == '分' then 60 else if c == '秒' then 1 else 0
  }

  function ReadChar(m: Meter, c: char): Meter {
    if IsDigit(c) then Meter(m.total, m.pending * 10 + DigitValue(c))
    else if Scale(c) > 0 then Meter(m.total + m.pending * Scale(c), 0)
    else m
  }

  function Read(m: Meter, text: string): Meter {
    if text == "" then m else ReadChar(Read(m, text[..|text| - 1]), text[|text| - 1])
  }

  function Seconds(text: string): nat {
    Read(Meter(0, 0), text).total
  }

  lemma {:induction false} ReadAppend(m: Meter, a: string, b: string)
    ensures Read(m, a + b) == Read(Read(m, a), b)
  {
    if b == "" {
      assert a + b == a;
    } else {
      var n := |b| - 1;
      ReadAppend(m, a, b[..n]);
      assert (a + b)[..|a + b| - 1] == a + b[..n];
    }
  }

  lemma {:induction false} ReadNumeral(total: nat, n: nat)
    ensures Read(Meter(total, 0), Format(n)) == Meter(total, n)
  {
    var s := Format(n);
    if n < 10 {
      assert s[..|s| - 1] == "";
    } else {
      ReadNumeral(total, n / 10);
      assert s[..|s| - 1] == Format(n / 10);
    }
  }

  lemma ReadUnit(total: nat, n: nat, theUnit: string)
    requires theUnit in ["天", "小时", "分钟", "秒"]
    ensures Read(Meter(total, n), theUnit) == Meter(total + n * Scale(theUnit[0]), 0)
  {
    var m := Meter(total, n);
    assert theUnit[..1][..0] == "";
    assert Read(m, "") == m;
    assert Read(m, theUnit[..1]) == ReadChar(m, theUnit[0]);
    if |theUnit| == 2 {
      assert theUnit[..|theUnit| - 1] == theUnit[..1];
    } else {
      assert theUnit == theUnit[..1];
    }
  }

  lemma ReadPart(total: nat, n: nat, theUnit: string)
    requires theUnit in ["天", "小时", "分钟", "秒"]
    ensures Read(Meter(total, 0), Part(n, theUnit)) == Meter(total + n * Scale(theUnit[0]), 0)
  {
    ReadAppend(Meter(total, 0), Format(n) + " ", theUnit);
    ReadNumeral(total, n);
    assert (Format(n) + " ")[..|Format(n)|] == Format(n);
    ReadUnit(total, n, theUnit);
  }

  lemma JoinAppend(parts: seq<string>, p: string)
    ensures Join(parts + [p]) == if parts == [] then p else Join(parts) + " " + p
  {
    var all := parts + [p];
    if parts == [] {
      assert all == [p];
    } else {
      assert all[..|all| - 1] == parts && all[|all| - 1] == p;
    }
  }

  lemma ReadSpace(m: Meter, s: string)
    ensures Read(m, s + " ") == ReadChar(Read(m, s), ' ')
  {
    assert (s + " ")[..|s|] == s;
  }

  /** Appending a part to joined parts adds its seconds. */
  lemma ReadJoined(parts: seq<string>, total: nat, n: nat, theUnit: string)
    requires Read(Meter(0, 0), Join(parts)) == Meter(total, 0)
    requires theUnit in ["天", "小时", "分钟", "秒"]
    ensures Read(Meter(0, 0), Join(parts + [Part(n, theUnit)])) == Meter(total + n * Scale(theUnit[0]), 0)
  {
    var p := Part(n, theUnit);
    JoinAppend(parts, p);
    ReadPart(total, n, theUnit);
    if parts != [] {
      ReadAppend(Meter(0, 0), Join(parts) + " ", p);
      ReadSpace(Meter(0, 0), Join(parts));
    }
  }

  lemma ReadWhen(parts: seq<string>, total: nat, n: nat, theUnit: string)
    requires Read(Meter(0, 0), Join(parts)) == Meter(total, 0)
    requires theUnit in ["天", "小时", "分钟", "秒"]
    ensures Read(Meter(0, 0), Join(parts + When(n, theUnit))) == Meter(total + n * Scale(theUnit[0]), 0)
  {
    if n > 0 {
      ReadJoined(parts, total, n, theUnit);
    } else {
      assert parts + When(n, theUnit) == parts;
    }
  }

  lemma DaysAndRest(d: int, r: int)
    requires 0 <= r < 86400
    ensures (86400 * d + r) / 86400 == d && (86400 * d + r) % 86400 == r
  {
  }

  lemma HoursAndRest(h: int, r: int)
    requires 0 <= r < 3600
    ensures (3600 * h + r) / 3600 == h && (3600 * h + r) % 3600 == r
  {
  }

  lemma MinutesAndRest(m: int, r: int)
    requires 0 <= r < 60
    ensures (60 * m + r) / 60 == m && (60 * m + r) % 60 == r
  {
  }

  /** The four printed quantities are the mixed-radix digits of the seconds. */
  lemma MixedRadix(seconds: int, d: int, h: int, m: int, s: int)
    requires seconds == 86400 * d + 3600 * h + 60 * m + s
    requires 0 <= h < 24 && 0 <= m < 60 && 0 <= s < 60
    ensures seconds / 86400 == d && seconds % 86400 / 3600 == h && seconds % 3600 / 60 == m && seconds % 60 == s
    ensures seconds / 60 == 1440 * d + 60 * h + m
  {
    DaysAndRest(d, 3600 * h + 60 * m + s);
    HoursAndRest(h, 60 * m + s);
    HoursAndRest(24 * d + h, 60 * m + s);
    MinutesAndRest(m, s);
    MinutesAndRest(1440 * d + 60 * h + m, s);
  }

  lemma Digits(seconds: nat) returns (d: nat, h: nat, m: nat, s: nat)
    ensures seconds == 86400 * d + 3600 * h + 60 * m + s
    ensures h < 24 && m < 60 && s < 60
  {
    d := seconds / 86400;
    var r := seconds % 86400;
    h := r / 3600;
    m := r % 3600 / 60;
    s := r % 3600 % 60;
  }

  /** Reading a printed uptime gives the seconds back under a minute, and whole minutes above. */
  lemma PrintIsReadBack(seconds: int)
    ensures Seconds(Print(seconds)) ==
            if seconds <= 0 then 0 else if seconds < 60 then seconds else seconds - seconds % 60
  {
    if seconds <= 0 {
      ReadPart(0, 0, "秒");
      assert Print(seconds) == Part(0, "秒");
    } else {
      var d, h, m, s := Digits(seconds);
      MixedRadix(seconds, d, h, m, s);
      PrintedDigitsAreRead(d, h, m, s);
    }
  }

  /** The text printed for the mixed-radix digits. */
  function PrintDigits(d: nat, h: nat, m: nat, s: nat): string {
    var parts := When(d, "天") + When(h, "小时") + When(m, "分钟");
    Join(if parts == [] then [Part(s, "秒")] else parts)
  }

  lemma PrintedDigitsAreRead(d: nat, h: nat, m: nat, s: nat)
    ensures Seconds(PrintDigits(d, h, m, s)) == if d == h == m == 0 then s else 86400 * d + 3600 * h + 60 * m
  {
    var p1 := When(d, "天");
    var p2 := p1 + When(h, "小时");
    assert [] + p1 == p1;
    ReadWhen([], 0, d, "天");
    ReadWhen(p1, d * 86400, h, "小时");
    ReadWhen(p2, d * 86400 + h * 3600, m, "分钟");
    if d == h == m == 0 {
      ReadPart(0, s, "秒");
    }
  }

  /** The printed text depends on whole minutes only, and determines them. */
  lemma PrintsAlikeIffSameMinute(a: int, b: int)
    requires a >= 60 && b >= 60
    ensures Print(a) == Print(b) <==> a / 60 == b / 60
  {
    if Print(a) == Print(b) {
      PrintIsReadBack(a);
      PrintIsReadBack(b);
    } else {
      var d, h, m, s := Digits(a);
      MixedRadix(a, d, h, m, s);
      if a / 60 == b / 60 {
        MixedRadix(b, d, h, m, b - 86400 * d - 3600 * h - 60 * m);
      }
    }
  }

  /** The design's optional seconds are not shown: nothing is lost exactly below a minute and on whole minutes. */
  lemma SecondsAreLostPastAMinute(seconds: nat)
    ensures Seconds(Print(seconds)) == seconds <==> seconds < 60 || seconds % 60 == 0
    ensures Print(61) == Print(60)
  {
    PrintIsReadBack(seconds);
    PrintsAlikeIffSameMinute(61, 60);
  }

  lemma PrintsItsDigits(d: nat, h: nat, m: nat, s: nat)
    requires h < 24 && m < 60 && s < 60
    ensures Print(86400 * d + 3600 * h + 60 * m + s) == PrintDigits(d, h, m, s)
  {
    MixedRadix(86400 * d + 3600 * h + 60 * m + s, d, h, m, s);
    if d == h == m == s == 0 {
      assert Format(0) == "0" by { assert DigitValue('0') == 0; }
    }
  }

  lemma JoinedParts(a: string, b: string, c: string)
    ensures Join([a]) == a && Join([a, b]) == a + " " + b && Join([a, b, c]) == a + " " + b + " " + c
  {
    JoinAppend([], a);
    JoinAppend([a], b);
    JoinAppend([a, b], c);
    assert [a] + [b] == [a, b] && [a, b] + [c] == [a, b, c];
  }

  lemma PartText(n: nat, theUnit: string, ending: string)
    requires ending == " " + theUnit
    ensures Part(n, theUnit) == Format(n) + ending
  {
    assert (Format(n) + " ") + theUnit == Format(n) + (" " + theUnit);
  }

  /** Days, hours and minutes, each only if it is not zero, and seconds only alone. */
  function Spelled(d: nat, h: nat, m: nat, s: nat): string {
    if d > 0 then
      if h > 0 then
        if m > 0 then Format(d) + " 天" + " " + (Format(h) + " 小时") + " " + (Format(m) + " 分钟")
        else Format(d) + " 天" + " " + (Format(h) + " 小时")
      else if m > 0 then Format(d) + " 天" + " " + (Format(m) + " 分钟")
      else Format(d) + " 天"
    else if h > 0 then
      if m > 0 then Format(h) + " 小时" + " " + (Format(m) + " 分钟") else Format(h) + " 小时"
    else if m > 0 then Format(m) + " 分钟"
    else Format(s) + " 秒"
  }

  lemma DigitsAreSpelled(d: nat, h: nat, m: nat, s: nat)
    ensures PrintDigits(d, h, m, s) == Spelled(d, h, m, s)
  {
    PartText(d, "天", " 天");
    PartText(h, "小时", " 小时");
    PartText(m, "分钟", " 分钟");
    PartText(s, "秒", " 秒");
    DigitParts(d, h, m, s, Format(d) + " 天", Format(h) + " 小时", Format(m) + " 分钟", Format(s) + " 秒");
  }

  /** The printed text, quantity by quantity. */
  lemma PrintedText(d: nat, h: nat, m: nat, s: nat)
    requires h < 24 && m < 60 && s < 60
    ensures Print(86400 * d + 3600 * h + 60 * m + s) == Spelled(d, h, m, s)
    ensures forall negative: int | negative < 0 :: Print(negative) == Print(0)
  {
    PrintsItsDigits(d, h, m, s);
    DigitsAreSpelled(d, h, m, s);
  }

  lemma DigitParts(d: nat, h: nat, m: nat, s: nat, days: string, hours: string, minutes: string, seconds: string)
    requires days == Part(d, "天") && hours == Part(h, "小时") && minutes == Part(m, "分钟") && seconds == Part(s, "秒")
    ensures PrintDigits(d, h, m, s) ==
            if d > 0 then
              if h > 0 then if m > 0 then days + " " + hours + " " + minutes else days + " " + hours
              else if m > 0 then days + " " + minutes else days
            else if h > 0 then if m > 0 then hours + " " + minutes else hours
            else if m > 0 then minutes else seconds
  {
    var p1, p2, p3 := When(d, "天"), When(h, "小时"), When(m, "分钟");
    JoinedParts(days, hours, minutes);
    JoinedParts(days, minutes, "");
    JoinedParts(hours, minutes, "");
    JoinedParts(seconds, minutes, "");
    assert p1 + p2 + p3 == if d > 0 then
        if h > 0 then if m > 0 then [days, hours, minutes] else [days, hours]
        else if m > 0 then [days, minutes] else [days]
      else if h > 0 then if m > 0 then [hours, minutes] else [hours]
      else if m > 0 then [minutes] else [];
  }
}
