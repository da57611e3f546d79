/** How the response time is printed, and what the printed text says. */
module Durations {
  import opened Options
  import opened Decimals

  /** Python's `round`: the nearest integer, the even one of two equally near. */
  function RoundHalfEven(x: real): (r: int)
    ensures -0.5 <= x - r as real <= 0.5
    ensures x - r as real == 0.5 || x - r as real == -0.5 ==> r % 2 == 0
  {
    var low := x.Floor;
    var over := x - low as real;
    if over < 0.5 || (over == 0.5 && low % 2 == 0) then low else low + 1
  }

  /** The clauses of `RoundHalfEven` leave one integer. */
  lemma RoundingIsUnique(x: real, n: int)
    ensures n == RoundHalfEven(x) <==>
              && -0.5 <= x - n as real <= 0.5
              && (x - n as real == 0.5 || x - n as real == -0.5 ==> n % 2 == 0)
  {
    var r := RoundHalfEven(x);
    if -0.5 <= x - n as real <= 0.5 && n != r {
      assert -1.0 <= (n - r) as real <= 1.0;
      assert n == r + 1 || n == r - 1;
    }
  }

  lemma RoundingIsMonotone(x: real, y: real)
    requires x <= y
    ensures RoundHalfEven(x) <= RoundHalfEven(y)
  {
    assert x.Floor <= y.Floor;
  }

  /** The whole seconds shown; a negative duration shows as none. */
  function ShownSeconds(seconds: real): nat {
    var n := RoundHalfEven(seconds);
    if n < 0 then 0 else n
  }

  function TwoDigits(n: nat): string
    requires n < 100
  {
    if n < 10 then "0" + Decimal(n) else Decimal(n)
  }

  function FormatDuration(seconds: real): string {
    FormatSeconds(ShownSeconds(seconds))
  }

  function FormatSeconds(total: nat): string {
    if total >= 60 then Decimal(total / 60) + "m " + TwoDigits(total % 60) + "s" else Decimal(total) + "s"
  }

  function IndexOf(s: string, c: char): (i: nat)
    ensures i <= |s| && (i < |s| ==> s[i] == c)
  {
    if s == "" || s[0] == c then 0 else 1 + IndexOf(s[1..], c)
  }

  /** Reads `Ns` or `Nm SSs` back as a number of seconds. */
  function ParseDuration(text: string): Option<nat> {
    var i := IndexOf(text, 'm');
    if i < |text| then
      if |text| != i + 5 || text[i + 1] != ' ' || text[i + 4] != 's' || i == 0 then None
      else
        var minutes, seconds := DecimalValue(text[..i]), DecimalValue(text[i + 2..i + 4]);
        if minutes.None? || seconds.None? || seconds.value >= 60 then None else Some(60 * minutes.value + seconds.value)
    else if |text| < 2 || text[|text| - 1] != 's' then None
    else DecimalValue(text[..|text| - 1])
  }

  lemma {:induction false} IndexOfFirst(before: string, c: char, after: string)
    requires forall i | 0 <= i < |before| :: before[i] != c
    ensures IndexOf(before + [c] + after, c) == |before|
  {
    var s := before + [c] + after;
    if before != "" {
      assert s[1..] == before[1..] + [c] + after;
      IndexOfFirst(before[1..], c, after);
    }
  }

  lemma {:induction false} IndexOfNone(s: string, c: char)
    requires forall i | 0 <= i < |s| :: s[i] != c
    ensures IndexOf(s, c) == |s|
  {
    if s != "" {
      IndexOfNone(s[1..], c);
    }
  }

  lemma TwoDigitsReadBack(n: nat)
    requires n < 100
    ensures |TwoDigits(n)| == 2 && DecimalValue(TwoDigits(n)) == Some(n)
  {
    DecimalReadsBack(n);
    var s := TwoDigits(n);
    if n < 10 {
      assert s[..1] == "0" && "0"[..0] == "";
    } else {
      assert Decimal(n / 10) == [Digit(n / 10)];
    }
  }

  lemma SecondsReadBack(total: nat)
    requires total < 60
    ensures ParseDuration(FormatSeconds(total)) == Some(total)
  {
    var text := FormatSeconds(total);
    DecimalReadsBack(total);
    IndexOfNone(text, 'm');
    assert text[..|text| - 1] == Decimal(total);
  }

  lemma PartsReadBack(minutes: string, seconds: string, m: nat, n: nat)
    requires minutes != "" && (forall i | 0 <= i < |minutes| :: minutes[i] != 'm') && |seconds| == 2
    requires DecimalValue(minutes) == Some(m) && DecimalValue(seconds) == Some(n) && n < 60
    ensures ParseDuration(minutes + "m " + seconds + "s") == Some(60 * m + n)
  {
    var text, k := minutes + "m " + seconds + "s", |minutes|;
    assert text == minutes + ['m'] + (" " + seconds + "s");
    IndexOfFirst(minutes, 'm', " " + seconds + "s");
    assert |text| == k + 5 && text[k + 1] == ' ' && text[k + 4] == 's';
    assert text[..k] == minutes && text[k + 2..k + 4] == seconds;
  }

  lemma MinutesReadBack(total: nat)
    requires total >= 60
    ensures ParseDuration(FormatSeconds(total)) == Some(total)
  {
    DecimalReadsBack(total / 60);
    TwoDigitsReadBack(total % 60);
    PartsReadBack(Decimal(total / 60), TwoDigits(total % 60), total / 60, total % 60);
  }

  /** The printed text says the whole seconds shown and nothing is lost but the rounding. */
  lemma FormatReadsBack(seconds: real)
    ensures ParseDuration(FormatDuration(seconds)) == Some(ShownSeconds(seconds))
  {
    var total := ShownSeconds(seconds);
    if total < 60 {
      SecondsReadBack(total);
    } else {
      MinutesReadBack(total);
    }
  }

  /** The text is `Ns`, or `Nm SSs` with exactly two digits of seconds, and N has no leading zero. */
  lemma FormatLooks(seconds: real)
    ensures var text, total := FormatDuration(seconds), ShownSeconds(seconds);
            exists n: string ::
              && n != "" && (forall i | 0 <= i < |n| :: '0' <= n[i] <= '9') && (|n| > 1 ==> n[0] != '0')
              && if total < 60 then text == n + "s"
                 else n != "0" && exists tens, ones ::
                        '0' <= tens <= '5' && '0' <= ones <= '9' && text == n + "m " + [tens, ones] + "s"
  {
    var total := ShownSeconds(seconds);
    if total < 60 {
      NoLeadingZero(total);
      assert FormatDuration(seconds) == Decimal(total) + "s";
    } else {
      NoLeadingZero(total / 60);
      var n, rest := Decimal(total / 60), total % 60;
      assert TwoDigits(rest) == [Digit(rest / 10), Digit(rest % 10)] by {
        if rest >= 10 { assert Decimal(rest / 10) == [Digit(rest / 10)]; }
      }
      assert FormatDuration(seconds) == n + "m " + [Digit(rest / 10), Digit(rest % 10)] + "s";
    }
  }

  lemma {:induction false} NoLeadingZero(n: nat)
    ensures Decimal(n)[0] == '0' <==> n == 0
    ensures n == 0 ==> Decimal(n) == "0"
  {
    if n >= 10 {
      NoLeadingZero(n / 10);
      assert Decimal(n)[0] == Decimal(n / 10)[0];
    }
  }

  /** Two durations print alike exactly when they round to the same shown seconds. */
  lemma PrintsAlikeIff(x: real, y: real)
    ensures FormatDuration(x) == FormatDuration(y) <==> ShownSeconds(x) == ShownSeconds(y)
  {
    FormatReadsBack(x);
    FormatReadsBack(y);
  }

  /** The minutes form appears exactly from fifty-nine and a half seconds on. */
  lemma MinutesFormIff(seconds: real)
    ensures IndexOf(FormatDuration(seconds), 'm') < |FormatDuration(seconds)| <==> seconds >= 59.5
  {
    var total := ShownSeconds(seconds);
    if total < 60 {
      IndexOfNone(FormatDuration(seconds), 'm');
    } else {
      var minutes, rest := Decimal(total / 60), " " + TwoDigits(total % 60) + "s";
      assert FormatDuration(seconds) == minutes + ['m'] + rest;
      IndexOfFirst(minutes, 'm', rest);
    }
    if seconds >= 59.5 {
      RoundingIsMonotone(59.5, seconds);
    } else {
      RoundingIsUnique(seconds, 60);
      RoundingIsMonotone(seconds, 59.5);
    }
  }
}
