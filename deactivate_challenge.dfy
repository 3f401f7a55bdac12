/**
 * The deactivation client (clients/diagonator_clients/deactivate_dmenu.py). Before asking the
 * server to deactivate for a number of seconds it asks the user for the next half-hour boundary
 * after the current time, written `HH:MM`, where the hours just after midnight count as
 * 24..27 of the previous evening. One minute of slack is allowed.
 */
module DeactivateChallenge {
  import opened Time
  import opened Text
  import opened Client

  /** Hours 0..3 are shifted by a day: 01:10 is 25:10. */
  function ShiftedHour(t: HourMinute): (h: nat)
    ensures 4 <= h <= 27
    ensures h % 24 == t.hour
  {
    if t.hour < 4 then t.hour + 24 else t.hour
  }

  /** Minutes since midnight in the shifted clock, from 04:00 up to 27:59. */
  function ShiftedMinutes(t: HourMinute): nat
  {
    ShiftedHour(t) * 60 + t.minute
  }

  /**
   * `round_up` before formatting: the hour and minute of the first half-hour boundary strictly
   * after `t` in the shifted clock.
   */
  function Rounded(t: HourMinute): (r: (nat, nat))
    ensures 4 <= r.0 <= 28
    ensures r.1 == 0 || r.1 == 30
    ensures r.1 == 30 <==> t.minute < 30
    ensures ShiftedMinutes(t) < r.0 * 60 + r.1 <= ShiftedMinutes(t) + 30
  {
    if t.minute < 30 then (ShiftedHour(t), 30) else (ShiftedHour(t) + 1, 0)
  }

  /** The rounded time in minutes. */
  function RoundedMinutes(t: HourMinute): nat
  {
    Rounded(t).0 * 60 + Rounded(t).1
  }

  /** The rounded value is the earliest half-hour boundary strictly later than `t`. */
  lemma {:induction false} RoundedIsNextBoundary(t: HourMinute, b: int)
    requires b % 30 == 0 && b > ShiftedMinutes(t)
    ensures RoundedMinutes(t) % 30 == 0
    ensures RoundedMinutes(t) <= b
  {
  }

  /** `round_up`: the rounded time as `HH:MM`, with minutes `00` or `30`. */
  function RoundUp(t: HourMinute): (s: string)
    ensures |s| == 5 && s[2] == ':'
    ensures AllDigits(s[..2]) && AllDigits(s[3..])
    ensures s[3..] == "00" || s[3..] == "30"
    ensures DigitsValue(s[..2]) * 60 + DigitsValue(s[3..]) == RoundedMinutes(t)
  {
    var (h, m) := Rounded(t);
    var s := Pad2(h) + ":" + Pad2(m);
    assert s[..2] == Pad2(h) && s[3..] == Pad2(m);
    assert Pad2(0) == "00" && Pad2(30) == "30";
    s
  }

  /** Different rounded times are written differently. */
  lemma {:induction false} RoundUpInjective(t1: HourMinute, t2: HourMinute)
    requires RoundUp(t1) == RoundUp(t2)
    ensures RoundedMinutes(t1) == RoundedMinutes(t2)
  {
  }

  /** 01:10 belongs to the previous evening: the answer is 25:30. */
  lemma RoundUpAfterMidnight()
    ensures RoundUp(HourMinuteFields(1, 10)) == "25:30"
  {
    assert Pad2(25) == "25" && Pad2(30) == "30";
  }

  /** `correct()`: the answer names the boundary after now or after one minute ago. */
  predicate Correct(answer: string, now: HourMinute)
  {
    answer == RoundUp(now) || answer == RoundUp(PrevMinute(now))
  }

  /**
   * The one-minute slack only matters just after a boundary: at any other minute exactly one
   * answer is accepted, at `:00` and `:30` exactly two.
   */
  lemma {:induction false} SlackAtBoundaries(now: HourMinute)
    ensures now.minute != 0 && now.minute != 30 ==> RoundUp(PrevMinute(now)) == RoundUp(now)
    ensures now.minute == 0 || now.minute == 30 ==> RoundUp(PrevMinute(now)) != RoundUp(now)
  {
    var p := PrevMinute(now);
    if now.minute == 0 || now.minute == 30 {
      if RoundUp(p) == RoundUp(now) {
        RoundUpInjective(p, now);
      }
    } else {
      assert p.hour == now.hour && p.minute == now.minute - 1;
    }
  }

  const UsageMessage := "Please specify the deactivation duration in seconds."

  /**
   * The script. `argc` counts the command-line words including the program name, `duration`
   * is the parsed first argument, `answer` the selector's output with the newlines around it
   * removed and `now` the local time read after it; `analytics` says whether an analytics file is configured; `deactivateReply` and
   * `infoReply` are the texts of the server's replies; `logDate` and `logTime` are the local
   * date and seconds since midnight when the row is written.
   */
  function Script(argc: nat, duration: int, answer: string, now: HourMinute, analytics: bool,
                  deactivateReply: string, infoReply: string, logDate: string, logTime: nat)
    : (effects: seq<Effect>)
    ensures argc < 2 ==> effects == [Exit(UsageMessage)]
    ensures forall d :: Send(Deactivate(d)) in effects <==> argc >= 2 && Correct(answer, now) && d == duration
    ensures argc >= 2 && !Correct(answer, now) ==> effects == [Prompt([]), Say("Incorrect answer.")]
    ensures forall i :: 0 <= i < |effects| && effects[i].LogDeactivation? ==>
              analytics && 1 < i && effects[1] == Send(Deactivate(duration))
    ensures analytics && argc >= 2 && Correct(answer, now) ==> LogDeactivation(logDate, logTime, infoReply) in effects
  {
    if argc < 2 then [Exit(UsageMessage)]
    else if Correct(answer, now) then
      [Prompt([]), Send(Deactivate(duration)), Say(deactivateReply)]
      + (if analytics then [Send(GetInfo), LogDeactivation(logDate, logTime, infoReply)] else [])
    else
      [Prompt([]), Say("Incorrect answer.")]
  }
}
