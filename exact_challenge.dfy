/**
 * The older deactivation client (clients/deactivate_dmenu.py): the user must type the current
 * local time as `HH:MM`; the time one minute earlier is accepted too.
 */
module ExactChallenge {
  import opened Wrappers
  import opened Time
  import opened Client

  /** `correct()`: the answer is `now` or one minute earlier, formatted `%H:%M`. */
  predicate Correct(answer: string, now: HourMinute)
  {
    answer == Serialize(now) || answer == Serialize(PrevMinute(now))
  }

  /**
   * An accepted answer is the five-character form of now or of the minute before, and every
   * five-character answer that reads as one of those two times is accepted.
   */
  lemma {:induction false} CorrectMeans(answer: string, now: HourMinute)
    ensures Correct(answer, now) <==>
              |answer| == 5 && (Deserialize(answer) == Ok(now) || Deserialize(answer) == Ok(PrevMinute(now)))
  {
    DeserializeSerialize(now);
    DeserializeSerialize(PrevMinute(now));
    if |answer| == 5 && Deserialize(answer).Ok? {
      SerializeDeserialize(answer);
    }
  }

  /** At midnight the minute before is 23:59 of the day before, and it is accepted. */
  lemma MidnightSlack()
    ensures Correct("23:59", HourMinuteFields(0, 0))
  {
    assert Text.Pad2(23) == "23" && Text.Pad2(59) == "59";
  }

  const UsageMessage := "Please specify the deactivation duration in seconds."

  /**
   * The script: `argc` counts the command-line words, `duration` is the parsed first argument,
   * `answer` the selector's output with the newlines around it removed, `now` the local time
   * read after it and `reply` the printed reply to `Deactivate`.
   */
  function Script(argc: nat, duration: int, answer: string, now: HourMinute, reply: string)
    : (effects: seq<Effect>)
    ensures argc < 2 ==> effects == [Exit(UsageMessage)]
    ensures forall d :: Send(Deactivate(d)) in effects <==> argc >= 2 && Correct(answer, now) && d == duration
    ensures argc >= 2 && !Correct(answer, now) ==> effects == [Connect, Prompt([]), Say("Incorrect answer.")]
    ensures argc >= 2 ==> |effects| > 1 && effects[0] == Connect && effects[1] == Prompt([])
  {
    if argc < 2 then [Exit(UsageMessage)]
    else if Correct(answer, now) then [Connect, Prompt([]), Send(Deactivate(duration)), Say(reply)]
    else [Connect, Prompt([]), Say("Incorrect answer.")]
  }
}
