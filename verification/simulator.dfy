/**
  The command loop of `main` as a pure step function: each round reads a menu
  choice and, for "log mood", a score; I/O, the clock and the suggestion
  service enter as fields of the round's input.
 */
module Simulator {
  import opened Wrappers
  import opened StringOrder
  import opened MoodLog
  import opened MoodAnalysis
  import opened Advice

  /** What the suggestion service and its environment answer in one round. */
  datatype Service = Service(clientReady: bool, apiKey: Option<string>, reply: Reply)

  /** The input of one round: the menu choice (None when it did not parse as
      an integer), the score read by `log_mood`, the clock reading, and the
      suggestion service. Fields a round does not need are ignored. */
  datatype Round = Round(choice: Option<int>, score: Option<int>, now: string, service: Service)

  /** What a round shows besides prompts and error messages: nothing, or the
      tier of the recent average with the suggestion text fetched for it
      (no text for "no data"). */
  datatype Screen = Blank | Advised(tier: Tier, suggestion: Option<string>)

  /** The state after a round: the log, whether the loop goes on, and the
      screen. */
  datatype Outcome = Outcome(log: Log, running: bool, screen: Screen)

  const LogChoice := 1
  const SuggestChoice := 2
  const ExitChoice := 3

  /** `suggest_activity(analyze_mood())`. */
  function Suggest(log: Log, service: Service): (s: Screen)
    ensures s.Advised?
    ensures s.tier == Classify(RecentAverage(log))
    ensures s.suggestion.None? <==> s.tier == NoMoodData
    ensures ScoresInRange(log) ==> (s.suggestion.None? <==> |log| == 0)
    ensures s.suggestion.Some? ==>
              s.suggestion.value == SuggestionText(service.clientReady, service.apiKey, service.reply)
  {
    var tier := Classify(RecentAverage(log));
    if tier == NoMoodData then Advised(tier, None)
    else Advised(tier, Some(SuggestionText(service.clientReady, service.apiKey, service.reply)))
  }

  /** One round of the menu loop. */
  function Step(log: Log, round: Round): (o: Outcome)
    requires Sorted(log)
    ensures Sorted(o.log)
    ensures !o.running <==> round.choice == Some(ExitChoice)
    ensures round.choice != Some(LogChoice) ==> o.log == log
    ensures round.choice == Some(LogChoice) ==> o.log == LogMood(log, round.score, round.now)
    ensures o.screen.Advised? <==> round.choice == Some(SuggestChoice)
    ensures round.choice == Some(SuggestChoice) ==> o.screen == Suggest(log, round.service)
    ensures ScoresInRange(log) ==> ScoresInRange(o.log)
  {
    match round.choice
    case None => Outcome(log, true, Blank)
    case Some(c) =>
      if c == LogChoice then Outcome(LogMood(log, round.score, round.now), true, Blank)
      else if c == SuggestChoice then Outcome(log, true, Suggest(log, round.service))
      else if c == ExitChoice then Outcome(log, false, Blank)
      else Outcome(log, true, Blank)
  }

  /** The loop of `main` over a finite sequence of rounds: the log after the
      given rounds, or after the round that chose to exit. */
  function Run(log: Log, rounds: seq<Round>): (r: Log)
    requires Sorted(log)
    ensures Sorted(r)
    decreases |rounds|
  {
    if |rounds| == 0 then log
    else
      var o := Step(log, rounds[0]);
      if !o.running then o.log else Run(o.log, rounds[1..])
  }

  /** Scores stay in range over any run of the loop that starts from a log
      whose scores are in range, e.g. the empty log at startup. */
  lemma {:induction false} RunKeepsScoresInRange(log: Log, rounds: seq<Round>)
    requires Sorted(log) && ScoresInRange(log)
    ensures ScoresInRange(Run(log, rounds))
    decreases |rounds|
  {
    if |rounds| > 0 {
      var o := Step(log, rounds[0]);
      if o.running {
        RunKeepsScoresInRange(o.log, rounds[1..]);
      }
    }
  }

  /** Rounds that never choose "log mood" leave the log as it was: failed
      reads, suggestions, unknown options and exit change nothing. */
  lemma {:induction false} RunWithoutLoggingKeepsLog(log: Log, rounds: seq<Round>)
    requires Sorted(log)
    requires forall i :: 0 <= i < |rounds| ==> rounds[i].choice != Some(LogChoice)
    ensures Run(log, rounds) == log
    decreases |rounds|
  {
    if |rounds| > 0 {
      var o := Step(log, rounds[0]);
      if o.running {
        RunWithoutLoggingKeepsLog(o.log, rounds[1..]);
      }
    }
  }

  /** Rounds after the exit choice have no effect. */
  lemma {:induction false} RunIgnoresRoundsAfterExit(log: Log, before: seq<Round>, exit: Round, after: seq<Round>)
    requires Sorted(log)
    requires exit.choice == Some(ExitChoice)
    ensures Run(log, before + [exit] + after) == Run(log, before + [exit])
    decreases |before|
  {
    if |before| == 0 {
      assert (before + [exit] + after)[0] == exit;
      assert (before + [exit])[0] == exit;
    } else {
      var o := Step(log, before[0]);
      assert (before + [exit] + after)[1..] == before[1..] + [exit] + after;
      assert (before + [exit])[1..] == before[1..] + [exit];
      if o.running {
        RunIgnoresRoundsAfterExit(o.log, before[1..], exit, after);
      }
    }
  }

  /** Scores 8, 6 and 4 logged at increasing timestamps average to exactly
      6, which is "okay". */
  lemma ThreeScoresExample(t0: string, t1: string, t2: string)
    requires Less(t0, t1) && Less(t1, t2)
    ensures var log := LogMood(LogMood(LogMood([], Some(8), t0), Some(6), t1), Some(4), t2);
      && log == [Entry(t0, 8), Entry(t1, 6), Entry(t2, 4)]
      && RecentAverage(log) == 6.0
      && Classify(RecentAverage(log)) == Okay
  {
    LessTransitive(t0, t1, t2);
    var e0, e1, e2 := Entry(t0, 8), Entry(t1, 6), Entry(t2, 4);
    LogAfterLatestAppends([], Some(8), t0);
    LogAfterLatestAppends([e0], Some(6), t1);
    assert [e0] + [e1] == [e0, e1];
    LogAfterLatestAppends([e0, e1], Some(4), t2);
    assert [e0, e1] + [e2] == [e0, e1, e2];
    assert Window([e0, e1, e2]) == [e2, e1, e0];
    ScoreSumOfThree(e2, e1, e0);
  }

  /** With scores 2, 8, 6, 4 oldest first, the oldest is outside the window
      and the average is that of 8, 6 and 4. */
  lemma FourEntryAverage(t0: string, t1: string, t2: string, t3: string)
    ensures RecentAverage([Entry(t0, 2), Entry(t1, 8), Entry(t2, 6), Entry(t3, 4)]) == 6.0
  {
    var e0, e1, e2, e3 := Entry(t0, 2), Entry(t1, 8), Entry(t2, 6), Entry(t3, 4);
    assert Window([e0, e1, e2, e3]) == [e3, e2, e1];
    ScoreSumOfThree(e3, e2, e1);
  }
}
