# Mood journal core in Dafny

This project models the core of a single-user, command-line mood journal.
The program keeps a mood log in memory. The log maps a timestamp string
"YYYY-MM-DD HH:MM:SS" to a mood score, and it is a `std::map<std::string, int>`.
The project models four parts of the program:

- `log_mood`, which validates a score against [1, 10] and stores it under the
  current timestamp;
- `analyze_mood`, which averages the scores of up to three newest entries, or
  returns -1 when the log is empty;
- the tier logic of `suggest_activity` ("no data", "low", "okay", "great"),
  together with the outcome of the suggestion request;
- the menu loop of `main`, written as a pure step function.

Modules, one per concern:

- `StringOrder` (`string_order.dfy`): lexicographic `std::string` order, which
  is the key order of the map. It comes with irreflexivity, asymmetry,
  transitivity and totality lemmas.
- `MoodLog` (`mood_log.dfy`): the log is the in-order walk of the map. It is a
  sequence of `Entry(key, score)` whose keys strictly increase. `View` gives the
  key-to-score map that such a sequence stands for. `Insert` is
  `mood_log[key] = score` and `LogMood` is `log_mood`.
- `MoodAnalysis` (`mood_analysis.dfy`): `Window` holds the entries that the
  backward walk visits. `RecentAverage` is the exact mean of their scores. The
  method `AnalyzeMood` follows the source's two-phase loop. `WindowMembership`
  gives an independent description of the window: the entries with fewer than
  three newer entries.
- `Advice` (`advice.dfy`): `Classify` maps an average to a tier, and `TierOfLog`
  restates the tier in integer terms. `SuggestionText` models the fixed texts
  that `get_openai_suggestion` returns on failure, and its success case.
- `Simulator` (`simulator.dfy`): `Step` is one round of the menu and `Run` is
  the loop over a sequence of rounds.

These parts of the program become parameters:

- the clock: the timestamp of a round;
- standard input: a parsed `Option<int>`, where `None` means the read failed;
- the HTTP client, the `OPENAI_API_KEY` variable and the service's reply: the
  `Service` record of a round.

The mean is a Dafny `real`. It is the exact quotient of the integer sum by the
count.

When `curl_easy_init` fails, the result is "Error initializing curl."
whether or not `OPENAI_API_KEY` is set (MENTAL_HEALTH_SIMULATOR.cpp:60-70).
`MissingKeyIgnoresReply` therefore takes a ready client.

## Model

| member | source | states |
|---|---|---|
| StringOrder.LessTransitive | MENTAL_HEALTH_SIMULATOR.cpp:14 | The key order of the map is transitive. |
| StringOrder.LessTotal | MENTAL_HEALTH_SIMULATOR.cpp:14 | Any two distinct timestamps are ordered one way or the other, so every key has one place in the walk. |
| StringOrder.LessAsymmetric | MENTAL_HEALTH_SIMULATOR.cpp:14 | No two keys are each below the other. |
| MoodLog.Insert | MENTAL_HEALTH_SIMULATOR.cpp:42 | `mood_log[key] = score` keeps the walk strictly sorted. It adds no entry except the new pair. Its view is the old map with `key` bound to `score`. |
| MoodLog.SortedViewSize | MENTAL_HEALTH_SIMULATOR.cpp:14 | A sorted walk has exactly one entry per key of the map: there are no duplicates. |
| MoodLog.LogMood | MENTAL_HEALTH_SIMULATOR.cpp:31-44 | A read failure or a score outside [1,10] leaves the log unchanged. An accepted score s at t makes the view map t to s and changes no other key. The log grows by one only when t is new, so an old entry at t is overwritten. Scores in range stay in range. |
| MoodLog.SortedViewUnique | MENTAL_HEALTH_SIMULATOR.cpp:14 | Two sorted walks with the same key-to-score map are equal, so the log is determined by its contents. |
| MoodLog.SameTimestampOverwrites | MENTAL_HEALTH_SIMULATOR.cpp:41-42 | Two logs in the same second leave only the later score. |
| MoodLog.DistinctTimestampsCommute | MENTAL_HEALTH_SIMULATOR.cpp:42 | Entries at distinct timestamps give the same log in either logging order. |
| MoodLog.LogAfterLatestAppends | MENTAL_HEALTH_SIMULATOR.cpp:41-42 | An accepted score logged after the newest timestamp lands at the end of the walk. |
| MoodAnalysis.Window | MENTAL_HEALTH_SIMULATOR.cpp:50-53 | The backward walk visits min(3, size) entries, starting at the last one. On a sorted log they come newest first. |
| MoodAnalysis.ScoreSumBounds | MENTAL_HEALTH_SIMULATOR.cpp:55 | n scores in [1,10] sum to between n and 10n. |
| MoodAnalysis.RecentAverage | MENTAL_HEALTH_SIMULATOR.cpp:47-56 | An empty log gives -1. A non-empty log with scores in range gives a mean in [1,10]. A single entry gives exactly its score. |
| MoodAnalysis.AnalyzeMood | MENTAL_HEALTH_SIMULATOR.cpp:47-56 | The loop, which collects up to three scores from `rbegin` and then accumulates and divides, returns the same value as the mean of the window. |
| MoodAnalysis.CountNewerAt | MENTAL_HEALTH_SIMULATOR.cpp:50-51 | In a sorted log, the entry at position i has exactly size-1-i newer entries. |
| MoodAnalysis.WindowMembership | MENTAL_HEALTH_SIMULATOR.cpp:50-53 | An entry is in the window if and only if it is in the log and fewer than three entries are newer. No other entry contributes to the mean. |
| MoodAnalysis.AverageDependsOnlyOnView | MENTAL_HEALTH_SIMULATOR.cpp:47-56 | The average depends only on which score sits at which timestamp, not on the order of logging. |
| Advice.Classify | MENTAL_HEALTH_SIMULATOR.cpp:114-125 | The four tiers partition the reals. "No data" holds exactly for negative values, "low" for [0,3], "okay" for (3,7] and "great" above 7. |
| Advice.ClassifyMonotone | MENTAL_HEALTH_SIMULATOR.cpp:119-125 | A higher average never gets a lower tier. |
| Advice.TierOfLog | MENTAL_HEALTH_SIMULATOR.cpp:113-125 | Take a log with scores in range, window sum S and window size n. Its tier is "no data" exactly when the log is empty, "low" exactly when S <= 3n, "okay" exactly when 3n < S <= 7n, and "great" exactly when S > 7n. |
| Advice.SuggestionText | MENTAL_HEALTH_SIMULATOR.cpp:59-110 | The result is either one of the five fixed failure texts, or the content string of the first choice of a parsed reply, verbatim. Each failure gives its own text, checked in the code's order: no client gives "Error initializing curl."; no key gives "OpenAI API key not found."; a failed transfer gives "Failed to connect to OpenAI API."; an unparsable body or a first choice whose content is not a string gives "Error parsing OpenAI response."; a missing or empty `choices` gives "No suggestion available.". A parsed reply whose first choice has string content gives exactly that content. |
| Advice.MissingKeyIgnoresReply | MENTAL_HEALTH_SIMULATOR.cpp:66-70 | With the client ready and no key set, the text is "OpenAI API key not found.", whatever the service would reply. |
| Simulator.Suggest | MENTAL_HEALTH_SIMULATOR.cpp:113-128 | The tier of the recent average is shown. A suggestion is fetched exactly when the tier is not "no data". On a log with scores in range, that is exactly when the log is non-empty. The suggestion shown is the text `get_openai_suggestion` returns for the round's client, key and reply. |
| Simulator.Step | MENTAL_HEALTH_SIMULATOR.cpp:132-154 | The loop stops exactly on choice 3. Any choice other than 1, including input that is not a number, leaves the log unchanged. Choice 1 is `log_mood`. Advice is shown exactly on choice 2, and it is `Suggest` of the current log, i.e. `suggest_activity(analyze_mood())`. Sortedness and score range are kept. |
| Simulator.Run | MENTAL_HEALTH_SIMULATOR.cpp:132-155 | The log after a finite sequence of rounds, or after the round that chose to exit, is still a strictly sorted walk of the map. |
| Simulator.RunWithoutLoggingKeepsLog | MENTAL_HEALTH_SIMULATOR.cpp:135-154 | Rounds none of which chooses 1 (failed reads, suggestions, unknown options, exit) leave the log as it was. |
| Simulator.RunKeepsScoresInRange | MENTAL_HEALTH_SIMULATOR.cpp:132-155 | Over any sequence of rounds, a log whose scores are in range stays in range. |
| Simulator.RunIgnoresRoundsAfterExit | MENTAL_HEALTH_SIMULATOR.cpp:149-151 | Rounds after an exit choice have no effect on the log. |
| Simulator.ThreeScoresExample | MENTAL_HEALTH_SIMULATOR.cpp:47-56 | Scores 8, 6, 4 logged at increasing timestamps give the log in that order, average exactly 6, and the tier "okay". |
| Simulator.FourEntryAverage | MENTAL_HEALTH_SIMULATOR.cpp:50-55 | Scores 2, 8, 6, 4 average to 6: the oldest entry is outside the window. |

## Left out

- `get_timestamp` (MENTAL_HEALTH_SIMULATOR.cpp:23-28) reads the wall clock. The timestamp is a parameter of each round. Keys may be any string, and the model does not check the "YYYY-MM-DD HH:MM:SS" shape.
- `WriteCallback` and the request side of `get_openai_suggestion` are left out: the prompt text, the JSON body, the curl options and the network call. They are foreign calls with no logic of their own. The service's reply is a parameter (`Reply`). It records how the code's `contains`/`empty`/`get<std::string>` checks see the JSON.
- Standard input and output are left out: prompts, messages, the printed average, and the `cin.clear`/`cin.ignore` recovery. A read of the menu choice or the score is an `Option<int>`. `None` stands for a failed read, including a number that overflows `int`.
- RecentAverage: the `double` arithmetic of `std::accumulate(..., 0.0) / size()` is modelled as an exact real. The double result can differ from the exact mean in its last bit. It can never cross a tier bound: a mean of 3 or 7 is exact in both models, and no other mean of at most three integers lies close enough to 3 or 7.
- The second empty check at MENTAL_HEALTH_SIMULATOR.cpp:54 is left out. It cannot be reached once the check at line 48 has passed.
- Character order: `std::string` compares `char`s as unsigned bytes. The model compares Dafny characters by code point. The two orders agree on ASCII timestamps, and UTF-8 byte order equals code point order in general.
- Run: end of input is modelled as the end of the round sequence. In the source, a read at end of input fails, and `cin.clear()`/`cin.ignore()` leave the stream at its end, so the loop keeps printing "Invalid input" without end (MENTAL_HEALTH_SIMULATOR.cpp:135-140). Such rounds have choice `None` and change nothing (`RunWithoutLoggingKeepsLog`), so the final log is the same.
