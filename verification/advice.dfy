/**
  `suggest_activity` and the outcome of `get_openai_suggestion`: the average
  is sorted into one of four tiers, and for any tier but "no data" a
  suggestion text is fetched from an external chat-completion service.
 */
module Advice {
  import opened Wrappers
  import opened MoodLog
  import opened MoodAnalysis

  /** The four messages `suggest_activity` can open with. */
  datatype Tier = NoMoodData | Low | Okay | Great

  /** Upper bounds (inclusive) of the "low" and "okay" tiers. */
  const LowCeiling: real := 3.0
  const OkayCeiling: real := 7.0

  /** The tier of an average score. A negative average is the no-data
      sentinel; the remaining tiers split [0, infinity) at 3 and 7, each
      bound belonging to the lower tier. */
  function Classify(avg: real): (t: Tier)
    ensures t == NoMoodData <==> avg < 0.0
    ensures t == Low <==> 0.0 <= avg <= LowCeiling
    ensures t == Okay <==> LowCeiling < avg <= OkayCeiling
    ensures t == Great <==> OkayCeiling < avg
  {
    if avg < 0.0 then NoMoodData
    else if avg <= LowCeiling then Low
    else if avg <= OkayCeiling then Okay
    else Great
  }

  /** Tier rank, used to state that classification is monotone. */
  function Rank(t: Tier): nat
  {
    match t
    case NoMoodData => 0
    case Low => 1
    case Okay => 2
    case Great => 3
  }

  /** A higher average never lands in a lower tier. */
  lemma ClassifyMonotone(a: real, b: real)
    requires a <= b
    ensures Rank(Classify(a)) <= Rank(Classify(b))
  {
  }

  /** The tier of a log whose scores are in range, in integer terms: with
      `sum` the window's score total and `n` its size, "no data" exactly for
      the empty log, "low" when sum <= 3n, "okay" when 3n < sum <= 7n and
      "great" when sum > 7n. */
  lemma TierOfLog(log: Log)
    requires ScoresInRange(log)
    ensures var sum, n := ScoreSum(Window(log)), |Window(log)|;
      && (Classify(RecentAverage(log)) == NoMoodData <==> |log| == 0)
      && (Classify(RecentAverage(log)) == Low <==> |log| > 0 && sum <= 3 * n)
      && (Classify(RecentAverage(log)) == Okay <==> |log| > 0 && 3 * n < sum <= 7 * n)
      && (Classify(RecentAverage(log)) == Great <==> |log| > 0 && 7 * n < sum)
  {
  }

  /** One entry of the service's `choices` array; `content` is None when
      `message.content` is missing or not a string. */
  datatype Choice = Choice(content: Option<string>)

  /** The reply of the HTTPS request: a transport failure, or a body as the
      code's checks see it. `Body(None)`: the body did not parse as JSON.
      `Body(Some(None))`: it parsed, but is not an object with a `choices`
      field (`contains` is false). `Body(Some(Some(cs)))`: the `choices`
      value, where an empty value is `[]` and a non-empty value that is not
      an array, so that indexing it throws, is `[Choice(None)]`. */
  datatype Reply = TransportFailed | Body(json: Option<Option<seq<Choice>>>)

  const CurlInitError := "Error initializing curl."
  const MissingKey := "OpenAI API key not found."
  const ConnectError := "Failed to connect to OpenAI API."
  const ParseError := "Error parsing OpenAI response."
  const NoSuggestion := "No suggestion available."

  /** The text `get_openai_suggestion` returns, given whether the HTTP client
      initialised, the value of the API-key environment variable and the
      service's reply. */
  function SuggestionText(clientReady: bool, apiKey: Option<string>, reply: Reply): (text: string)
    ensures || text in {CurlInitError, MissingKey, ConnectError, ParseError, NoSuggestion}
            || (&& reply.Body? && reply.json.Some? && reply.json.value.Some?
                && |reply.json.value.value| > 0
                && reply.json.value.value[0].content == Some(text))
    // Each failure, in the order the code checks for it, has its own text.
    ensures !clientReady ==> text == CurlInitError
    ensures clientReady && apiKey.None? ==> text == MissingKey
    ensures clientReady && apiKey.Some? && reply.TransportFailed? ==> text == ConnectError
    ensures clientReady && apiKey.Some? && reply == Body(None) ==> text == ParseError
    ensures clientReady && apiKey.Some? && reply == Body(Some(None)) ==> text == NoSuggestion
    ensures clientReady && apiKey.Some? && reply == Body(Some(Some([]))) ==> text == NoSuggestion
    // A parsed reply with a first choice gives that choice's content, or the
    // parse-error text when the content is not a string.
    ensures && clientReady && apiKey.Some? && reply.Body? && reply.json.Some?
            && reply.json.value.Some? && |reply.json.value.value| > 0
            ==> text == (match reply.json.value.value[0].content
                         case Some(content) => content
                         case None => ParseError)
  {
    if !clientReady then CurlInitError
    else if apiKey.None? then MissingKey
    else match reply
      case TransportFailed => ConnectError
      case Body(None) => ParseError
      case Body(Some(None)) => NoSuggestion
      case Body(Some(Some(choices))) =>
        if |choices| == 0 then NoSuggestion
        else if choices[0].content.None? then ParseError
        else choices[0].content.value
  }

  /** With a working client but no API key, the text is the fixed
      missing-key message whatever the service would have replied. */
  lemma MissingKeyIgnoresReply(reply: Reply)
    ensures SuggestionText(true, None, reply) == MissingKey
  {
  }
}
