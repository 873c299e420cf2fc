/** Which counter of an event a field of the result comes from, said by the event's own
    fields: the last event that tells a field decides it. */
module ReportedFields {
  import opened ResponseMetadata
  import opened Utf8
  import opened Wrappers
  import SseStream

  function Or<T>(first: Option<T>, second: Option<T>): Option<T> {
    if first.Some? then first else second
  }

  function NotEmpty(s: string): Option<string> {
    if s != "" then Some(s) else None
  }

  function AboveZero(n: int): Option<int> {
    if n > 0 then Some(n) else None
  }

  /** What an OpenAI event is about: the envelope's response if it has one. */
  function Inner(e: OpenAIEvent): OpenAIEvent {
    match e.response
    case Some(response) => response
    case None => e
  }

  // ----- What an event tells of each field, the more authoritative first -----

  function TellsModel(e: Event): Option<string>
  {
    match e
    case Anthropic(a) => Or(NotEmpty(a.messageModel), NotEmpty(a.model))
    case OpenAI(o) => NotEmpty(Inner(o).model)
    case Gemini(g) => None
  }

  function TellsInput(e: Event): Option<int> {
    match e
    case Anthropic(a) => Or(AboveZero(a.usage.inputTokens), AboveZero(a.messageUsage.inputTokens))
    case OpenAI(o) => Or(AboveZero(Inner(o).usage.inputTokens), AboveZero(Inner(o).usage.promptTokens))
    case Gemini(g) => None
  }

  function TellsOutput(e: Event): Option<int> {
    match e
    case Anthropic(a) => AboveZero(a.usage.outputTokens)
    case OpenAI(o) => Or(AboveZero(Inner(o).usage.outputTokens), AboveZero(Inner(o).usage.completionTokens))
    case Gemini(g) => None
  }

  function TellsCacheCreation(e: Event): Option<int> {
    match e
    case Anthropic(a) => Or(a.usage.cacheCreation, a.messageUsage.cacheCreation)
    case OpenAI(o) => None
    case Gemini(g) => None
  }

  /** Input details come before prompt details, even when they do not tell the tokens. */
  function TellsCacheRead(e: Event): Option<int> {
    match e
    case Anthropic(a) => Or(a.usage.cacheRead, a.messageUsage.cacheRead)
    case OpenAI(o) =>
      var usage := Inner(o).usage;
      if usage.inputDetails.Some? then usage.inputDetails.value.cachedTokens
      else if usage.promptDetails.Some? then usage.promptDetails.value.cachedTokens
      else None
    case Gemini(g) => None
  }

  function TellsReasoning(e: Event): Option<int> {
    match e
    case Anthropic(a) => None
    case OpenAI(o) =>
      var usage := Inner(o).usage;
      if usage.outputDetails.Some? then AboveZero(usage.outputDetails.value.reasoningTokens)
      else if usage.completionDetails.Some? then AboveZero(usage.completionDetails.value.reasoningTokens)
      else None
    case Gemini(g) => None
  }

  /** The first choice's reason, or the status when there is no choice. */
  function TellsFinish(e: Event): Option<string> {
    match e
    case Anthropic(a) => None
    case OpenAI(o) => if Inner(o).choices == [] then NotEmpty(Inner(o).status) else NotEmpty(Inner(o).choices[0])
    case Gemini(g) => None
  }

  // ----- The last one decides -----

  function LastTold<T>(events: seq<Event>, tells: Event -> Option<T>): Option<T> {
    if events == [] then None
    else Or(tells(events[|events| - 1]), LastTold(events[..|events| - 1], tells))
  }

  function Decided<T>(before: T, told: Option<T>): T {
    match told
    case Some(value) => value
    case None => before
  }

  /** The result of these events, field by field. */
  ghost predicate DecidedByLast(m: Metadata, events: seq<Event>, r: Metadata) {
    && r.model == Decided(m.model, LastTold(events, TellsModel))
    && r.inputTokens == Decided(m.inputTokens, LastTold(events, TellsInput))
    && r.outputTokens == Decided(m.outputTokens, LastTold(events, TellsOutput))
    && r.cacheCreation == Decided(m.cacheCreation, LastTold(events, TellsCacheCreation))
    && r.cacheCreationReported == (m.cacheCreationReported || LastTold(events, TellsCacheCreation).Some?)
    && r.cacheRead == Decided(m.cacheRead, LastTold(events, TellsCacheRead))
    && r.cacheReadReported == (m.cacheReadReported || LastTold(events, TellsCacheRead).Some?)
    && r.reasoningTokens == Decided(m.reasoningTokens, LastTold(events, TellsReasoning))
    && r.finishReason == Decided(m.finishReason, LastTold(events, TellsFinish))
  }

  lemma LastToldThen<T>(events: seq<Event>, e: Event, tells: Event -> Option<T>)
    ensures LastTold(events + [e], tells) == Or(tells(e), LastTold(events, tells))
  {
    var all := events + [e];
    assert all[..|all| - 1] == events && all[|all| - 1] == e;
  }

  lemma AnthropicTells(m: Metadata, a: AnthropicEvent)
    ensures var r, e := Merge(m, Anthropic(a)), Anthropic(a);
            && r.model == Decided(m.model, TellsModel(e))
            && r.inputTokens == Decided(m.inputTokens, TellsInput(e))
            && r.outputTokens == Decided(m.outputTokens, TellsOutput(e))
            && r.cacheCreation == Decided(m.cacheCreation, TellsCacheCreation(e))
            && r.cacheCreationReported == (m.cacheCreationReported || TellsCacheCreation(e).Some?)
            && r.cacheRead == Decided(m.cacheRead, TellsCacheRead(e))
            && r.cacheReadReported == (m.cacheReadReported || TellsCacheRead(e).Some?)
            && r.reasoningTokens == m.reasoningTokens && r.finishReason == m.finishReason
  {
  }

  lemma OpenAITells(m: Metadata, o: OpenAIEvent)
    ensures var r, e := Merge(m, OpenAI(o)), OpenAI(o);
            && r.model == Decided(m.model, TellsModel(e))
            && r.inputTokens == Decided(m.inputTokens, TellsInput(e))
            && r.outputTokens == Decided(m.outputTokens, TellsOutput(e))
            && r.cacheCreation == m.cacheCreation && r.cacheCreationReported == m.cacheCreationReported
            && r.cacheRead == Decided(m.cacheRead, TellsCacheRead(e))
            && r.cacheReadReported == (m.cacheReadReported || TellsCacheRead(e).Some?)
            && r.reasoningTokens == Decided(m.reasoningTokens, TellsReasoning(e))
            && r.finishReason == Decided(m.finishReason, TellsFinish(e))
  {
  }

  lemma OneMoreEvent(m: Metadata, events: seq<Event>, e: Event, r: Metadata)
    requires DecidedByLast(m, events, r) && !e.Gemini?
    ensures DecidedByLast(m, events + [e], Merge(r, e))
  {
    LastToldThen(events, e, TellsModel);
    LastToldThen(events, e, TellsInput);
    LastToldThen(events, e, TellsOutput);
    LastToldThen(events, e, TellsCacheCreation);
    LastToldThen(events, e, TellsCacheRead);
    LastToldThen(events, e, TellsReasoning);
    LastToldThen(events, e, TellsFinish);
    match e {
      case Anthropic(a) => AnthropicTells(r, a);
      case OpenAI(o) => OpenAITells(r, o);
    }
    hide LastTold, Merge;
  }

  /** After any events of Anthropic or OpenAI: each field is what the last event that
      tells it says, and what it was if none does; and a counter is reported exactly if
      it was or some event tells it. */
  lemma {:induction false} EachFieldIsLastTold(m: Metadata, events: seq<Event>)
    requires forall e <- events :: !e.Gemini?
    ensures DecidedByLast(m, events, MergeAll(m, events))
  {
    if events != [] {
      var before, last := events[..|events| - 1], events[|events| - 1];
      assert events == before + [last] && last in events;
      EachFieldIsLastTold(m, before);
      MergeAppended(m, before, last);
      hide DecidedByLast, MergeAll, Merge;
      OneMoreEvent(m, before, last, MergeAll(m, before));
    }
  }

  /** From the bytes: however a response is split into writes, each field is what the
      last event of the whole stream that tells it says, and empty or zero if none does. */
  lemma StreamedFieldsAreLastTold(decode: Bytes -> Option<Event>, chunks: seq<Bytes>)
    requires forall data :: decode(data).Some? ==> !decode(data).value.Gemini?
    ensures var merge := (x: Metadata, data: Bytes) => MergeData(decode, x, data);
            DecidedByLast(NO_METADATA, Events(decode, SseStream.AllLines(SseStream.Concat(chunks))),
                          SseStream.Finish(merge, SseStream.WriteAll(merge, NO_METADATA, chunks)))
  {
    StreamedFieldsAreLastOffers(decode, chunks);
    var events := Events(decode, SseStream.AllLines(SseStream.Concat(chunks)));
    EachFieldIsLastOffer(NO_METADATA, events);
    hide *;
    EachFieldIsLastTold(NO_METADATA, events);
  }

  /** After any Gemini events: every field is that of the last event with usage, and
      cache creation and reasoning are never told. */
  lemma {:induction false} GeminiFieldsOfLastUsage(m: Metadata, events: seq<Event>)
    requires forall e <- events :: e.Gemini?
    ensures var r, last := MergeAll(m, events), LastUsage(events);
            if last.None? then r == m
            else
              var g := last.value;
              && r.model == g.modelVersion && r.inputTokens == g.promptTokens && r.outputTokens == g.candidatesTokens
              && (g.cachedTokens.Some? ==> r.cacheReadReported && r.cacheRead == g.cachedTokens.value)
              && (g.cachedTokens.None? ==> !r.cacheReadReported && r.cacheRead == 0)
              && r.cacheCreation == 0 && !r.cacheCreationReported && r.reasoningTokens == 0
              && (g.candidates != [] ==> r.finishReason == g.candidates[0])
              && (g.candidates == [] ==> r.finishReason == "")
    decreases |events|
  {
    if events != [] {
      var before, last := events[..|events| - 1], events[|events| - 1];
      assert events == before + [last] && last in events;
      MergeAppended(m, before, last);
      GeminiFieldsOfLastUsage(m, before);
      hide MergeAll;
    }
  }

  /** A message that tells 900 cached tokens read and none written. */
  lemma CacheReadIsNotCacheCreation()
    ensures var nothing := AnthropicUsage(0, 0, None, None);
            var e := Anthropic(AnthropicEvent("", "claude", AnthropicUsage(10, 0, None, Some(900)), nothing));
            var r := MergeAll(NO_METADATA, [e]);
            r.inputTokens == 10 && r.cacheRead == 900 && r.cacheReadReported && !r.cacheCreationReported
  {
    var nothing := AnthropicUsage(0, 0, None, None);
    var e := Anthropic(AnthropicEvent("", "claude", AnthropicUsage(10, 0, None, Some(900)), nothing));
    EachFieldIsLastTold(NO_METADATA, [e]);
    assert [] + [e] == [e];
    LastToldThen([], e, TellsInput);
    LastToldThen([], e, TellsCacheRead);
    LastToldThen([], e, TellsCacheCreation);
  }
}
