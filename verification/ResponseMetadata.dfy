/** Streamed accounting: every event updates one cumulative record. For Anthropic
    and OpenAI each field ends as the last value an event offered for it; for Gemini
    the whole record is that of the last event with usage.

    An event is what its JSON decodes to; counters that may be absent are options. */
module ResponseMetadata {
  import opened Wrappers
  import opened Utf8
  import SseStream

  datatype Metadata = Metadata(
    model: string,
    inputTokens: int,
    outputTokens: int,
    cacheCreation: int, cacheCreationReported: bool,
    cacheRead: int, cacheReadReported: bool,
    reasoningTokens: int,
    finishReason: string)

  const NO_METADATA := Metadata("", 0, 0, 0, false, 0, false, 0, "")

  // ----- Events -----

  datatype AnthropicUsage = AnthropicUsage(inputTokens: int, outputTokens: int,
                                           cacheCreation: Option<int>, cacheRead: Option<int>)

  datatype AnthropicEvent = AnthropicEvent(model: string, messageModel: string,
                                           messageUsage: AnthropicUsage, usage: AnthropicUsage)

  datatype PromptDetails = PromptDetails(cachedTokens: Option<int>)

  datatype CompletionDetails = CompletionDetails(reasoningTokens: int)

  datatype OpenAIUsage = OpenAIUsage(
    promptTokens: int, completionTokens: int, inputTokens: int, outputTokens: int,
    promptDetails: Option<PromptDetails>, completionDetails: Option<CompletionDetails>,
    inputDetails: Option<PromptDetails>, outputDetails: Option<CompletionDetails>)

  /** `choices` lists the finish reasons; `response` is the envelope of the Responses API. */
  datatype OpenAIEvent = OpenAIEvent(model: string, usage: OpenAIUsage, choices: seq<string>, status: string,
                                     response: Option<OpenAIEvent>)

  datatype GeminiEvent = GeminiEvent(modelVersion: string, promptTokens: int, candidatesTokens: int,
                                     cachedTokens: Option<int>, candidates: seq<string>)

  datatype Event = Anthropic(a: AnthropicEvent) | OpenAI(o: OpenAIEvent) | Gemini(g: GeminiEvent)

  // ----- What an event offers, field by field -----

  /** The values that qualify for each field, in the order the code looks at them. */
  datatype Offers = Offers(
    model: seq<string>, inputTokens: seq<int>, outputTokens: seq<int>,
    cacheCreation: seq<int>, cacheRead: seq<int>, reasoningTokens: seq<int>, finishReason: seq<string>)

  const NOTHING := Offers([], [], [], [], [], [], [])

  function Named(s: string): seq<string> {
    if s == "" then [] else [s]
  }

  function Positive(n: int): seq<int> {
    if n > 0 then [n] else []
  }

  function Present(n: Option<int>): seq<int> {
    if n.Some? then [n.value] else []
  }

  function AnthropicOffers(e: AnthropicEvent): Offers {
    Offers(Named(e.model) + Named(e.messageModel),
           Positive(e.messageUsage.inputTokens) + Positive(e.usage.inputTokens),
           Positive(e.usage.outputTokens),
           Present(e.messageUsage.cacheCreation) + Present(e.usage.cacheCreation),
           Present(e.messageUsage.cacheRead) + Present(e.usage.cacheRead),
           [], [])
  }

  function Payload(e: OpenAIEvent): OpenAIEvent {
    if e.response.Some? then e.response.value else e
  }

  function FirstPositive(a: int, b: int): int {
    if a > 0 then a else if b > 0 then b else 0
  }

  function FirstPresent<T>(a: Option<T>, b: Option<T>): Option<T> {
    if a.Some? then a else b
  }

  /** A choice hides the status even when it has no finish reason yet. */
  function OpenAIFinish(p: OpenAIEvent): string {
    if p.choices != [] then p.choices[0] else p.status
  }

  /** Input details hide prompt details even when they do not tell the cached tokens. */
  function OpenAIOffers(e: OpenAIEvent): Offers {
    var p := Payload(e);
    var read := FirstPresent(p.usage.inputDetails, p.usage.promptDetails);
    var written := FirstPresent(p.usage.outputDetails, p.usage.completionDetails);
    Offers(Named(p.model),
           Positive(FirstPositive(p.usage.inputTokens, p.usage.promptTokens)),
           Positive(FirstPositive(p.usage.outputTokens, p.usage.completionTokens)),
           [],
           if read.Some? then Present(read.value.cachedTokens) else [],
           if written.Some? then Positive(written.value.reasoningTokens) else [],
           Named(OpenAIFinish(p)))
  }

  function LastOf<T>(current: T, offered: seq<T>): T {
    if offered == [] then current else offered[|offered| - 1]
  }

  function Accept(m: Metadata, o: Offers): Metadata {
    Metadata(
      LastOf(m.model, o.model), LastOf(m.inputTokens, o.inputTokens), LastOf(m.outputTokens, o.outputTokens),
      LastOf(m.cacheCreation, o.cacheCreation), m.cacheCreationReported || o.cacheCreation != [],
      LastOf(m.cacheRead, o.cacheRead), m.cacheReadReported || o.cacheRead != [],
      LastOf(m.reasoningTokens, o.reasoningTokens), LastOf(m.finishReason, o.finishReason))
  }

  function GeminiMetadata(e: GeminiEvent): Metadata {
    Metadata(e.modelVersion, e.promptTokens, e.candidatesTokens, 0, false,
             if e.cachedTokens.Some? then e.cachedTokens.value else 0, e.cachedTokens.Some?, 0,
             if e.candidates != [] then e.candidates[0] else "")
  }

  predicate HasUsage(e: GeminiEvent) {
    e.promptTokens > 0 || e.candidatesTokens > 0
  }

  function Merge(m: Metadata, e: Event): Metadata {
    match e
    case Anthropic(a) => Accept(m, AnthropicOffers(a))
    case OpenAI(o) => Accept(m, OpenAIOffers(o))
    case Gemini(g) => if HasUsage(g) then GeminiMetadata(g) else m
  }

  function MergeAll(m: Metadata, events: seq<Event>): Metadata
    decreases |events|
  {
    if events == [] then m else MergeAll(Merge(m, events[0]), events[1..])
  }

  // ----- Last writer, field by field -----

  function Both(a: Offers, b: Offers): Offers {
    Offers(a.model + b.model, a.inputTokens + b.inputTokens, a.outputTokens + b.outputTokens,
           a.cacheCreation + b.cacheCreation, a.cacheRead + b.cacheRead,
           a.reasoningTokens + b.reasoningTokens, a.finishReason + b.finishReason)
  }

  function OffersOf(e: Event): Offers
    requires !e.Gemini?
  {
    if e.Anthropic? then AnthropicOffers(e.a) else OpenAIOffers(e.o)
  }

  /** All that a stream offers, one after the other. */
  function AllOffers(events: seq<Event>): Offers
    requires forall e <- events :: !e.Gemini?
    decreases |events|
  {
    if events == [] then NOTHING else Both(OffersOf(events[0]), AllOffers(events[1..]))
  }

  lemma LastOfBoth<T>(current: T, a: seq<T>, b: seq<T>)
    ensures LastOf(LastOf(current, a), b) == LastOf(current, a + b)
  {
  }

  lemma AcceptBoth(m: Metadata, a: Offers, b: Offers)
    ensures Accept(Accept(m, a), b) == Accept(m, Both(a, b))
  {
    LastOfBoth(m.model, a.model, b.model);
    LastOfBoth(m.inputTokens, a.inputTokens, b.inputTokens);
    LastOfBoth(m.outputTokens, a.outputTokens, b.outputTokens);
    LastOfBoth(m.cacheCreation, a.cacheCreation, b.cacheCreation);
    LastOfBoth(m.cacheRead, a.cacheRead, b.cacheRead);
    LastOfBoth(m.reasoningTokens, a.reasoningTokens, b.reasoningTokens);
    LastOfBoth(m.finishReason, a.finishReason, b.finishReason);
    hide LastOf;
  }

  /** After any events of Anthropic or OpenAI, each field is the last value offered
      for it in the whole stream, or what it was; a counter is reported exactly if
      it was reported or some event offered it. */
  lemma {:induction false} EachFieldIsLastOffer(m: Metadata, events: seq<Event>)
    requires forall e <- events :: !e.Gemini?
    ensures MergeAll(m, events) == Accept(m, AllOffers(events))
    decreases |events|
  {
    if events != [] {
      var e := events[0];
      EachFieldIsLastOffer(Merge(m, e), events[1..]);
      AcceptBoth(m, OffersOf(e), AllOffers(events[1..]));
      assert Merge(m, e) == Accept(m, OffersOf(e));
      hide Accept, OffersOf, Both, Merge;
    }
  }

  /** What was reported stays reported. */
  lemma ReportsNeverRevert(m: Metadata, events: seq<Event>)
    requires forall e <- events :: !e.Gemini?
    ensures m.cacheReadReported ==> MergeAll(m, events).cacheReadReported
    ensures m.cacheCreationReported ==> MergeAll(m, events).cacheCreationReported
  {
    EachFieldIsLastOffer(m, events);
    hide MergeAll, AllOffers;
  }

  lemma {:induction false} GeminiIgnoresNoUsage(m: Metadata, events: seq<Event>)
    requires forall e <- events :: e.Gemini? && !HasUsage(e.g)
    ensures MergeAll(m, events) == m
    decreases |events|
  {
    if events != [] {
      assert events[0] in events;
      GeminiIgnoresNoUsage(m, events[1..]);
    }
  }

  /** For Gemini the last event with usage decides everything. */
  lemma {:induction false} GeminiKeepsLastUsage(m: Metadata, events: seq<Event>, i: nat)
    requires i < |events| && (forall e <- events :: e.Gemini?)
    requires HasUsage(events[i].g) && forall j | i < j < |events| :: !HasUsage(events[j].g)
    ensures MergeAll(m, events) == GeminiMetadata(events[i].g)
    decreases |events|
  {
    var rest := events[1..];
    if i == 0 {
      assert forall j | 0 <= j < |rest| :: rest[j] == events[j + 1];
      GeminiIgnoresNoUsage(GeminiMetadata(events[0].g), rest);
    } else {
      assert rest[i - 1] == events[i];
      GeminiKeepsLastUsage(Merge(m, events[0]), rest, i - 1);
    }
  }

  /** The last event with usage. */
  function LastUsage(events: seq<Event>): (r: Option<GeminiEvent>)
    requires forall e <- events :: e.Gemini?
    ensures r.Some? ==> HasUsage(r.value)
  {
    if events == [] then None
    else if HasUsage(events[|events| - 1].g) then Some(events[|events| - 1].g)
    else LastUsage(events[..|events| - 1])
  }

  lemma {:induction false} MergeAppended(m: Metadata, events: seq<Event>, e: Event)
    ensures MergeAll(m, events + [e]) == Merge(MergeAll(m, events), e)
    decreases |events|
  {
    if events == [] {
      assert [] + [e] == [e] && [e][1..] == [];
    } else {
      assert (events + [e])[1..] == events[1..] + [e];
      hide Merge;
      MergeAppended(Merge(m, events[0]), events[1..], e);
    }
  }

  /** After any Gemini events the cached tokens are reported exactly if the last event
      with usage reports them, or, without one, if they were before. */
  lemma {:induction false} GeminiReportsAsLastUsage(m: Metadata, events: seq<Event>)
    requires forall e <- events :: e.Gemini?
    ensures MergeAll(m, events).cacheReadReported
            <==> if LastUsage(events).Some? then LastUsage(events).value.cachedTokens.Some? else m.cacheReadReported
  {
    if events != [] {
      var before, last := events[..|events| - 1], events[|events| - 1];
      assert events == before + [last] && last.Gemini?;
      GeminiReportsAsLastUsage(m, before);
      MergeAppended(m, before, last);
      hide MergeAll;
    }
  }

  /** Whatever the provider, one event takes a report back exactly when it is Gemini's,
      has usage and does not tell the cached tokens. */
  lemma ReportIsTakenBackExactlyWhen(m: Metadata, e: Event)
    ensures m.cacheReadReported && !Merge(m, e).cacheReadReported
            <==> m.cacheReadReported && e.Gemini? && HasUsage(e.g) && e.g.cachedTokens.None?
    ensures m.cacheCreationReported && !Merge(m, e).cacheCreationReported
            <==> m.cacheCreationReported && e.Gemini? && HasUsage(e.g)
  {
    hide AnthropicOffers, OpenAIOffers, LastOf;
  }

  /** So for Gemini a reported counter can be taken back. */
  lemma GeminiReportCanRevert()
    ensures var first := Gemini(GeminiEvent("gemini", 10, 0, Some(4), []));
            var second := Gemini(GeminiEvent("gemini", 10, 5, None, []));
            && MergeAll(NO_METADATA, [first]).cacheReadReported
            && !MergeAll(NO_METADATA, [first, second]).cacheReadReported
  {
    var first := Gemini(GeminiEvent("gemini", 10, 0, Some(4), []));
    var second := Gemini(GeminiEvent("gemini", 10, 5, None, []));
    GeminiKeepsLastUsage(NO_METADATA, [first], 0);
    GeminiKeepsLastUsage(NO_METADATA, [first, second], 1);
  }

  // ----- From the bytes of the stream -----

  function MergeData(decode: Bytes -> Option<Event>, m: Metadata, data: Bytes): Metadata {
    match decode(data)
    case None => m
    case Some(e) => Merge(m, e)
  }

  /** The events of a stream: the data lines that decode. */
  function Events(decode: Bytes -> Option<Event>, lines: seq<Bytes>): seq<Event>
    decreases |lines|
  {
    if lines == [] then []
    else
      var data := SseStream.SseData(lines[0]);
      var e := if data == [] then None else decode(data);
      (if e.Some? then [e.value] else []) + Events(decode, lines[1..])
  }

  lemma {:induction false} FoldIsMergeAll(decode: Bytes -> Option<Event>, m: Metadata, lines: seq<Bytes>)
    ensures SseStream.Fold((x, data) => MergeData(decode, x, data), m, lines) == MergeAll(m, Events(decode, lines))
    decreases |lines|
  {
    if lines != [] {
      var merge := (x: Metadata, data: Bytes) => MergeData(decode, x, data);
      var next := SseStream.ConsumeLine(merge, m, lines[0]);
      FoldIsMergeAll(decode, next, lines[1..]);
      var data := SseStream.SseData(lines[0]);
      var e := if data == [] then None else decode(data);
      var rest := Events(decode, lines[1..]);
      if e.Some? {
        assert ([e.value] + rest)[1..] == rest;
      } else {
        assert [] + rest == rest;
      }
      hide Merge, SseStream.SseData;
    }
  }

  /** However the response was split into writes: each field of the result is the
      last value that the events of the whole stream offered for it. */
  lemma StreamedFieldsAreLastOffers(decode: Bytes -> Option<Event>, chunks: seq<Bytes>)
    requires forall data :: decode(data).Some? ==> !decode(data).value.Gemini?
    ensures var merge := (x: Metadata, data: Bytes) => MergeData(decode, x, data);
            var events := Events(decode, SseStream.AllLines(SseStream.Concat(chunks)));
            && (forall e <- events :: !e.Gemini?)
            && SseStream.Finish(merge, SseStream.WriteAll(merge, NO_METADATA, chunks))
               == Accept(NO_METADATA, AllOffers(events))
  {
    var merge := (x: Metadata, data: Bytes) => MergeData(decode, x, data);
    var lines := SseStream.AllLines(SseStream.Concat(chunks));
    SseStream.SplittingIsInvisible(merge, NO_METADATA, chunks);
    FoldIsMergeAll(decode, NO_METADATA, lines);
    NoGemini(decode, lines);
    EachFieldIsLastOffer(NO_METADATA, Events(decode, lines));
    hide *;
  }

  lemma {:induction false} NoGemini(decode: Bytes -> Option<Event>, lines: seq<Bytes>)
    requires forall data :: decode(data).Some? ==> !decode(data).value.Gemini?
    ensures forall e <- Events(decode, lines) :: !e.Gemini?
    decreases |lines|
  {
    if lines != [] {
      NoGemini(decode, lines[1..]);
    }
  }

  // ----- As the proxy updates it -----

  class ResponseMetadataResult {
    var model: string
    var inputTokens: int
    var outputTokens: int
    var cacheCreation: int
    var cacheCreationReported: bool
    var cacheRead: int
    var cacheReadReported: bool
    var reasoningTokens: int
    var finishReason: string

    function State(): Metadata
      reads this
    {
      Metadata(model, inputTokens, outputTokens, cacheCreation, cacheCreationReported, cacheRead, cacheReadReported,
               reasoningTokens, finishReason)
    }

    constructor ()
      ensures State() == NO_METADATA
    {
      model, finishReason := "", "";
      inputTokens, outputTokens, cacheCreation, cacheRead, reasoningTokens := 0, 0, 0, 0, 0;
      cacheCreationReported, cacheReadReported := false, false;
    }

    method MergeAnthropic(e: AnthropicEvent)
      modifies this
      ensures State() == Merge(old(State()), Anthropic(e))
    {
      MergeModel(e.model);
      MergeModel(e.messageModel);
      MergeCounters(e.messageUsage.inputTokens, 0, e.messageUsage.cacheCreation, e.messageUsage.cacheRead);
      MergeCounters(e.usage.inputTokens, e.usage.outputTokens, e.usage.cacheCreation, e.usage.cacheRead);
    }

    method MergeModel(name: string)
      modifies this`model
      ensures model == LastOf(old(model), Named(name))
    {
      if name != "" {
        model := name;
      }
    }

    method MergeCounters(input: int, output: int, created: Option<int>, read: Option<int>)
      modifies this`inputTokens, this`outputTokens, this`cacheCreation, this`cacheCreationReported, this`cacheRead,
        this`cacheReadReported
      ensures inputTokens == LastOf(old(inputTokens), Positive(input))
      ensures outputTokens == LastOf(old(outputTokens), Positive(output))
      ensures cacheCreation == LastOf(old(cacheCreation), Present(created))
      ensures cacheCreationReported == (old(cacheCreationReported) || created.Some?)
      ensures cacheRead == LastOf(old(cacheRead), Present(read))
      ensures cacheReadReported == (old(cacheReadReported) || read.Some?)
    {
      if input > 0 {
        inputTokens := input;
      }
      if output > 0 {
        outputTokens := output;
      }
      if created.Some? {
        cacheCreationReported := true;
        cacheCreation := created.value;
      }
      if read.Some? {
        cacheReadReported := true;
        cacheRead := read.value;
      }
    }

    method MergeOpenAI(e: OpenAIEvent)
      modifies this
      ensures State() == Merge(old(State()), OpenAI(e))
    {
      var p := Payload(e);
      var finish := "";
      if |p.choices| > 0 {
        finish := p.choices[0];
      } else if p.status != "" {
        finish := p.status;
      }
      var cached: Option<int> := None;
      var details := FirstPresent(p.usage.inputDetails, p.usage.promptDetails);
      if details.Some? {
        cached := details.value.cachedTokens;
      }
      var reasoning := 0;
      var completion := FirstPresent(p.usage.outputDetails, p.usage.completionDetails);
      if completion.Some? {
        reasoning := completion.value.reasoningTokens;
      }
      MergeModel(p.model);
      MergeCounters(FirstPositive(p.usage.inputTokens, p.usage.promptTokens),
                    FirstPositive(p.usage.outputTokens, p.usage.completionTokens), None, cached);
      MergeOutcome(reasoning, finish);
    }

    method MergeOutcome(reasoning: int, finish: string)
      modifies this`reasoningTokens, this`finishReason
      ensures reasoningTokens == LastOf(old(reasoningTokens), Positive(reasoning))
      ensures finishReason == LastOf(old(finishReason), Named(finish))
    {
      if reasoning > 0 {
        reasoningTokens := reasoning;
      }
      if finish != "" {
        finishReason := finish;
      }
    }

    method MergeGemini(e: GeminiEvent)
      modifies this
      ensures State() == Merge(old(State()), Gemini(e))
    {
      if e.promptTokens > 0 || e.candidatesTokens > 0 {
        model, inputTokens, outputTokens := e.modelVersion, e.promptTokens, e.candidatesTokens;
        cacheCreation, cacheCreationReported := 0, false;
        cacheRead, cacheReadReported := if e.cachedTokens.Some? then e.cachedTokens.value else 0, e.cachedTokens.Some?;
        reasoningTokens := 0;
        finishReason := if e.candidates != [] then e.candidates[0] else "";
      }
    }
  }
}
