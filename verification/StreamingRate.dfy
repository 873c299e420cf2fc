/** The proxy's short-window estimate of generation speed. Samples older than the
    window are pruned; what is computed from the rest is what the whole history
    would give.

    Times are in nanoseconds, amounts of text in runes. */
module StreamingRate {
  import opened Wrappers

  const CHARS_PER_TOKEN: nat := 4
  const RATE_WINDOW: nat := 3_000_000_000
  const EMIT_INTERVAL: nat := 900_000_000
  const MIN_WINDOW: nat := 250_000_000
  const MILLISECOND: nat := 1_000_000

  datatype Sample = Sample(at: int, textRunes: nat)

  /** One text delta: when it came, how long it is, and whether a notification sent
      then would succeed. */
  datatype Delta = Delta(now: int, runes: nat, delivered: bool)

  datatype Window = Window(nanoseconds: int, runes: int, tokens: int)

  datatype Emission = Emission(at: int, window: Window, totalTokens: nat)

  /** `lastEmittedAt` is None for Go's zero time, from which every interval is long. */
  datatype Observer = Observer(samples: seq<Sample>, textRunes: nat, lastEmittedAt: Option<int>, lastEmittedToks: nat,
                               emitted: seq<Emission>)

  const NEW_OBSERVER := Observer([], 0, None, 0, [])

  // ----- One delta -----

  function Prune(samples: seq<Sample>, cutoff: int): seq<Sample> {
    if |samples| > 1 && samples[1].at < cutoff then Prune(samples[1..], cutoff) else samples
  }

  /** Where the loop stops: the last of the leading samples not after the cutoff. */
  function BaselineIndex(samples: seq<Sample>, cutoff: int): (k: nat)
    ensures samples != [] ==> k < |samples|
  {
    if |samples| > 1 && samples[0].at <= cutoff && samples[1].at <= cutoff
    then 1 + BaselineIndex(samples[1..], cutoff)
    else 0
  }

  function Tokens(runes: int): int {
    if runes < CHARS_PER_TOKEN && runes > 0 then 1 else runes / CHARS_PER_TOKEN
  }

  /** The fallback to the oldest sample when the window is very short. */
  function Baseline(samples: seq<Sample>, now: int): Sample
    requires samples != []
  {
    var baseline := samples[BaselineIndex(samples, now - RATE_WINDOW)];
    if now - baseline.at < MIN_WINDOW then samples[0] else baseline
  }

  function ShortWindow(samples: seq<Sample>, textRunes: nat, now: int): Option<Window> {
    if |samples| < 2 then None
    else
      var baseline := Baseline(samples, now);
      var window, runes := now - baseline.at, textRunes - baseline.textRunes;
      if window <= 0 then None else Some(Window(window, runes, Tokens(runes)))
  }

  /** The rate, a quotient, is positive exactly when the runes are. */
  predicate Reportable(w: Option<Window>) {
    w.Some? && w.value.runes > 0 && w.value.nanoseconds >= MILLISECOND
  }

  predicate DueToEmit(o: Observer, now: int) {
    && o.textRunes / CHARS_PER_TOKEN > o.lastEmittedToks
    && (o.lastEmittedAt.Some? ==> now - o.lastEmittedAt.value >= EMIT_INTERVAL)
  }

  function Record(o: Observer, d: Delta): Observer {
    var first := if o.samples == [] then [Sample(d.now, 0)] else o.samples;
    var total := o.textRunes + d.runes;
    o.(textRunes := total, samples := first + [Sample(d.now, total)])
  }

  function Emit(o: Observer, d: Delta): Observer {
    var w := ShortWindow(o.samples, o.textRunes, d.now);
    if !DueToEmit(o, d.now) || !Reportable(w) || !d.delivered then o
    else
      var total := o.textRunes / CHARS_PER_TOKEN;
      o.(lastEmittedAt := Some(d.now), lastEmittedToks := total, emitted := o.emitted + [Emission(d.now, w.value, total)])
  }

  function PruneSamples(o: Observer, now: int): Observer {
    o.(samples := Prune(o.samples, now - RATE_WINDOW))
  }

  /** With `prunes` as the proxy works, without it as if every sample were kept. */
  function Observe(o: Observer, d: Delta, prunes: bool): Observer {
    if d.runes == 0 then o
    else
      var recorded := Record(o, d);
      Emit(if prunes then PruneSamples(recorded, d.now) else recorded, d)
  }

  function Run(deltas: seq<Delta>, prunes: bool): Observer {
    if deltas == [] then NEW_OBSERVER
    else Observe(Run(deltas[..|deltas| - 1], prunes), deltas[|deltas| - 1], prunes)
  }

  // ----- The baseline -----

  predicate Sorted(samples: seq<Sample>) {
    forall i, j | 0 <= i < j < |samples| :: samples[i].at <= samples[j].at
  }

  /** On samples in the order of time the loop finds the last one not after the
      cutoff, and the oldest when there is none. */
  lemma {:induction false} BaselineIsLastBeforeCutoff(samples: seq<Sample>, cutoff: int)
    requires samples != [] && Sorted(samples)
    ensures var k := BaselineIndex(samples, cutoff);
            && (forall i | k < i < |samples| :: samples[i].at > cutoff)
            && (samples[0].at <= cutoff ==> samples[k].at <= cutoff)
            && (samples[0].at > cutoff ==> k == 0)
  {
    if |samples| > 1 && samples[0].at <= cutoff && samples[1].at <= cutoff {
      BaselineIsLastBeforeCutoff(samples[1..], cutoff);
    }
  }

  /** The fallback for short windows never changes the baseline, whatever the clock does. */
  lemma {:induction false} FallbackChangesNothing(samples: seq<Sample>, now: int)
    requires samples != []
    ensures Baseline(samples, now) == samples[BaselineIndex(samples, now - RATE_WINDOW)]
  {
    BaselineIsOldOrFirst(samples, now - RATE_WINDOW);
  }

  lemma {:induction false} BaselineIsOldOrFirst(samples: seq<Sample>, cutoff: int)
    requires samples != []
    ensures var k := BaselineIndex(samples, cutoff); k == 0 || samples[k].at <= cutoff
  {
    if |samples| > 1 && samples[0].at <= cutoff && samples[1].at <= cutoff {
      BaselineIsOldOrFirst(samples[1..], cutoff);
    }
  }

  // ----- Pruning is invisible -----

  /** The pruned samples are the end of the full ones, and begin before the window
      if anything was dropped. */
  ghost predicate Pruned(full: seq<Sample>, kept: seq<Sample>, cutoff: int) {
    && |kept| <= |full| && kept == full[|full| - |kept|..]
    && (kept == [] ==> full == [])
    && (|kept| < |full| ==> kept[0].at < cutoff)
    && Sorted(full)
  }

  /** At most one sample from before the window is left, to measure it from. */
  lemma {:induction false} PruneLeavesOneOlder(samples: seq<Sample>, cutoff: int)
    ensures var r := Prune(samples, cutoff);
            && (samples != [] ==> r != [])
            && (|r| > 1 ==> r[1].at >= cutoff)
  {
    if |samples| > 1 && samples[1].at < cutoff {
      PruneLeavesOneOlder(samples[1..], cutoff);
    }
  }

  lemma {:induction false} PruneStaysPruned(full: seq<Sample>, kept: seq<Sample>, cutoff: int)
    requires Pruned(full, kept, cutoff)
    ensures Pruned(full, Prune(kept, cutoff), cutoff)
    decreases |kept|
  {
    if |kept| > 1 && kept[1].at < cutoff {
      PruneStaysPruned(full, kept[1..], cutoff);
    }
  }

  lemma {:induction false} BaselineOfSuffix(full: seq<Sample>, kept: seq<Sample>, cutoff: int)
    requires Pruned(full, kept, cutoff) && kept != []
    ensures full[BaselineIndex(full, cutoff)] == kept[BaselineIndex(kept, cutoff)]
    decreases |full| - |kept|
  {
    if |kept| < |full| {
      var n := |full| - |kept|;
      assert full[0].at <= full[n].at && full[1].at <= full[n].at;
      assert full[1..][|full| - 1 - |kept|..] == kept;
      BaselineOfSuffix(full[1..], kept, cutoff);
    } else {
      assert full[0..] == full;
    }
  }

  lemma WindowOfSuffix(full: seq<Sample>, kept: seq<Sample>, textRunes: nat, now: int)
    requires Pruned(full, kept, now - RATE_WINDOW) && full != [] && full[|full| - 1].at == now
    ensures ShortWindow(full, textRunes, now) == ShortWindow(kept, textRunes, now)
  {
    FallbackChangesNothing(full, now);
    FallbackChangesNothing(kept, now);
    BaselineOfSuffix(full, kept, now - RATE_WINDOW);
  }

  predicate Clock(deltas: seq<Delta>) {
    forall i, j | 0 <= i < j < |deltas| :: deltas[i].now <= deltas[j].now
  }

  /** The two observers agree on everything but the samples they keep. */
  ghost predicate Agree(full: Observer, kept: Observer, now: int) {
    && full.(samples := kept.samples) == kept
    && Pruned(full.samples, kept.samples, now - RATE_WINDOW)
    && (forall s <- full.samples :: s.at <= now)
  }

  lemma RecordAgrees(full: Observer, kept: Observer, d: Delta)
    requires Agree(full, kept, d.now)
    ensures Agree(Record(full, d), Record(kept, d), d.now)
  {
    var f, k := Record(full, d), Record(kept, d);
    assert forall s <- f.samples :: s in full.samples || s.at == d.now;
    assert forall i | 0 <= i < |full.samples| :: full.samples[i] in full.samples;
    assert k.samples == f.samples[|f.samples| - |k.samples|..];
  }

  lemma EmitAgrees(full: Observer, kept: Observer, d: Delta)
    requires full.(samples := kept.samples) == kept
    requires ShortWindow(full.samples, full.textRunes, d.now) == ShortWindow(kept.samples, kept.textRunes, d.now)
    ensures var f, k := Emit(full, d), Emit(kept, d);
            && f.(samples := k.samples) == k && f.samples == full.samples && k.samples == kept.samples
            && f.textRunes == full.textRunes
  {
    hide ShortWindow;
  }

  /** After a delta the window is the same from either samples. */
  ghost predicate SameWindow(full: Observer, kept: Observer, now: int) {
    && kept.emitted == full.emitted && kept.textRunes == full.textRunes
    && ShortWindow(kept.samples, kept.textRunes, now) == ShortWindow(full.samples, full.textRunes, now)
    && (|kept.samples| > 1 ==> kept.samples[1].at >= now - RATE_WINDOW)
  }

  lemma EmittedAgree(full: Observer, kept: Observer, d: Delta)
    requires Agree(full, kept, d.now)
    requires ShortWindow(full.samples, full.textRunes, d.now) == ShortWindow(kept.samples, kept.textRunes, d.now)
    requires |kept.samples| > 1 ==> kept.samples[1].at >= d.now - RATE_WINDOW
    ensures Agree(Emit(full, d), Emit(kept, d), d.now) && SameWindow(Emit(full, d), Emit(kept, d), d.now)
  {
    EmitAgrees(full, kept, d);
    hide Emit, ShortWindow, Pruned;
  }

  lemma ObserveAgrees(full: Observer, kept: Observer, d: Delta)
    requires Agree(full, kept, d.now)
    ensures Agree(Observe(full, d, false), Observe(kept, d, true), d.now)
    ensures d.runes > 0 ==> SameWindow(Observe(full, d, false), Observe(kept, d, true), d.now)
  {
    if d.runes > 0 {
      var f, k := Record(full, d), PruneSamples(Record(kept, d), d.now);
      RecordAgrees(full, kept, d);
      PruneAgrees(f, Record(kept, d), d.now);
      assert f.samples != [] && f.samples[|f.samples| - 1].at == d.now;
      assert Observe(full, d, false) == Emit(f, d) && Observe(kept, d, true) == Emit(k, d);
      hide Observe, Record, PruneSamples, Emit, ShortWindow, SameWindow, Pruned;
      WindowOfSuffix(f.samples, k.samples, f.textRunes, d.now);
      EmittedAgree(f, k, d);
    }
  }

  lemma PruneAgrees(full: Observer, kept: Observer, now: int)
    requires Agree(full, kept, now)
    ensures var k := PruneSamples(kept, now);
            && Agree(full, k, now) && k.textRunes == full.textRunes
            && (|k.samples| > 1 ==> k.samples[1].at >= now - RATE_WINDOW)
  {
    PruneStaysPruned(full.samples, kept.samples, now - RATE_WINDOW);
    PruneLeavesOneOlder(kept.samples, now - RATE_WINDOW);
    hide Prune, Pruned;
  }

  lemma {:induction false} RunsAgree(deltas: seq<Delta>, now: int)
    requires Clock(deltas) && (deltas != [] ==> deltas[|deltas| - 1].now <= now)
    ensures Agree(Run(deltas, false), Run(deltas, true), now)
  {
    if deltas != [] {
      var last := deltas[|deltas| - 1];
      RunsAgree(deltas[..|deltas| - 1], last.now);
      ObserveAgrees(Run(deltas[..|deltas| - 1], false), Run(deltas[..|deltas| - 1], true), last);
      hide Observe;
    }
  }

  /** On a clock that does not run backwards, after every delta the pruned samples
      give the same window, runes and tokens as all samples ever taken, and the
      same notifications have been sent. */
  lemma {:induction false} PruningIsInvisible(deltas: seq<Delta>)
    requires Clock(deltas) && deltas != [] && deltas[|deltas| - 1].runes > 0
    ensures SameWindow(Run(deltas, false), Run(deltas, true), deltas[|deltas| - 1].now)
  {
    var before, last := deltas[..|deltas| - 1], deltas[|deltas| - 1];
    RunsAgree(before, last.now);
    ObserveAgrees(Run(before, false), Run(before, true), last);
    hide SameWindow, Agree, Observe;
  }

  // ----- What is notified -----

  ghost predicate Spaced(o: Observer) {
    && (forall i, j | 0 <= i < j < |o.emitted| ::
          o.emitted[i].totalTokens < o.emitted[j].totalTokens && o.emitted[j].at - o.emitted[i].at >= EMIT_INTERVAL)
    && (if o.emitted == [] then o.lastEmittedAt == None && o.lastEmittedToks == 0
        else var last := o.emitted[|o.emitted| - 1];
             o.lastEmittedAt == Some(last.at) && o.lastEmittedToks == last.totalTokens)
    && (forall e <- o.emitted :: e.window.tokens >= 1 && e.window.nanoseconds >= MILLISECOND && e.totalTokens >= 1)
  }

  /** Notifications come at least 900 milliseconds apart, each with more tokens in
      all than the one before, and each for at least one token in a real window. */
  lemma {:induction false} NotificationsAreSpaced(deltas: seq<Delta>, prunes: bool)
    ensures Spaced(Run(deltas, prunes))
  {
    if deltas != [] {
      var before, last := Run(deltas[..|deltas| - 1], prunes), deltas[|deltas| - 1];
      NotificationsAreSpaced(deltas[..|deltas| - 1], prunes);
      if last.runes > 0 {
        var recorded := Record(before, last);
        var pruned := if prunes then PruneSamples(recorded, last.now) else recorded;
        assert Run(deltas, prunes) == Emit(pruned, last);
        SpacedIgnoresSamples(before, pruned);
        hide *;
        EmitIsSpaced(pruned, last);
      }
    }
  }

  lemma SpacedIgnoresSamples(a: Observer, b: Observer)
    requires Spaced(a)
    requires b.emitted == a.emitted && b.lastEmittedAt == a.lastEmittedAt && b.lastEmittedToks == a.lastEmittedToks
    ensures Spaced(b)
  {
  }

  lemma EmitIsSpaced(o: Observer, d: Delta)
    requires Spaced(o)
    ensures Spaced(Emit(o, d))
  {
    var r := Emit(o, d);
    if r != o {
      var e := r.emitted[|r.emitted| - 1];
      assert r.emitted == o.emitted + [e];
      forall i | 0 <= i < |o.emitted|
        ensures o.emitted[i].totalTokens < e.totalTokens && e.at - o.emitted[i].at >= EMIT_INTERVAL
      {
        assert i == |o.emitted| - 1 || o.emitted[i].totalTokens < o.emitted[|o.emitted| - 1].totalTokens;
      }
      assert e.window.tokens >= 1;
    }
    hide Emit;
  }

  // ----- As the proxy keeps it -----

  class StreamingRateObserver {
    var textRunes: nat
    var samples: seq<Sample>
    var lastEmittedAt: Option<int>
    var lastEmittedToks: nat
    ghost var emitted: seq<Emission>

    ghost function State(): Observer
      reads this
    {
      Observer(samples, textRunes, lastEmittedAt, lastEmittedToks, emitted)
    }

    constructor ()
      ensures State() == NEW_OBSERVER
    {
      textRunes, samples, lastEmittedAt, lastEmittedToks, emitted := 0, [], None, 0, [];
    }

    method DropOldSamples(now: int)
      modifies this`samples
      ensures samples == Prune(old(samples), now - RATE_WINDOW)
    {
      var cutoff := now - RATE_WINDOW;
      var removeCount := 0;
      assert samples[0..] == samples;
      while removeCount + 1 < |samples| && samples[removeCount + 1].at < cutoff
        invariant 0 <= removeCount <= |samples|
        invariant Prune(samples[removeCount..], cutoff) == Prune(samples, cutoff)
      {
        assert samples[removeCount..][1..] == samples[removeCount + 1..];
        removeCount := removeCount + 1;
      }
      samples := samples[removeCount..];
    }

    method ShortWindowRate(now: int) returns (window: Option<Window>)
      ensures window == ShortWindow(samples, textRunes, now)
    {
      if |samples| < 2 {
        return None;
      }
      var cutoff := now - RATE_WINDOW;
      var baseline := samples[0];
      var i := 0;
      assert samples[0..] == samples;
      while i < |samples| && samples[i].at <= cutoff
        invariant 0 <= i <= |samples|
        invariant i > 0 ==> baseline == samples[i - 1] && baseline.at <= cutoff
        invariant i == 0 ==> baseline == samples[0]
        invariant samples[BaselineIndex(samples, cutoff)]
               == if i == 0 then samples[BaselineIndex(samples, cutoff)]
                  else samples[i - 1..][BaselineIndex(samples[i - 1..], cutoff)]
      {
        if i > 0 {
          assert samples[i - 1..][1..] == samples[i..];
        }
        baseline := samples[i];
        i := i + 1;
      }
      var nanoseconds := now - baseline.at;
      if nanoseconds < MIN_WINDOW {
        baseline := samples[0];
        nanoseconds := now - baseline.at;
      }
      if nanoseconds <= 0 {
        return None;
      }
      var newRunes := textRunes - baseline.textRunes;
      return Some(Window(nanoseconds, newRunes, Tokens(newRunes)));
    }

    method ConsumeDelta(d: Delta)
      modifies this
      ensures State() == Observe(old(State()), d, true)
    {
      if d.runes == 0 {
        return;
      }
      hide Prune, ShortWindow;
      if samples == [] {
        samples := [Sample(d.now, 0)];
      }
      textRunes := textRunes + d.runes;
      samples := samples + [Sample(d.now, textRunes)];
      DropOldSamples(d.now);
      var totalOutputTokens := textRunes / CHARS_PER_TOKEN;
      if totalOutputTokens <= lastEmittedToks
         || (lastEmittedAt.Some? && d.now - lastEmittedAt.value < EMIT_INTERVAL) {
        return;
      }
      var window := ShortWindowRate(d.now);
      if window.None? || window.value.runes <= 0 || window.value.nanoseconds < MILLISECOND || !d.delivered {
        return;
      }
      lastEmittedAt := Some(d.now);
      lastEmittedToks := totalOutputTokens;
      emitted := emitted + [Emission(d.now, window.value, totalOutputTokens)];
    }
  }
}
