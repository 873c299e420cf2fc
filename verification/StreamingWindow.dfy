/** What the short window measures, in terms of the text deltas alone: the runes of the
    last three seconds, over the time since the delta before them. */
module StreamingWindow {
  import opened StreamingRate
  import opened Wrappers

  function TotalRunes(deltas: seq<Delta>): nat {
    if deltas == [] then 0 else TotalRunes(deltas[..|deltas| - 1]) + deltas[|deltas| - 1].runes
  }

  /** The runes of the deltas that came after the cutoff. */
  function RunesAfter(deltas: seq<Delta>, cutoff: int): nat {
    if deltas == [] then 0
    else RunesAfter(deltas[..|deltas| - 1], cutoff) + (if deltas[|deltas| - 1].now > cutoff then deltas[|deltas| - 1].runes else 0)
  }

  predicate Speaks(deltas: seq<Delta>, t: int) {
    exists d <- deltas :: d.runes > 0 && d.now == t
  }

  /** The last delta with text not after the cutoff, or the first with text at all. */
  ghost predicate StartsAt(deltas: seq<Delta>, cutoff: int, t: int) {
    && Speaks(deltas, t)
    && (t <= cutoff ==> forall u :: Speaks(deltas, u) && u <= cutoff ==> u <= t)
    && (t > cutoff ==> forall u :: Speaks(deltas, u) ==> t <= u)
  }

  lemma ClockBefore(deltas: seq<Delta>)
    requires Clock(deltas) && deltas != []
    ensures Clock(deltas[..|deltas| - 1]) && forall d <- deltas :: d.now <= deltas[|deltas| - 1].now
  {
  }

  lemma SpeaksThen(deltas: seq<Delta>, t: int)
    requires deltas != []
    ensures var before, last := deltas[..|deltas| - 1], deltas[|deltas| - 1];
            Speaks(deltas, t) <==> Speaks(before, t) || (last.runes > 0 && last.now == t)
  {
    var before, last := deltas[..|deltas| - 1], deltas[|deltas| - 1];
    assert forall d :: d in deltas <==> d in before || d == last;
  }

  /** All samples: where the text began, and how much there was after each delta. */
  ghost predicate SampledBy(samples: seq<Sample>, deltas: seq<Delta>) {
    && (samples == [] <==> TotalRunes(deltas) == 0)
    && (samples != [] ==> |samples| >= 2 && samples[|samples| - 1].textRunes == TotalRunes(deltas))
    && (forall i | 0 <= i < |samples| :: Speaks(deltas, samples[i].at))
  }

  lemma {:induction false} NothingAfter(deltas: seq<Delta>, cutoff: int)
    requires forall d <- deltas :: d.now <= cutoff
    ensures RunesAfter(deltas, cutoff) == 0
  {
    if deltas != [] {
      assert deltas[|deltas| - 1] in deltas;
      NothingAfter(deltas[..|deltas| - 1], cutoff);
    }
  }

  lemma EmitKeepsSamples(o: Observer, d: Delta)
    ensures Emit(o, d).samples == o.samples && Emit(o, d).textRunes == o.textRunes
  {
    hide ShortWindow;
  }

  lemma {:induction false} KeptAll(deltas: seq<Delta>)
    requires deltas != []
    ensures var o, r, last := Run(deltas[..|deltas| - 1], false), Run(deltas, false), deltas[|deltas| - 1];
            && r.textRunes == o.textRunes + last.runes
            && r.samples == if last.runes == 0 then o.samples
                            else (if o.samples == [] then [Sample(last.now, 0)] else o.samples)
                                 + [Sample(last.now, o.textRunes + last.runes)]
  {
    hide ShortWindow, Prune, DueToEmit, Reportable;
    var o, d := Run(deltas[..|deltas| - 1], false), deltas[|deltas| - 1];
    assert Run(deltas, false) == Observe(o, d, false);
    hide Run;
    EmitKeepsSamples(Record(o, d), d);
    hide Emit;
  }

  lemma {:induction false} RunesAreCounted(deltas: seq<Delta>, prunes: bool)
    ensures Run(deltas, prunes).textRunes == TotalRunes(deltas)
  {
    if deltas != [] {
      RunesAreCounted(deltas[..|deltas| - 1], prunes);
      hide ShortWindow, Prune;
    }
  }

  lemma {:induction false} SamplesOfRun(deltas: seq<Delta>)
    requires Clock(deltas)
    ensures SampledBy(Run(deltas, false).samples, deltas)
  {
    if deltas != [] {
      var before, last := deltas[..|deltas| - 1], deltas[|deltas| - 1];
      ClockBefore(deltas);
      SamplesOfRun(before);
      KeptAll(deltas);
      RunesAreCounted(before, false);
      var samples := Run(deltas, false).samples;
      hide Run, Clock, Speaks;
      forall i | 0 <= i < |samples|
        ensures Speaks(deltas, samples[i].at)
      {
        SpeaksThen(deltas, samples[i].at);
      }
    }
  }

  /** The position the loop stops at. */
  predicate Stops(samples: seq<Sample>, cutoff: int, k: nat) {
    && k < |samples| && (forall i | k < i < |samples| :: samples[i].at > cutoff)
    && (k > 0 ==> samples[k].at <= cutoff) && (samples[0].at <= cutoff ==> samples[k].at <= cutoff)
  }

  lemma StopsBefore(samples: seq<Sample>, cutoff: int, k: nat)
    requires Stops(samples, cutoff, k) && |samples| >= 2 && samples[|samples| - 1].at > cutoff
    ensures k < |samples| - 1 && Stops(samples[..|samples| - 1], cutoff, k)
  {
  }

  /** There the runes not counted yet are those after the cutoff, and the time is the
      start of the window. */
  lemma {:induction false} BaselineMeasures(deltas: seq<Delta>, cutoff: int, k: nat)
    requires Clock(deltas) && Stops(Run(deltas, false).samples, cutoff, k)
    ensures var s := Run(deltas, false).samples[k];
            TotalRunes(deltas) - s.textRunes == RunesAfter(deltas, cutoff) && StartsAt(deltas, cutoff, s.at)
  {
    SamplesOfRun(deltas);
    var samples := Run(deltas, false).samples;
    if deltas != [] {
      var before, last := deltas[..|deltas| - 1], deltas[|deltas| - 1];
      ClockBefore(deltas);
      KeptAll(deltas);
      RunesAreCounted(before, false);
      SamplesOfRun(before);
      forall t
        ensures Speaks(deltas, t) <==> Speaks(before, t) || (last.runes > 0 && last.now == t)
        ensures Speaks(deltas, t) ==> t <= last.now
      {
        SpeaksThen(deltas, t);
      }
      var earlier := Run(before, false).samples;
      hide Run, Clock;
      if last.runes == 0 {
        BaselineMeasures(before, cutoff, k);
        hide Speaks;
      } else if last.now <= cutoff {
        NothingAfter(deltas, cutoff);
        hide Speaks;
        assert k == |samples| - 1;
      } else {
        StopsBefore(samples, cutoff, k);
        hide Speaks;
        if earlier == [] {
          FirstText(before, cutoff);
        } else {
          assert samples[..|samples| - 1] == earlier;
          BaselineMeasures(before, cutoff, k);
        }
      }
    }
  }

  lemma {:induction false} FirstText(deltas: seq<Delta>, cutoff: int)
    requires TotalRunes(deltas) == 0
    ensures RunesAfter(deltas, cutoff) == 0 && forall t :: !Speaks(deltas, t)
  {
    if deltas != [] {
      FirstText(deltas[..|deltas| - 1], cutoff);
      forall t
        ensures !Speaks(deltas, t)
      {
        SpeaksThen(deltas, t);
      }
    }
  }

  /** The window a notification would report, from the deltas alone: none at the very
      first text, and otherwise all runes of the last three seconds over the time since
      the window's start. */
  ghost predicate Measures(w: Option<Window>, deltas: seq<Delta>, now: int, start: int) {
    if start == now then w == None
    else
      && w.Some? && w.value.nanoseconds == now - start && w.value.runes == RunesAfter(deltas, now - RATE_WINDOW)
      && (if w.value.runes == 0 then w.value.tokens == 0
          else w.value.tokens >= 1 && (w.value.runes < CHARS_PER_TOKEN ==> w.value.tokens == 1)
               && (w.value.runes >= CHARS_PER_TOKEN ==>
                     CHARS_PER_TOKEN * w.value.tokens <= w.value.runes < CHARS_PER_TOKEN * (w.value.tokens + 1)))
  }

  lemma {:induction false} SamplesAreSorted(deltas: seq<Delta>)
    requires Clock(deltas)
    ensures Sorted(Run(deltas, false).samples)
  {
    var now := if deltas == [] then 0 else deltas[|deltas| - 1].now;
    RunsAgree(deltas, now);
  }

  lemma {:induction false} FullWindow(deltas: seq<Delta>, start: int)
    requires Clock(deltas) && deltas != [] && deltas[|deltas| - 1].runes > 0
    requires StartsAt(deltas, deltas[|deltas| - 1].now - RATE_WINDOW, start)
    ensures var o, now := Run(deltas, false), deltas[|deltas| - 1].now;
            Measures(ShortWindow(o.samples, o.textRunes, now), deltas, now, start)
  {
    var o, now := Run(deltas, false), deltas[|deltas| - 1].now;
    var cutoff := now - RATE_WINDOW;
    SamplesOfRun(deltas);
    RunesAreCounted(deltas, false);
    SamplesAreSorted(deltas);
    BaselineIsLastBeforeCutoff(o.samples, cutoff);
    BaselineIsOldOrFirst(o.samples, cutoff);
    FallbackChangesNothing(o.samples, now);
    var k := BaselineIndex(o.samples, cutoff);
    assert Stops(o.samples, cutoff, k);
    BaselineMeasures(deltas, cutoff, k);
    ClockBefore(deltas);
    hide Run, Clock, BaselineIndex;
    assert o.samples[k].at == start by {
      OneStart(deltas, cutoff, o.samples[k].at, start);
    }
    assert start <= now by {
      assert Speaks(deltas, start);
    }
    hide StartsAt, Speaks, Stops, Sorted;
  }

  lemma OneStart(deltas: seq<Delta>, cutoff: int, t: int, u: int)
    requires StartsAt(deltas, cutoff, t) && StartsAt(deltas, cutoff, u)
    ensures t == u
  {
    hide Speaks;
  }

  /** On a clock that does not run backwards, after every delta with text: whatever has
      been pruned, the window is that of the deltas. */
  lemma {:induction false} WindowIsLastThreeSeconds(deltas: seq<Delta>, start: int)
    requires Clock(deltas) && deltas != [] && deltas[|deltas| - 1].runes > 0
    requires StartsAt(deltas, deltas[|deltas| - 1].now - RATE_WINDOW, start)
    ensures var o, now := Run(deltas, true), deltas[|deltas| - 1].now;
            Measures(ShortWindow(o.samples, o.textRunes, now), deltas, now, start)
  {
    FullWindow(deltas, start);
    PruningIsInvisible(deltas);
    hide Run, ShortWindow, Clock, StartsAt, Measures;
  }

  /** The tokens of the last notification, and when it was sent. */
  function LastTotal(emitted: seq<Emission>): nat {
    if emitted == [] then 0 else emitted[|emitted| - 1].totalTokens
  }

  lemma WindowBeforeSending(deltas: seq<Delta>)
    requires deltas != [] && deltas[|deltas| - 1].runes > 0
    ensures var before, last := Run(deltas[..|deltas| - 1], true), deltas[|deltas| - 1];
            var o := PruneSamples(Record(before, last), last.now);
            && Run(deltas, true) == Emit(o, last) && o.emitted == before.emitted
            && o.lastEmittedAt == before.lastEmittedAt && o.lastEmittedToks == before.lastEmittedToks
            && Run(deltas, true).samples == o.samples && Run(deltas, true).textRunes == o.textRunes
  {
    var before, last := Run(deltas[..|deltas| - 1], true), deltas[|deltas| - 1];
    EmitKeepsSamples(PruneSamples(Record(before, last), last.now), last);
    hide Prune, Emit;
  }

  /** A notification is sent exactly when the text has grown by a token since the last
      one, 900 milliseconds have passed, the window is a millisecond or more, and the
      notifier takes it; and it carries that window and the tokens of all text so far. */
  lemma {:induction false} NotificationIsSentExactlyWhen(deltas: seq<Delta>, start: int)
    requires Clock(deltas) && deltas != [] && deltas[|deltas| - 1].runes > 0
    requires StartsAt(deltas, deltas[|deltas| - 1].now - RATE_WINDOW, start)
    ensures var before, r, last := Run(deltas[..|deltas| - 1], true), Run(deltas, true), deltas[|deltas| - 1];
            var sent := before.emitted;
            if && last.delivered && TotalRunes(deltas) / CHARS_PER_TOKEN > LastTotal(sent)
               && (sent != [] ==> last.now - sent[|sent| - 1].at >= EMIT_INTERVAL) && last.now - start >= MILLISECOND
            then && |r.emitted| == |sent| + 1 && r.emitted[..|sent|] == sent
                 && r.emitted[|sent|].at == last.now && r.emitted[|sent|].totalTokens == TotalRunes(deltas) / CHARS_PER_TOKEN
                 && Measures(Some(r.emitted[|sent|].window), deltas, last.now, start)
            else r.emitted == sent
  {
    var before, last := Run(deltas[..|deltas| - 1], true), deltas[|deltas| - 1];
    var o := PruneSamples(Record(before, last), last.now);
    WindowIsLastThreeSeconds(deltas, start);
    WindowBeforeSending(deltas);
    NotificationsAreSpaced(deltas[..|deltas| - 1], true);
    RunesAreCounted(deltas, true);
    LastDeltaIsInWindow(deltas);
    var w := ShortWindow(o.samples, o.textRunes, last.now);
    hide Run, Record, PruneSamples, ShortWindow, Clock, StartsAt, TotalRunes, RunesAfter;
    assert Reportable(w) <==> last.now - start >= MILLISECOND;
    assert DueToEmit(o, last.now) <==>
             && TotalRunes(deltas) / CHARS_PER_TOKEN > LastTotal(before.emitted)
             && (before.emitted != [] ==> last.now - before.emitted[|before.emitted| - 1].at >= EMIT_INTERVAL);
    hide Spaced, Reportable, DueToEmit, Measures;
  }

  lemma LastDeltaIsInWindow(deltas: seq<Delta>)
    requires deltas != [] && deltas[|deltas| - 1].runes > 0
    ensures RunesAfter(deltas, deltas[|deltas| - 1].now - RATE_WINDOW) > 0
  {
  }
}
