/** A score event by event: what it is before any event, what one more event and a stretch of time do to it. Together
    these give every score of packages/presidium/src/presidium/scoring/functions.py. */
module ScoreSteps {
  import opened Common
  import opened Scoring
  import opened ScoringOrder
  import opened CheckpointedReplay

  lemma SomeMember(s: seq<Event>)
    ensures s == [] || exists e :: e in s
  {
    if s != [] {
      assert s[0] in s;
    }
  }

  /** Without a counted event the score is the initial value within [0, 1], at every instant. */
  lemma NothingCounted(events: seq<Event>, config: ScoringConfig, now: real, filter: bool)
    requires forall e :: e in events ==> filter && e.context.Some? && !e.context.value.controllable
    ensures Score(events, config, now, filter)
         == if config.initialValue < 0.0 then 0.0 else if config.initialValue > 1.0 then 1.0 else config.initialValue
  {
    CountedMembers(events, filter);
    assert forall e :: e !in FilterControllable(events, filter) by {
      KeepMembers(Controllable, events);
    }
    SomeMember(Counted(events, filter));
    ScoreOfNone(config, now);
    hide ScoreSorted, SortByTime, FilterControllable;
  }

  lemma CountedSnoc(events: seq<Event>, e: Event, filter: bool)
    requires forall f :: f in events ==> f.timestamp <= e.timestamp
    ensures Counted(events + [e], filter)
         == Counted(events, filter) + (if filter && !Controllable(e) then [] else [e])
  {
    SortSnoc(events, e);
    KeepOfConcat(Controllable, SortByTime(events), [e]);
    KeepCons(Controllable, e, []);
    assert [e] + [] == [e];
    assert SortByTime(events) + [] == SortByTime(events);
    hide SortByTime, Keep, Controllable;
  }

  /** An uncontrollable event that is not counted changes no score, wherever it is listed. */
  lemma UncountedEvent(xs: seq<Event>, e: Event, ys: seq<Event>, config: ScoringConfig, now: real)
    requires e.context.Some? && !e.context.value.controllable
    ensures Score(xs + [e] + ys, config, now, true) == Score(xs + ys, config, now, true)
  {
    SortKeep(Controllable, xs + [e] + ys);
    SortKeep(Controllable, xs + ys);
    KeepOfConcat(Controllable, xs + [e], ys);
    KeepOfConcat(Controllable, xs, [e]);
    KeepOfConcat(Controllable, xs, ys);
    KeepCons(Controllable, e, []);
    assert [e] + [] == [e];
    assert Keep(Controllable, xs) + [] == Keep(Controllable, xs);
    hide SortByTime, Keep, Controllable, ScoreSorted;
  }

  lemma FoldSnoc(p: Progress, s: seq<Event>, e: Event, config: ScoringConfig)
    ensures Fold(p, s + [e], config) == Advance(Fold(p, s, config), e, config)
  {
    FoldSplit(p, s, [e], config);
    var q := Fold(p, s, config);
    assert [e][1..] == [];
    assert Fold(q, [e], config) == Fold(Advance(q, e, config), [], config);
    hide Advance;
  }

  lemma SortedOneMore(s: seq<Event>, e: Event, config: ScoringConfig)
    requires LawfulDecay(config.decay) && 0.0 <= config.initialValue <= 1.0
    ensures ScoreSorted(s + [e], config, e.timestamp)
         == Clamp(ScoreSorted(s, config, e.timestamp) + EffectiveDelta(e, config))
  {
    hide Decay, EffectiveDelta, Fold, LawfulDecay, Clamp;
    var start := Start(s, config, e.timestamp);
    assert Start(s + [e], config, e.timestamp) == start;
    FoldSnoc(start, s, e, config);
    if s == [] {
      FoldNothing(start, config);
    } else {
      FoldEnd(start, s, config);
    }
    StepAtInstant(Fold(start, s, config), e, config);
  }

  lemma FoldNothing(p: Progress, config: ScoringConfig)
    ensures Fold(p, [], config) == p
  {
  }

  /** At the event's own instant, the value after it is the value just before it and the delta, clamped once. */
  lemma StepAtInstant(p: Progress, e: Event, config: ScoringConfig)
    requires LawfulDecay(config.decay) && 0.0 <= p.value <= 1.0
    ensures var q := Advance(p, e, config);
            Clamp(Decay(q.value, e.timestamp - q.at, config.decay))
            == Clamp(Clamp(Decay(p.value, e.timestamp - p.at, config.decay)) + EffectiveDelta(e, config))
  {
    hide Decay, EffectiveDelta, LawfulDecay;
    DecayShrinks(config.decay, p.value, e.timestamp - p.at);
    NoDecay(Advance(p, e, config).value, 0.0, config.decay);
  }

  /** A counted event adds its delta to the score of its instant, within [0, 1]: its explicit delta when it has one,
      else the weight of its kind, else nothing. */
  lemma OneMore(events: seq<Event>, e: Event, config: ScoringConfig, filter: bool)
    requires LawfulDecay(config.decay) && 0.0 <= config.initialValue <= 1.0
    requires forall f :: f in events ==> f.timestamp <= e.timestamp
    requires filter ==> e.context.None? || e.context.value.controllable
    ensures var delta := match e.delta
                         case Some(d) => d
                         case None => if e.kind in config.weights then config.weights[e.kind] else 0.0;
            var sum := Score(events, config, e.timestamp, filter) + delta;
            Score(events + [e], config, e.timestamp, filter)
            == if sum < 0.0 then 0.0 else if sum > 1.0 then 1.0 else sum
  {
    CountedSnoc(events, e, filter);
    SortedOneMore(Counted(events, filter), e, config);
    hide ScoreSorted, SortByTime, FilterControllable, LawfulDecay;
  }

  /** A progress within [0, 1] read at t1 and decayed until t2 is the progress read at t2. */
  lemma ProgressWaits(p: Progress, d: DecayConfig, t1: real, t2: real)
    requires LawfulDecay(d) && 0.0 <= p.value <= 1.0 && p.at <= t1 <= t2
    ensures Clamp(Decay(p.value, t2 - p.at, d)) == Decay(Clamp(Decay(p.value, t1 - p.at, d)), t2 - t1, d)
  {
    hide Decay, LawfulDecay;
    DecaySemigroup(d, p.value, t1 - p.at, t2 - t1);
    DecayShrinks(d, p.value, t1 - p.at);
    DecayShrinks(d, p.value, t2 - p.at);
    assert (t1 - p.at) + (t2 - t1) == t2 - p.at;
  }

  lemma SortedWaiting(s: seq<Event>, config: ScoringConfig, t1: real, t2: real)
    requires LawfulDecay(config.decay) && t1 <= t2 && s != [] && s[|s| - 1].timestamp <= t1
    ensures ScoreSorted(s, config, t2) == Decay(ScoreSorted(s, config, t1), t2 - t1, config.decay)
  {
    hide Decay, Fold, LawfulDecay, Clamp;
    FoldEnd(Start(s, config, t1), s, config);
    ProgressWaits(Fold(Start(s, config, t1), s, config), config.decay, t1, t2);
  }

  /** After the last event the score only decays, once some event has counted. */
  lemma Waiting(events: seq<Event>, config: ScoringConfig, t1: real, t2: real, filter: bool)
    requires LawfulDecay(config.decay) && t1 <= t2
    requires forall e :: e in events ==> e.timestamp <= t1
    requires exists e :: e in events && (filter ==> e.context.None? || e.context.value.controllable)
    ensures Score(events, config, t2, filter) == Decay(Score(events, config, t1, filter), t2 - t1, config.decay)
  {
    var s := Counted(events, filter);
    CountedMembers(events, filter);
    KeepMembers(Controllable, events);
    assert s != [] && s[|s| - 1] in s;
    ScoreIsCounted(events, config, t1, filter);
    ScoreIsCounted(events, config, t2, filter);
    SortedWaiting(s, config, t1, t2);
    hide *;
  }

  /** Linear decay takes its rate away every hour until nothing is left, exponential decay half of the value every
      half-life, which is 72 hours when none is configured; no decay runs backwards. */
  lemma DecayIs(value: real, hours: real, d: DecayConfig)
    ensures hours <= 0.0 ==> Decay(value, hours, d) == value
    ensures hours > 0.0 && d.function_.Linear? ==>
              Decay(value, hours, d) == if value - d.rate * hours > 0.0 then value - d.rate * hours else 0.0
    ensures (d.function_.Exponential? && d.function_.halfPow(1.0) == 0.5
             && hours == if d.rate > 0.0 then d.rate else 72.0) ==>
              Decay(value, hours, d) == value / 2.0
  {
    if d.function_.Exponential? && hours == HalfLife(d) {
      Itself(hours);
    }
  }

  lemma Itself(x: real)
    requires x > 0.0 || x < 0.0
    ensures x / x == 1.0
  {
  }
}
