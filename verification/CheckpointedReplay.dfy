/** Replay can be resumed from a checkpoint: the score at t1 is all that the events up to t1 contribute to the
    score at t2. */
module CheckpointedReplay {
  import opened Common
  import opened Scoring
  import opened ScoringOrder

  /** What 0.5 to the power x satisfies on the non-negative reals. */
  ghost predicate HalvingLaw(halfPow: real -> real) {
    && halfPow(0.0) == 1.0
    && (forall x, y :: 0.0 <= x && 0.0 <= y ==> halfPow(x + y) == halfPow(x) * halfPow(y))
    && (forall x :: 0.0 <= x ==> 0.0 < halfPow(x) <= 1.0)
  }

  ghost predicate LawfulDecay(d: DecayConfig) {
    match d.function_
    case Linear => d.rate >= 0.0
    case Exponential(halfPow) => HalvingLaw(halfPow)
  }

  lemma ProductBounds(v: real, x: real)
    requires 0.0 <= v && 0.0 < x <= 1.0
    ensures 0.0 <= v * x <= v
  {
  }

  lemma DecayShrinks(d: DecayConfig, v: real, a: real)
    requires LawfulDecay(d) && 0.0 <= v
    ensures 0.0 <= Decay(v, a, d) <= v
  {
    if a > 0.0 {
      match d.function_
      case Linear => RateTimesHours(d.rate, a);
      case Exponential(halfPow) =>
        QuotientNonNegative(a, HalfLife(d));
        ProductBounds(v, halfPow(a / HalfLife(d)));
    }
  }

  lemma RateTimesHours(rate: real, hours: real)
    requires 0.0 <= rate && 0.0 <= hours
    ensures 0.0 <= rate * hours
  {
  }

  lemma QuotientNonNegative(a: real, b: real)
    requires 0.0 <= a && 0.0 < b
    ensures 0.0 <= a / b
  {
  }

  lemma QuotientSum(a: real, b: real, h: real)
    requires h > 0.0
    ensures (a + b) / h == a / h + b / h
  {
  }

  /** Decaying for a and then for b is decaying for a + b. */
  lemma DecaySemigroup(d: DecayConfig, v: real, a: real, b: real)
    requires LawfulDecay(d) && 0.0 <= v && 0.0 <= a && 0.0 <= b
    ensures Decay(Decay(v, a, d), b, d) == Decay(v, a + b, d)
  {
    hide Decay, HalvingLaw, HalfLife;
    if a == 0.0 {
      NoDecay(v, a, d);
    } else if b == 0.0 {
      NoDecay(Decay(v, a, d), b, d);
      assert a + b == a;
    } else if d.function_.Linear? {
      LinearSemigroup(d.rate, v, a, b);
      LinearDecay(d, v, a);
      LinearDecay(d, Decay(v, a, d), b);
      LinearDecay(d, v, a + b);
    } else {
      HalfLifePositive(d);
      ExponentialSemigroup(d.function_.halfPow, HalfLife(d), v, a, b);
      ExponentialDecay(d, v, a);
      ExponentialDecay(d, Decay(v, a, d), b);
      ExponentialDecay(d, v, a + b);
    }
  }

  lemma HalfLifePositive(d: DecayConfig)
    ensures HalfLife(d) > 0.0
  {
  }

  lemma LinearDecay(d: DecayConfig, v: real, a: real)
    requires d.function_.Linear? && a > 0.0
    ensures Decay(v, a, d) == Max(0.0, v - d.rate * a)
  {
  }

  lemma ExponentialDecay(d: DecayConfig, v: real, a: real)
    requires d.function_.Exponential? && a > 0.0
    ensures Decay(v, a, d) == v * d.function_.halfPow(a / HalfLife(d))
  {
  }

  lemma LinearSemigroup(rate: real, v: real, a: real, b: real)
    requires 0.0 <= rate && 0.0 <= a && 0.0 <= b
    ensures Max(0.0, Max(0.0, v - rate * a) - rate * b) == Max(0.0, v - rate * (a + b))
  {
    RateTimesHours(rate, b);
    assert rate * (a + b) == rate * a + rate * b;
  }

  lemma HalvingSum(halfPow: real -> real, h: real, a: real, b: real)
    requires HalvingLaw(halfPow) && h > 0.0 && 0.0 <= a && 0.0 <= b
    ensures halfPow((a + b) / h) == halfPow(a / h) * halfPow(b / h)
  {
    hide HalvingLaw;
    QuotientSum(a, b, h);
    QuotientNonNegative(a, h);
    QuotientNonNegative(b, h);
    HalvingAt(halfPow, a / h, b / h);
  }

  lemma HalvingAt(halfPow: real -> real, x: real, y: real)
    requires HalvingLaw(halfPow) && 0.0 <= x && 0.0 <= y
    ensures halfPow(x + y) == halfPow(x) * halfPow(y)
  {
  }

  lemma ExponentialSemigroup(halfPow: real -> real, h: real, v: real, a: real, b: real)
    requires HalvingLaw(halfPow) && h > 0.0 && 0.0 <= a && 0.0 <= b
    ensures v * halfPow(a / h) * halfPow(b / h) == v * halfPow((a + b) / h)
  {
    hide HalvingLaw;
    HalvingSum(halfPow, h, a, b);
    Reassociate(v, halfPow(a / h), halfPow(b / h));
  }

  lemma Reassociate(v: real, x: real, y: real)
    ensures v * x * y == v * (x * y)
  {
  }

  lemma {:induction false} FoldSplit(p: Progress, a: seq<Event>, b: seq<Event>, config: ScoringConfig)
    ensures Fold(p, a + b, config) == Fold(Fold(p, a, config), b, config)
    decreases |a|
  {
    hide Advance;
    if a == [] {
      assert a + b == b;
    } else {
      assert (a + b)[1..] == a[1..] + b;
      FoldSplit(Advance(p, a[0], config), a[1..], b, config);
    }
  }

  lemma {:induction false} FoldIgnoresInitial(p: Progress, s: seq<Event>, config: ScoringConfig, v: real)
    ensures Fold(p, s, config.(initialValue := v)) == Fold(p, s, config)
    decreases |s|
  {
    if s != [] {
      assert Advance(p, s[0], config.(initialValue := v)) == Advance(p, s[0], config);
      hide Advance;
      FoldIgnoresInitial(Advance(p, s[0], config), s[1..], config, v);
    }
  }

  lemma {:induction false} FoldEnd(p: Progress, s: seq<Event>, config: ScoringConfig)
    requires s != []
    ensures var q := Fold(p, s, config); 0.0 <= q.value <= 1.0 && q.at == s[|s| - 1].timestamp
    decreases |s|
  {
    hide Decay, EffectiveDelta;
    if |s| > 1 {
      FoldEnd(Advance(p, s[0], config), s[1..], config);
    } else {
      assert s[1..] == [];
    }
  }

  /** The event that carries a checkpoint: no delta, at the checkpoint's instant. */
  function Checkpoint(at: real): Event {
    Event("", at, "", Some(0.0), None)
  }

  function DecayedAt(p: Progress, t: real, d: DecayConfig): real {
    Decay(p.value, t - p.at, d)
  }

  /** Two progresses that decay alike from t1 on finish alike. */
  lemma FinishAlike(p: Progress, q: Progress, s: seq<Event>, config: ScoringConfig, t1: real, t2: real)
    requires forall t :: t >= t1 ==> DecayedAt(p, t, config.decay) == DecayedAt(q, t, config.decay)
    requires t1 <= t2 && (s != [] ==> s[0].timestamp >= t1)
    ensures DecayedAt(Fold(p, s, config), t2, config.decay) == DecayedAt(Fold(q, s, config), t2, config.decay)
  {
    hide Decay, Clamp, EffectiveDelta;
    if s != [] {
      assert DecayedAt(p, s[0].timestamp, config.decay) == DecayedAt(q, s[0].timestamp, config.decay);
      assert Advance(p, s[0], config) == Advance(q, s[0], config);
    }
  }

  lemma ResumeSorted(a: seq<Event>, b: seq<Event>, config: ScoringConfig, t1: real, t2: real)
    requires LawfulDecay(config.decay) && t1 <= t2 && a != []
    requires a[|a| - 1].timestamp <= t1 && (b != [] ==> b[0].timestamp >= t1)
    ensures ScoreSorted(a + b, config, t2)
         == ScoreSorted([Checkpoint(t1)] + b, config.(initialValue := ScoreSorted(a, config, t1)), t2)
  {
    hide LawfulDecay, Decay;
    var p := Fold(Start(a, config, t1), a, config);
    FoldEnd(Start(a, config, t1), a, config);
    FoldSplit(Start(a, config, t1), a, b, config);
    assert Start(a + b, config, t2) == Start(a, config, t1);
    var v := Decay(p.value, t1 - p.at, config.decay);
    DecayShrinks(config.decay, p.value, t1 - p.at);
    assert ScoreSorted(a, config, t1) == v;
    var q := Progress(v, t1);
    ResumeFolds(b, config, t1, t2, v);
    forall t | t >= t1
      ensures DecayedAt(p, t, config.decay) == DecayedAt(q, t, config.decay)
    {
      DecaySemigroup(config.decay, p.value, t1 - p.at, t - t1);
      assert (t1 - p.at) + (t - t1) == t - p.at;
    }
    FinishAlike(p, q, b, config, t1, t2);
  }

  /** Scoring from a checkpoint is folding the later events from the checkpoint's value and instant. */
  lemma ResumeFolds(b: seq<Event>, config: ScoringConfig, t1: real, t2: real, v: real)
    requires 0.0 <= v <= 1.0
    ensures var q := Fold(Progress(v, t1), b, config);
            ScoreSorted([Checkpoint(t1)] + b, config.(initialValue := v), t2)
            == Clamp(Decay(q.value, t2 - q.at, config.decay))
  {
    var config1 := config.(initialValue := v);
    NoDecay(v, 0.0, config.decay);
    hide Decay, Fold;
    assert Advance(Progress(v, t1), Checkpoint(t1), config1) == Progress(v, t1);
    FoldCons(Progress(v, t1), Checkpoint(t1), b, config1);
    FoldIgnoresInitial(Progress(v, t1), b, config, v);
  }

  lemma FoldCons(p: Progress, e: Event, s: seq<Event>, config: ScoringConfig)
    ensures Fold(p, [e] + s, config) == Fold(Advance(p, e, config), s, config)
  {
    hide Advance;
    assert ([e] + s)[1..] == s;
  }

  predicate UpTo(t: real, e: Event) {
    e.timestamp <= t
  }

  predicate Between(t1: real, t2: real, e: Event) {
    t1 < e.timestamp <= t2
  }

  lemma {:induction false} SplitAt(s: seq<Event>, t1: real, t2: real)
    requires Sorted(s) && t1 <= t2
    ensures Keep((e: Event) => UpTo(t2, e), s)
         == Keep((e: Event) => UpTo(t1, e), s) + Keep((e: Event) => Between(t1, t2, e), s)
  {
    if s != [] {
      assert s == [s[0]] + s[1..];
      SplitAt(s[1..], t1, t2);
      if s[0].timestamp > t1 {
        forall e | e in s[1..] ensures !UpTo(t1, e) {}
        KeepNone((e: Event) => UpTo(t1, e), s[1..]);
      }
    }
  }

  lemma {:induction false} KeepNone(p: Event -> bool, s: seq<Event>)
    requires forall e :: e in s ==> !p(e)
    ensures Keep(p, s) == []
  {
    if s != [] {
      KeepNone(p, s[1..]);
    }
  }

  /** The counted events up to an instant, in time order. */
  function Counted(events: seq<Event>, filter: bool): seq<Event> {
    FilterControllable(SortByTime(events), filter)
  }

  lemma ScoreIsCounted(a: seq<Event>, config: ScoringConfig, now: real, filter: bool)
    ensures Score(a, config, now, filter) == ScoreSorted(Counted(a, filter), config, now)
  {
    hide ScoreSorted, SortByTime, FilterControllable;
  }

  lemma CountedKeep(p: Event -> bool, events: seq<Event>, filter: bool)
    ensures Counted(Keep(p, events), filter) == Keep(p, Counted(events, filter))
  {
    SortKeep(p, events);
    KeepKeep(Controllable, p, SortByTime(events));
  }

  lemma CountedSorted(events: seq<Event>, filter: bool)
    ensures Sorted(Counted(events, filter))
  {
    SortSorts(events);
    KeepSorted(Controllable, SortByTime(events));
  }

  lemma CountedCheckpoint(t1: real, later: seq<Event>, filter: bool)
    requires forall e :: e in later ==> t1 <= e.timestamp
    ensures Counted([Checkpoint(t1)] + later, filter) == [Checkpoint(t1)] + Counted(later, filter)
  {
    SortSorts(later);
    forall e | e in SortByTime(later) ensures t1 <= e.timestamp {
      assert e in multiset(SortByTime(later));
    }
    SortCons(Checkpoint(t1), later);
    InsertLow(Checkpoint(t1), SortByTime(later));
    KeepCons(Controllable, Checkpoint(t1), SortByTime(later));
  }

  lemma ReplayIs(events: seq<Event>, config: ScoringConfig, t: real, filter: bool)
    ensures Replay(events, config, t, None, filter)
         == ScoreSorted(Keep((e: Event) => UpTo(t, e), Counted(events, filter)), config, t)
  {
    var p, q := (e: Event) => e.timestamp <= t, (e: Event) => UpTo(t, e);
    CountedKeep(q, events, filter);
    SameKeep(p, q, events);
    hide ScoreSorted;
  }

  lemma {:induction false} SameKeep(p: Event -> bool, q: Event -> bool, s: seq<Event>)
    requires forall e :: p(e) == q(e)
    ensures Keep(p, s) == Keep(q, s)
  {
    if s != [] {
      SameKeep(p, q, s[1..]);
    }
  }

  /** The counted events in (t1, t2], in time order. */
  function Later(events: seq<Event>, t1: real, t2: real, filter: bool): seq<Event> {
    Keep((e: Event) => Between(t1, t2, e), Counted(events, filter))
  }

  /** The score at t2 of a zero event at t1 and the events after t1 up to t2, from the replay at t1. */
  function Resumed(events: seq<Event>, config: ScoringConfig, t1: real, t2: real, filter: bool): real {
    Score([Checkpoint(t1)] + Keep((e: Event) => Between(t1, t2, e), events),
          config.(initialValue := Replay(events, config, t1, None, filter)), t2, filter)
  }

  /** Both sides in terms of the counted events up to t1 and those after it. */
  lemma BothSides(events: seq<Event>, config: ScoringConfig, t1: real, t2: real, filter: bool)
    requires t1 <= t2
    ensures var a, b := Keep((e: Event) => UpTo(t1, e), Counted(events, filter)), Later(events, t1, t2, filter);
            && Replay(events, config, t2, None, filter) == ScoreSorted(a + b, config, t2)
            && Resumed(events, config, t1, t2, filter)
               == ScoreSorted([Checkpoint(t1)] + b, config.(initialValue := ScoreSorted(a, config, t1)), t2)
  {
    var c := Counted(events, filter);
    CountedSorted(events, filter);
    SplitAt(c, t1, t2);
    ReplayIs(events, config, t1, filter);
    ReplayIs(events, config, t2, filter);
    CountedKeep((e: Event) => Between(t1, t2, e), events, filter);
    KeepMembers((e: Event) => Between(t1, t2, e), events);
    CountedCheckpoint(t1, Keep((e: Event) => Between(t1, t2, e), events), filter);
    hide ScoreSorted, Keep, SortByTime, FilterControllable, Replay;
  }

  /** Replaying to t2 is scoring, from the replay at t1, a zero event at t1 and the events after t1 up to t2,
      whenever at least one counted event is at or before t1. */
  lemma ReplayResumes(events: seq<Event>, config: ScoringConfig, t1: real, t2: real, filter: bool)
    requires LawfulDecay(config.decay) && t1 <= t2
    requires exists e :: e in FilterControllable(events, filter) && e.timestamp <= t1
    ensures Replay(events, config, t2, None, filter) == Resumed(events, config, t1, t2, filter)
  {
    hide ScoreSorted, Keep, SortByTime, FilterControllable, Replay, LawfulDecay, Resumed;
    var c := Counted(events, filter);
    var a, b := Keep((e: Event) => UpTo(t1, e), c), Later(events, t1, t2, filter);
    BothSides(events, config, t1, t2, filter);
    KeepMembers((e: Event) => UpTo(t1, e), c);
    KeepMembers((e: Event) => Between(t1, t2, e), c);
    CountedMembers(events, filter);
    var e :| e in FilterControllable(events, filter) && e.timestamp <= t1;
    assert e in a;
    assert a[|a| - 1] in a;
    if b != [] {
      assert b[0] in b;
    }
    ResumeSorted(a, b, config, t1, t2);
  }

  lemma NothingUpTo(events: seq<Event>, t1: real, filter: bool)
    requires forall e :: e in FilterControllable(events, filter) ==> e.timestamp > t1
    ensures Keep((e: Event) => UpTo(t1, e), Counted(events, filter)) == []
  {
    CountedMembers(events, filter);
    hide Counted, FilterControllable, Keep;
    KeepNone((e: Event) => UpTo(t1, e), Counted(events, filter));
  }

  lemma ScoreOfNone(config: ScoringConfig, t: real)
    ensures ScoreSorted([], config, t) == Clamp(config.initialValue)
  {
    NoDecay(config.initialValue, 0.0, config.decay);
    hide Decay;
  }

  /** While there is no counted event up to t2, the checkpoint changes nothing exactly when decaying the clamped
      initial value from t1 to t2 changes nothing: a replay without events does not decay at all. */
  lemma NoEventYetIff(events: seq<Event>, config: ScoringConfig, t1: real, t2: real, filter: bool)
    requires LawfulDecay(config.decay) && t1 <= t2
    requires forall e :: e in FilterControllable(events, filter) ==> e.timestamp > t2
    ensures Replay(events, config, t2, None, filter) == Resumed(events, config, t1, t2, filter)
       <==> Decay(Clamp(config.initialValue), t2 - t1, config.decay) == Clamp(config.initialValue)
  {
    hide ScoreSorted, Keep, FilterControllable, Replay, LawfulDecay, Resumed, Decay, Counted, Sorted;
    var v := Clamp(config.initialValue);
    BothSides(events, config, t1, t2, filter);
    NothingUpTo(events, t1, filter);
    NothingUpTo(events, t2, filter);
    CountedSorted(events, filter);
    SplitAt(Counted(events, filter), t1, t2);
    ScoreOfNone(config, t1);
    ScoreOfNone(config, t2);
    ResumeFolds([], config, t1, t2, v);
    DecayShrinks(config.decay, v, t2 - t1);
    assert Later(events, t1, t2, filter) == [];
  }

  /** When the first counted event comes after t1, the checkpoint changes nothing if that event ends at the same value
      from the initial value as from the decayed checkpoint; in particular if the initial value is in [0, 1] and the
      decay from t1 to the event takes nothing away. */
  lemma FirstEventLater(events: seq<Event>, config: ScoringConfig, t1: real, t2: real, filter: bool)
    requires t1 <= t2 && Later(events, t1, t2, filter) != []
    requires forall e :: e in FilterControllable(events, filter) ==> e.timestamp > t1
    requires var first := Later(events, t1, t2, filter)[0];
             Clamp(config.initialValue + EffectiveDelta(first, config))
             == Clamp(Decay(Clamp(config.initialValue), first.timestamp - t1, config.decay)
                      + EffectiveDelta(first, config))
    ensures Replay(events, config, t2, None, filter) == Resumed(events, config, t1, t2, filter)
  {
    hide Keep, FilterControllable, Replay, Resumed, Decay, Counted, Later, EffectiveDelta;
    var b := Later(events, t1, t2, filter);
    var v := Clamp(config.initialValue);
    BothSides(events, config, t1, t2, filter);
    NothingUpTo(events, t1, filter);
    assert [] + b == b;
    ScoreOfNone(config, t1);
    ResumeFolds(b, config, t1, t2, v);
    NoDecay(config.initialValue, 0.0, config.decay);
    assert Advance(Start(b, config, t2), b[0], config) == Advance(Progress(v, t1), b[0], config);
  }

  /** At the instant of that first event, while it is the only one, the condition is exact. */
  lemma FirstEventNowIff(events: seq<Event>, config: ScoringConfig, t1: real, t2: real, filter: bool, first: Event)
    requires t1 <= t2 && Later(events, t1, t2, filter) == [first] && first.timestamp == t2
    requires forall e :: e in FilterControllable(events, filter) ==> e.timestamp > t1
    ensures Replay(events, config, t2, None, filter) == Resumed(events, config, t1, t2, filter)
       <==> Clamp(config.initialValue + EffectiveDelta(first, config))
            == Clamp(Decay(Clamp(config.initialValue), t2 - t1, config.decay) + EffectiveDelta(first, config))
  {
    hide Keep, FilterControllable, Replay, Resumed, Decay, Counted, Later, EffectiveDelta;
    var v := Clamp(config.initialValue);
    BothSides(events, config, t1, t2, filter);
    NothingUpTo(events, t1, filter);
    assert [] + [first] == [first] && [first][1..] == [];
    ScoreOfNone(config, t1);
    ResumeFolds([first], config, t1, t2, v);
    NoDecay(config.initialValue, 0.0, config.decay);
    var p, q := Advance(Start([first], config, t2), first, config), Advance(Progress(v, t1), first, config);
    assert Fold(Start([first], config, t2), [first], config) == p;
    assert Fold(Progress(v, t1), [first], config) == q;
    NoDecay(p.value, 0.0, config.decay);
    NoDecay(q.value, 0.0, config.decay);
  }

  lemma CountedMembers(events: seq<Event>, filter: bool)
    ensures forall e :: e in Counted(events, filter) <==> e in FilterControllable(events, filter)
  {
    SortSorts(events);
    KeepMembers(Controllable, SortByTime(events));
    KeepMembers(Controllable, events);
    forall e ensures e in SortByTime(events) <==> e in events {
      assert e in SortByTime(events) <==> e in multiset(SortByTime(events));
    }
  }

  /** Without an earlier event the checkpoint matters: the initial value does not decay before the first event,
      but it does from a checkpoint on. */
  lemma NoEarlierEvent()
    ensures var config := ScoringConfig(map[], 0.5, DecayConfig(Linear, 0.01));
            var events := [Event("e", 20.0, "note", Some(0.0), None)];
            Replay(events, config, 20.0, None, false) == 0.5 && Resumed(events, config, 10.0, 20.0, false) == 0.4
  {
    var config := ScoringConfig(map[], 0.5, DecayConfig(Linear, 0.01));
    var note := Event("e", 20.0, "note", Some(0.0), None);
    var events := [note];
    assert SortByTime(events) == [note] by { assert events[1..] == []; }
    assert Keep((e: Event) => e.timestamp <= 20.0, events) == [note];
    assert Keep((e: Event) => e.timestamp <= 10.0, events) == [];
    assert Keep((e: Event) => Between(10.0, 20.0, e), events) == [note];
    assert ScoreSorted([note], config, 20.0) == 0.5 by {
      FoldCons(Progress(0.5, 20.0), note, [], config);
    }
    assert ScoreSorted([], config, 10.0) == 0.5;
    SortCons(Checkpoint(10.0), [note]);
    assert [Checkpoint(10.0)] + [note] == [Checkpoint(10.0), note];
    FoldCons(Progress(0.5, 10.0), Checkpoint(10.0), [note], config);
    FoldCons(Progress(0.5, 10.0), note, [], config);
    assert ScoreSorted([Checkpoint(10.0)] + [note], config, 20.0) == 0.4;
  }
}
