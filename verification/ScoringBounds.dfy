/** How far a score can move when the numbers in its input move. */
module ScoringBounds {
  import opened Common
  import opened Scoring
  import opened ScoringOrder
  import opened CheckpointedReplay

  /** The same history with other deltas: event by event the same instant and the same controllability. */
  ghost predicate Twins(a: seq<Event>, b: seq<Event>) {
    && |a| == |b|
    && forall i :: 0 <= i < |a| ==> a[i].timestamp == b[i].timestamp && Controllable(a[i]) == Controllable(b[i])
  }

  function DeltaGap(e: Event, f: Event, config: ScoringConfig, config1: ScoringConfig): real {
    Abs(EffectiveDelta(e, config) - EffectiveDelta(f, config1))
  }

  /** The sum over the events of how far their deltas are apart. */
  function Gap(a: seq<Event>, b: seq<Event>, config: ScoringConfig, config1: ScoringConfig): (g: real)
    requires |a| == |b|
    ensures g >= 0.0
  {
    if a == [] then 0.0 else DeltaGap(a[0], b[0], config, config1) + Gap(a[1..], b[1..], config, config1)
  }

  ghost predicate Raised(a: seq<Event>, b: seq<Event>, config: ScoringConfig, config1: ScoringConfig)
    requires |a| == |b|
  {
    forall i :: 0 <= i < |a| ==> EffectiveDelta(a[i], config) <= EffectiveDelta(b[i], config1)
  }

  // ---- Sorting and filtering keep twins twins, gaps and raises ----

  lemma ConsTwins(e: Event, f: Event, s: seq<Event>, t: seq<Event>, config: ScoringConfig, config1: ScoringConfig)
    requires Twins(s, t) && e.timestamp == f.timestamp && Controllable(e) == Controllable(f)
    ensures Twins([e] + s, [f] + t)
    ensures Gap([e] + s, [f] + t, config, config1) == DeltaGap(e, f, config, config1) + Gap(s, t, config, config1)
    ensures Raised(s, t, config, config1) && EffectiveDelta(e, config) <= EffectiveDelta(f, config1) ==>
              Raised([e] + s, [f] + t, config, config1)
  {
    hide EffectiveDelta, Controllable, DeltaGap;
    assert ([e] + s)[1..] == s && ([f] + t)[1..] == t;
  }

  lemma {:induction false} InsertTwins(e: Event, f: Event, s: seq<Event>, t: seq<Event>, config: ScoringConfig,
                                       config1: ScoringConfig)
    requires Twins(s, t) && e.timestamp == f.timestamp && Controllable(e) == Controllable(f)
    ensures var x, y := InsertByTime(e, s), InsertByTime(f, t);
            && Twins(x, y)
            && Gap(x, y, config, config1) == DeltaGap(e, f, config, config1) + Gap(s, t, config, config1)
            && (Raised(s, t, config, config1) && EffectiveDelta(e, config) <= EffectiveDelta(f, config1) ==>
                  Raised(x, y, config, config1))
  {
    hide EffectiveDelta, Controllable, DeltaGap;
    if s == [] || e.timestamp <= s[0].timestamp {
      ConsTwins(e, f, s, t, config, config1);
    } else {
      InsertTwins(e, f, s[1..], t[1..], config, config1);
      ConsTwins(s[0], t[0], InsertByTime(e, s[1..]), InsertByTime(f, t[1..]), config, config1);
    }
  }

  lemma {:induction false} SortTwins(a: seq<Event>, b: seq<Event>, config: ScoringConfig, config1: ScoringConfig)
    requires Twins(a, b)
    ensures var x, y := SortByTime(a), SortByTime(b);
            && Twins(x, y)
            && Gap(x, y, config, config1) == Gap(a, b, config, config1)
            && (Raised(a, b, config, config1) ==> Raised(x, y, config, config1))
  {
    hide EffectiveDelta, Controllable, DeltaGap, InsertByTime;
    if a != [] {
      SortTwins(a[1..], b[1..], config, config1);
      InsertTwins(a[0], b[0], SortByTime(a[1..]), SortByTime(b[1..]), config, config1);
    }
  }

  lemma {:induction false} KeepTwins(a: seq<Event>, b: seq<Event>, config: ScoringConfig, config1: ScoringConfig)
    requires Twins(a, b)
    ensures var x, y := Keep(Controllable, a), Keep(Controllable, b);
            && Twins(x, y)
            && Gap(x, y, config, config1) <= Gap(a, b, config, config1)
            && (Raised(a, b, config, config1) ==> Raised(x, y, config, config1))
  {
    hide EffectiveDelta, Controllable, DeltaGap;
    if a != [] {
      assert a == [a[0]] + a[1..] && b == [b[0]] + b[1..];
      KeepTwins(a[1..], b[1..], config, config1);
      KeepCons(Controllable, a[0], a[1..]);
      KeepCons(Controllable, b[0], b[1..]);
      GapNonNegative(a[0], b[0], config, config1);
      hide Keep;
      if Controllable(a[0]) {
        ConsTwins(a[0], b[0], Keep(Controllable, a[1..]), Keep(Controllable, b[1..]), config, config1);
      }
    }
  }

  lemma GapNonNegative(e: Event, f: Event, config: ScoringConfig, config1: ScoringConfig)
    ensures DeltaGap(e, f, config, config1) >= 0.0
  {
  }

  // ---- One step ----

  lemma ClampMoves(x: real, y: real)
    ensures Abs(Clamp(x) - Clamp(y)) <= Abs(x - y)
    ensures x <= y ==> Clamp(x) <= Clamp(y)
  {
  }

  lemma ProductMoves(x: real, y: real, h: real)
    requires 0.0 < h <= 1.0
    ensures Abs(x * h - y * h) <= Abs(x - y)
    ensures x <= y ==> x * h <= y * h
  {
    if x <= y {
      LesserProduct(x, y, h);
    } else {
      LesserProduct(y, x, h);
    }
  }

  lemma LesserProduct(x: real, y: real, h: real)
    requires 0.0 < h <= 1.0 && x <= y
    ensures 0.0 <= y * h - x * h <= y - x
  {
    var gap := y - x;
    ProductBounds(gap, h);
    SumTimes(x, gap, h);
    GapBetween(x * h, (x + gap) * h, gap * h, gap);
    assert x + gap == y;
  }

  lemma GapBetween(p: real, q: real, g: real, gap: real)
    requires q == p + g && 0.0 <= g <= gap
    ensures 0.0 <= q - p <= gap
  {
  }

  lemma SumTimes(x: real, gap: real, h: real)
    ensures (x + gap) * h == x * h + gap * h
  {
  }

  lemma ExponentialMoves(x: real, y: real, h: real, x1: real, y1: real)
    requires 0.0 < h <= 1.0 && x1 == x * h && y1 == y * h
    ensures Abs(x1 - y1) <= Abs(x - y)
    ensures x <= y ==> x1 <= y1
  {
    ProductMoves(x, y, h);
  }

  /** Decay is monotone and brings values no further apart. */
  lemma DecayMoves(d: DecayConfig, x: real, y: real, hours: real)
    requires LawfulDecay(d)
    ensures Abs(Decay(x, hours, d) - Decay(y, hours, d)) <= Abs(x - y)
    ensures x <= y ==> Decay(x, hours, d) <= Decay(y, hours, d)
  {
    hide Decay, HalfLife;
    if hours <= 0.0 {
      NoDecay(x, hours, d);
      NoDecay(y, hours, d);
    } else if d.function_.Linear? {
      LinearDecay(d, x, hours);
      LinearDecay(d, y, hours);
    } else {
      ExponentialDecay(d, x, hours);
      ExponentialDecay(d, y, hours);
      HalfLifePositive(d);
      QuotientNonNegative(hours, HalfLife(d));
      var h := d.function_.halfPow(hours / HalfLife(d));
      assert 0.0 < h <= 1.0;
      ExponentialMoves(x, y, h, Decay(x, hours, d), Decay(y, hours, d));
    }
  }

  lemma AdvanceMoves(p: Progress, q: Progress, e: Event, f: Event, config: ScoringConfig, config1: ScoringConfig)
    requires LawfulDecay(config.decay) && config.decay == config1.decay
    requires p.at == q.at && e.timestamp == f.timestamp
    ensures Abs(Advance(p, e, config).value - Advance(q, f, config1).value)
         <= Abs(p.value - q.value) + DeltaGap(e, f, config, config1)
    ensures p.value <= q.value && EffectiveDelta(e, config) <= EffectiveDelta(f, config1) ==>
              Advance(p, e, config).value <= Advance(q, f, config1).value
  {
    DecayMoves(config.decay, p.value, q.value, e.timestamp - p.at);
    hide Decay, LawfulDecay, EffectiveDelta, Clamp;
    ClampMoves(Decay(p.value, e.timestamp - p.at, config.decay) + EffectiveDelta(e, config),
               Decay(q.value, f.timestamp - q.at, config1.decay) + EffectiveDelta(f, config1));
  }

  lemma {:induction false} FoldMoves(p: Progress, q: Progress, a: seq<Event>, b: seq<Event>, config: ScoringConfig,
                                     config1: ScoringConfig)
    requires LawfulDecay(config.decay) && config.decay == config1.decay && p.at == q.at && Twins(a, b)
    ensures var x, y := Fold(p, a, config), Fold(q, b, config1);
            && x.at == y.at
            && Abs(x.value - y.value) <= Abs(p.value - q.value) + Gap(a, b, config, config1)
            && (p.value <= q.value && Raised(a, b, config, config1) ==> x.value <= y.value)
    decreases |a|
  {
    hide LawfulDecay, Decay, EffectiveDelta, Clamp, DeltaGap, Controllable;
    if a != [] {
      AdvanceMoves(p, q, a[0], b[0], config, config1);
      FoldMoves(Advance(p, a[0], config), Advance(q, b[0], config1), a[1..], b[1..], config, config1);
    }
  }

  lemma SortedMoves(a: seq<Event>, b: seq<Event>, config: ScoringConfig, config1: ScoringConfig, now: real)
    requires LawfulDecay(config.decay) && config.decay == config1.decay && Twins(a, b)
    ensures Abs(ScoreSorted(a, config, now) - ScoreSorted(b, config1, now))
         <= Abs(config.initialValue - config1.initialValue) + Gap(a, b, config, config1)
    ensures config.initialValue <= config1.initialValue && Raised(a, b, config, config1) ==>
              ScoreSorted(a, config, now) <= ScoreSorted(b, config1, now)
  {
    hide LawfulDecay, Decay, EffectiveDelta, Clamp, DeltaGap, Fold, Gap, Controllable, Raised;
    FoldMoves(Start(a, config, now), Start(b, config1, now), a, b, config, config1);
    var p, q := Fold(Start(a, config, now), a, config), Fold(Start(b, config1, now), b, config1);
    DecayMoves(config.decay, p.value, q.value, now - p.at);
    ClampMoves(Decay(p.value, now - p.at, config.decay), Decay(q.value, now - q.at, config.decay));
  }

  lemma CountedTwins(a: seq<Event>, b: seq<Event>, config: ScoringConfig, config1: ScoringConfig, filter: bool)
    requires Twins(a, b)
    ensures var x, y := Counted(a, filter), Counted(b, filter);
            && Twins(x, y)
            && Gap(x, y, config, config1) <= Gap(a, b, config, config1)
            && (Raised(a, b, config, config1) ==> Raised(x, y, config, config1))
  {
    hide EffectiveDelta, Controllable, DeltaGap, Keep, SortByTime, Gap, Raised, Twins;
    SortTwins(a, b, config, config1);
    KeepTwins(SortByTime(a), SortByTime(b), config, config1);
  }

  /** Raising the initial value, the weights or the deltas never lowers a score; and a score moves by no more
      than the initial value and all the deltas together have moved. */
  lemma ScoreMoves(a: seq<Event>, b: seq<Event>, config: ScoringConfig, config1: ScoringConfig, now: real, filter: bool)
    requires LawfulDecay(config.decay) && config.decay == config1.decay && Twins(a, b)
    ensures Abs(Score(a, config, now, filter) - Score(b, config1, now, filter))
         <= Abs(config.initialValue - config1.initialValue) + Gap(a, b, config, config1)
    ensures config.initialValue <= config1.initialValue && Raised(a, b, config, config1) ==>
              Score(a, config, now, filter) <= Score(b, config1, now, filter)
  {
    hide *;
    CountedTwins(a, b, config, config1, filter);
    ScoreIsCounted(a, config, now, filter);
    ScoreIsCounted(b, config1, now, filter);
    SortedMoves(Counted(a, filter), Counted(b, filter), config, config1, now);
  }
}
