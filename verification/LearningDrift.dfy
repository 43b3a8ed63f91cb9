/** What learning can and cannot do over whole runs of a LearningTrustScorer. */
module LearningDrift {
  import opened Common
  import opened Model
  import opened Scoring
  import opened ScoringOrder
  import opened LearningTrust

  datatype Op =
    | Record(event: TrustEvent, given: Given, id: string, at: real)
    | Set(value: real, at: real)
    | Learn(rate: real, now: real, auditNow: real)
    | Adjust(new_: map<TrustEvent, real>)

  function Perform(l: Learner, setup: LearningSetup, op: Op): Learner {
    match op
    case Record(event, given, id, at) => Recorded(l, setup, event, given, id, at)
    case Set(value, at) => WithValue(l, setup, value, at)
    case Learn(rate, now, auditNow) => Learned(l, setup, rate, now, auditNow)
    case Adjust(new_) => l.(weights := l.weights + NamedWeights(new_))
  }

  function PerformAll(l: Learner, setup: LearningSetup, ops: seq<Op>): Learner {
    if ops == [] then l else Perform(PerformAll(l, setup, ops[..|ops| - 1]), setup, ops[|ops| - 1])
  }

  // ---- A learner between two lessons ----

  /** The learner's scorer, as a windowed scorer without the controllability filter. */
  function ScorerOf(l: Learner): WindowedTrust.Buffer {
    WindowedTrust.Buffer(l.initialValue, l.events, l.nSeen, l.lastUpdated)
  }

  function SetupOf(l: Learner, setup: LearningSetup): WindowedTrust.Setup {
    WindowedTrust.Setup(l.weights, setup.decay, setup.window, setup.minEvents, false)
  }

  /** The context an event is buffered with: the one given, or for a plain dict a controllable one without an actor. */
  function ContextOf(given: Given): Option<EventContext> {
    if given.Nothing? then None
    else Some(if given.Attributed? then given.context else EventContext(true, None))
  }

  /** Between lessons a learner is the windowed scorer with its present weights: it reads, refuses, buffers and is
      overridden alike. */
  lemma ScoresLikeWindowed(l: Learner, setup: LearningSetup, event: TrustEvent, given: Given, id: string, value: real,
                           at: real, now: real)
    ensures Reading(l, setup, now) == WindowedTrust.Value(ScorerOf(l), SetupOf(l, setup), now)
    ensures ScorerOf(Recorded(l, setup, event, given, id, at))
         == WindowedTrust.Recorded(ScorerOf(l), SetupOf(l, setup), event, ContextOf(given), id, at)
    ensures ScorerOf(WithValue(l, setup, value, at)) == WindowedTrust.WithValue(ScorerOf(l), value, at)
    ensures Recorded(l, setup, event, given, id, at).weights == l.weights
    ensures WithValue(l, setup, value, at).weights == l.weights
    ensures Unattributed(event, given)
       <==> event == HumanOverride && (!given.Attributed? || given.context.actorId.None?)
  {
    hide WindowedScore, WindowedTrust.Blend, EventName, Clamp, JournalContextOf;
  }

  /** The journal keeps the instant and the context given: a reason and an actor are noted beside the metadata when
      they are not empty, a plain dict as it is, and an override notes the value it set. */
  lemma JournalNotes(l: Learner, setup: LearningSetup, op: Op)
    requires op.Set? || (op.Record? && !Unattributed(op.event, op.given))
    ensures var journal := Perform(l, setup, op).journal;
            && |journal| == |l.journal| + 1
            && var noted := journal[|l.journal|];
               && noted.timestamp == op.at
               && (op.Set? ==> noted.context == map["set_value" := Number(op.value)])
               && (op.Record? ==>
                     match op.given
                     case Nothing => noted.context == map[]
                     case Loose(entries) => noted.context == entries
                     case Attributed(context, reason, metadata) =>
                       && (forall k :: k != "reason" && k != "actor_id" ==>
                             (k in noted.context <==> k in metadata)
                             && (k in metadata ==> noted.context[k] == metadata[k]))
                       && Notes(noted.context, metadata, "reason", reason)
                       && Notes(noted.context, metadata, "actor_id", context.actorId))
  {
    hide CurrentValue, EventName, WindowedTrust.WeightOf, Clamp, TierFor;
  }

  /** The text is noted under the key when there is one and it is not empty; otherwise the key is as it was. */
  predicate Notes(noted: map<string, Remark>, metadata: map<string, Remark>, key: string, text: Option<string>) {
    if text.Some? && text.value != "" then key in noted && noted[key] == Words(text.value)
    else (key in noted <==> key in metadata) && (key in metadata ==> noted[key] == metadata[key])
  }

  /** Weights are given by kind of event and kept by its name. */
  lemma WeightsByName(new_: map<TrustEvent, real>)
    ensures var named := NamedWeights(new_);
            && (forall e :: e in new_ <==> EventName(e) in named)
            && (forall e :: e in new_ ==> named[EventName(e)] == new_[e])
            && (forall n :: n in named ==> exists e :: e in new_ && EventName(e) == n)
  {
    forall e, f ensures EventName(e) == EventName(f) <==> e == f {
      NamesDiffer(e, f);
    }
    hide EventName;
    forall e ensures e in new_ <==> EventName(e) in NamedWeights(new_)
      ensures e in new_ ==> NamedWeights(new_)[EventName(e)] == new_[e] {
      assert e == Success || e == Failure || e == PolicyViolation || e == HumanOverride;
    }
  }

  // ---- What one audit says ----

  function Moved(audit: LearningAudit, name: string): real {
    if name in audit.weightChanges then audit.weightChanges[name].1 - audit.weightChanges[name].0 else 0.0
  }

  function Total(audits: seq<LearningAudit>, name: string): real {
    if audits == [] then 0.0 else Total(audits[..|audits| - 1], name) + Moved(audits[|audits| - 1], name)
  }

  ghost predicate Honest(changes: map<string, (real, real)>, weights: map<string, real>, cap: real) {
    forall n :: n in changes ==>
      changes[n].0 == WindowedTrust.WeightOf(weights, n) && Abs(changes[n].1 - changes[n].0) <= cap
  }

  lemma NoteHonest(changes: map<string, (real, real)>, weights: map<string, real>, e: TrustEvent, step: Option<real>,
                   cap: real)
    requires Honest(changes, weights, cap) && Size(step) <= cap
    ensures Honest(Note(changes, weights, e, step), weights, cap)
  {
    hide EventName, WindowedTrust.WeightOf;
  }

  lemma StepCapped(journal: seq<JournalEntry>, e: TrustEvent, rate: real, cap: real)
    requires cap >= 0.0
    ensures Size(Step(journal, e, rate, cap)) <= cap
  {
    hide Directions, Average, Raw;
  }

  lemma ChangesHonest(l: Learner, rate: real, cap: real)
    requires cap >= 0.0
    ensures Honest(Changes(l, rate, cap), l.weights, cap)
  {
    hide Step, Note, Size;
    var s, f, p := Step(l.journal, Success, rate, cap), Step(l.journal, Failure, rate, cap),
                   Step(l.journal, PolicyViolation, rate, cap);
    StepCapped(l.journal, Success, rate, cap);
    StepCapped(l.journal, Failure, rate, cap);
    StepCapped(l.journal, PolicyViolation, rate, cap);
    NoteHonest(map[], l.weights, Success, s, cap);
    NoteHonest(Note(map[], l.weights, Success, s), l.weights, Failure, f, cap);
    NoteHonest(Note(Note(map[], l.weights, Success, s), l.weights, Failure, f), l.weights, PolicyViolation, p, cap);
  }

  /** An audit records exactly the movement of every weight, and no movement exceeds the cap. */
  lemma AuditTellsAll(l: Learner, setup: LearningSetup, rate: real, now: real, auditNow: real, name: string)
    requires !Cooling(l, setup, now) && setup.maxWeightDelta >= 0.0
    ensures var l' := Learned(l, setup, rate, now, auditNow);
            var audit := l'.audits[|l.audits|];
            && WindowedTrust.WeightOf(l'.weights, name) == WindowedTrust.WeightOf(l.weights, name) + Moved(audit, name)
            && Abs(Moved(audit, name)) <= setup.maxWeightDelta
  {
    ChangesHonest(l, rate, setup.maxWeightDelta);
    hide Changes, Considered, Largest;
  }

  /** Learning does nothing exactly while it cools down: a cooldown is set, something was learned before, and less
      than the cooldown ago. Otherwise it appends one audit, at the instant it reads the clock again, and changes
      only the weights besides. */
  lemma LearnsIff(l: Learner, setup: LearningSetup, rate: real, now: real, auditNow: real)
    ensures var l' := Learned(l, setup, rate, now, auditNow);
            var cooling := setup.cooldown.Some? && l.lastLearnAt.Some?
                           && now - l.lastLearnAt.value < setup.cooldown.value;
            && (l' == l <==> cooling)
            && (!cooling ==>
                  && |l'.audits| == |l.audits| + 1 && l'.audits[..|l.audits|] == l.audits
                  && l'.audits[|l.audits|].timestamp == auditNow && l'.lastLearnAt == Some(auditNow)
                  && l' == l.(weights := l'.weights, lastLearnAt := l'.lastLearnAt, audits := l'.audits))
  {
    hide Changes, Considered, Largest, Adjusted;
  }

  // ---- Spans of a run ----

  ghost predicate Tracked(l: Learner) {
    l.audits != [] ==> l.lastLearnAt == Some(l.audits[|l.audits| - 1].timestamp)
  }

  ghost predicate Apart(audits: seq<LearningAudit>, i: int, h: real) {
    0 < i < |audits| && audits[i].timestamp - audits[i - 1].timestamp >= h
  }

  ghost predicate Within(audit: LearningAudit, from: real, to: real) {
    from <= audit.timestamp <= to
  }

  /** The clock is read again for the audit, and never runs backwards. */
  predicate ClockOk(op: Op, from: real, to: real) {
    op.Learn? ==> op.now <= op.auditNow && from <= op.auditNow <= to
  }

  ghost predicate Span(a: Learner, b: Learner, setup: LearningSetup, from: real, to: real, name: string) {
    var n := |a.audits|;
    && Tracked(b)
    && n <= |b.audits| && b.audits[..n] == a.audits
    && (setup.cooldown.Some? ==> forall i :: n < i < |b.audits| ==> Apart(b.audits, i, setup.cooldown.value))
    && (forall i :: n <= i < |b.audits| ==> Within(b.audits[i], from, to))
    && (forall i :: n <= i < |b.audits| ==> Abs(Moved(b.audits[i], name)) <= setup.maxWeightDelta)
    && WindowedTrust.WeightOf(b.weights, name)
       == WindowedTrust.WeightOf(a.weights, name) + Total(b.audits[n..], name)
  }

  lemma LearnSpan(a: Learner, b: Learner, setup: LearningSetup, rate: real, now: real, auditNow: real,
                  from: real, to: real, name: string)
    requires Span(a, b, setup, from, to, name) && setup.maxWeightDelta >= 0.0
    requires now <= auditNow && from <= auditNow <= to
    ensures Span(a, Learned(b, setup, rate, now, auditNow), setup, from, to, name)
  {
    hide Changes, Considered, Largest, Adjusted, Moved, WindowedTrust.WeightOf;
    if !Cooling(b, setup, now) {
      AuditTellsAll(b, setup, rate, now, auditNow, name);
      var n := |a.audits|;
      var b' := Learned(b, setup, rate, now, auditNow);
      assert b'.audits[n..][..|b.audits| - n] == b.audits[n..];
      if setup.cooldown.Some? {
        forall i | n < i < |b'.audits| ensures Apart(b'.audits, i, setup.cooldown.value) {
          if i < |b.audits| {
            assert Apart(b.audits, i, setup.cooldown.value);
          }
        }
      }
    }
  }

  lemma {:induction false} RunSpan(a: Learner, setup: LearningSetup, ops: seq<Op>, from: real, to: real, name: string)
    requires Tracked(a) && setup.maxWeightDelta >= 0.0
    requires forall op :: op in ops ==> !op.Adjust? && ClockOk(op, from, to)
    ensures Span(a, PerformAll(a, setup, ops), setup, from, to, name)
  {
    hide WithValue, Recorded, Learned, Span;
    if ops == [] {
      SpanOfNone(a, setup, from, to, name);
    } else {
      var before, op := ops[..|ops| - 1], ops[|ops| - 1];
      RunSpan(a, setup, before, from, to, name);
      var b := PerformAll(a, setup, before);
      if op.Learn? {
        assert op in ops && ClockOk(op, from, to);
        LearnSpan(a, b, setup, op.rate, op.now, op.auditNow, from, to, name);
      } else {
        QuietSpan(a, b, setup, op, from, to, name);
      }
    }
  }

  lemma SpanOfNone(a: Learner, setup: LearningSetup, from: real, to: real, name: string)
    requires Tracked(a)
    ensures Span(a, a, setup, from, to, name)
  {
  }

  lemma QuietSpan(a: Learner, b: Learner, setup: LearningSetup, op: Op, from: real, to: real, name: string)
    requires Span(a, b, setup, from, to, name) && (op.Record? || op.Set?)
    ensures Span(a, Perform(b, setup, op), setup, from, to, name)
  {
    hide CurrentValue, Total, Moved, WindowedTrust.WeightOf, EventName, Clamp, JournalContextOf;
  }

  /** Without `adjust_weights` the current weight is the initial one plus every recorded change. */
  lemma WeightIsAudited(l: Learner, setup: LearningSetup, ops: seq<Op>, from: real, to: real, name: string)
    requires l.audits == [] && l.lastLearnAt.None? && setup.maxWeightDelta >= 0.0
    requires forall op :: op in ops ==> !op.Adjust? && ClockOk(op, from, to)
    ensures var b := PerformAll(l, setup, ops);
            WindowedTrust.WeightOf(b.weights, name) == WindowedTrust.WeightOf(l.weights, name) + Total(b.audits, name)
  {
    RunSpan(l, setup, ops, from, to, name);
    var b := PerformAll(l, setup, ops);
    assert b.audits[0..] == b.audits;
    hide PerformAll, Total, Moved;
  }

  function Scaled(n: int, x: real): real {
    n as real * x
  }

  lemma ScaledSum(n: int, x: real)
    ensures Scaled(n + 1, x) == Scaled(n, x) + x
    ensures Scaled(0, x) == 0.0
  {
  }

  lemma ScaledMonotone(n: int, m: int, x: real)
    requires n <= m && x >= 0.0
    ensures Scaled(n, x) <= Scaled(m, x)
  {
    ProductNonnegative((m - n) as real, x);
    assert Scaled(m, x) == Scaled(n, x) + (m - n) as real * x;
  }

  lemma ProductNonnegative(x: real, y: real)
    requires x >= 0.0 && y >= 0.0
    ensures x * y >= 0.0
  {
  }

  /** Audits at least h apart, from index n on, spread over at least the number of gaps times h. */
  lemma {:induction false} Spread(audits: seq<LearningAudit>, n: nat, m: nat, h: real)
    requires n <= m < |audits|
    requires forall i :: n < i < |audits| ==> Apart(audits, i, h)
    ensures audits[m].timestamp - audits[n].timestamp >= Scaled(m - n, h)
    decreases m
  {
    hide Scaled;
    ScaledSum(m - n - 1, h);
    if m > n {
      Spread(audits, n, m - 1, h);
      assert Apart(audits, m, h);
    }
  }

  lemma {:induction false} TotalBounded(audits: seq<LearningAudit>, name: string, cap: real)
    requires forall i :: 0 <= i < |audits| ==> Abs(Moved(audits[i], name)) <= cap
    ensures Abs(Total(audits, name)) <= Scaled(|audits|, cap)
  {
    hide Scaled, Moved;
    ScaledSum(|audits| - 1, cap);
    if audits != [] {
      TotalBounded(audits[..|audits| - 1], name, cap);
    }
  }

  /** Gaps that fit k times into a length fit at most its floor over h. */
  lemma GapsFit(k: int, h: real, length: real)
    requires h > 0.0 && Scaled(k, h) <= length
    ensures k <= (length / h).Floor
  {
    DivideThrough(k as real, h, length);
  }

  lemma DivideThrough(k: real, h: real, length: real)
    requires h > 0.0 && k * h <= length
    ensures k <= length / h
  {
    var q := length / h;
    assert q * h == length;
    if q < k {
      ProductPositive(k - q, h);
    }
  }

  lemma ProductPositive(x: real, y: real)
    requires x > 0.0 && y > 0.0
    ensures x * y > 0.0
  {
  }

  /** Over any stretch of a run whose learning audits fall within [from, to], with a cooldown h > 0 and no
      `adjust_weights`, no weight moves by more than (floor((to - from) / h) + 1) times the cap. */
  lemma BoundedDrift(a: Learner, setup: LearningSetup, ops: seq<Op>, from: real, to: real, name: string)
    requires Tracked(a) && setup.maxWeightDelta >= 0.0 && from <= to
    requires setup.cooldown.Some? && setup.cooldown.value > 0.0
    requires forall op :: op in ops ==> !op.Adjust? && ClockOk(op, from, to)
    ensures var b := PerformAll(a, setup, ops);
            Abs(WindowedTrust.WeightOf(b.weights, name) - WindowedTrust.WeightOf(a.weights, name))
            <= Scaled(((to - from) / setup.cooldown.value).Floor + 1, setup.maxWeightDelta)
  {
    hide PerformAll, Scaled, Moved, Total, WindowedTrust.WeightOf, ClockOk;
    RunSpan(a, setup, ops, from, to, name);
    var b := PerformAll(a, setup, ops);
    var n, h := |a.audits|, setup.cooldown.value;
    var fresh_ := b.audits[n..];
    TotalBounded(fresh_, name, setup.maxWeightDelta);
    FewAudits(b.audits, n, h, from, to);
    ScaledMonotone(|fresh_|, ((to - from) / h).Floor + 1, setup.maxWeightDelta);
  }

  lemma FewAudits(audits: seq<LearningAudit>, n: nat, h: real, from: real, to: real)
    requires n <= |audits| && h > 0.0 && from <= to
    requires forall i :: n < i < |audits| ==> Apart(audits, i, h)
    requires forall i :: n <= i < |audits| ==> Within(audits[i], from, to)
    ensures |audits| - n <= ((to - from) / h).Floor + 1
  {
    hide Scaled, Apart;
    if n < |audits| {
      Spread(audits, n, |audits| - 1, h);
      assert Within(audits[n], from, to) && Within(audits[|audits| - 1], from, to);
      GapsFit(|audits| - 1 - n, h, to - from);
    } else {
      ScaledSum(0, h);
      GapsFit(0, h, to - from);
    }
  }

  /** Every state of a run from a fresh scorer is one that BoundedDrift speaks of, `adjust_weights` or not. */
  lemma {:induction false} ReachableTracked(l: Learner, setup: LearningSetup, ops: seq<Op>)
    requires l.audits == []
    ensures Tracked(PerformAll(l, setup, ops))
  {
    hide Perform, Tracked;
    if ops == [] {
      FreshTracked(l);
    } else {
      ReachableTracked(l, setup, ops[..|ops| - 1]);
      StepTracked(PerformAll(l, setup, ops[..|ops| - 1]), setup, ops[|ops| - 1]);
    }
  }

  lemma FreshTracked(l: Learner)
    requires l.audits == []
    ensures Tracked(l)
  {
  }

  lemma StepTracked(l: Learner, setup: LearningSetup, op: Op)
    requires Tracked(l)
    ensures Tracked(Perform(l, setup, op))
  {
    hide CurrentValue, Changes, Considered, Largest, Adjusted, NamedWeights, EventName, JournalContextOf, EventContextOf,
         Clamp, Entry;
  }

  // ---- Learning and the value read ----

  ghost predicate Explicit(events: seq<Event>) {
    forall e :: e in events ==> e.delta.Some?
  }

  lemma {:induction false} FoldIgnoresWeights(p: Progress, events: seq<Event>, c: ScoringConfig, d: ScoringConfig)
    requires Explicit(events) && c.decay == d.decay
    ensures Fold(p, events, c) == Fold(p, events, d)
    decreases |events|
  {
    if events != [] {
      assert events[0] in events;
      FoldIgnoresWeights(Advance(p, events[0], c), events[1..], c, d);
    }
    hide Decay, Clamp;
  }

  lemma WindowMembers(events: seq<Event>, w: WindowConfig, now: real)
    ensures forall e :: e in FilterWindow(events, Some(w), now) ==> e in events
  {
    hide SortByTime, Keep, Sorted, InAge;
    var inAge := InAge(events, w, now);
    InAgeMembers(events, w, now);
    SortSorts(inAge);
    forall e | e in FilterWindow(events, Some(w), now) ensures e in events {
      assert e in multiset(SortByTime(inAge));
    }
  }

  lemma InAgeMembers(events: seq<Event>, w: WindowConfig, now: real)
    ensures forall e :: e in InAge(events, w, now) ==> e in events
  {
    if w.maxAgeHours.Some? {
      KeepMembers((e: Event) => e.timestamp >= now - w.maxAgeHours.value, events);
    }
    hide Keep;
  }

  lemma ScoreIgnoresWeights(events: seq<Event>, c: ScoringConfig, d: ScoringConfig, now: real)
    requires Explicit(events) && c.decay == d.decay && c.initialValue == d.initialValue
    ensures Score(events, c, now, false) == Score(events, d, now, false)
  {
    SortSorts(events);
    forall e | e in SortByTime(events) ensures e.delta.Some? {
      assert e in multiset(SortByTime(events));
    }
    hide SortByTime, Fold, Decay, Clamp;
    FoldIgnoresWeights(Start(SortByTime(events), c, now), SortByTime(events), c, d);
  }

  lemma ReadingIgnoresWeights(l: Learner, setup: LearningSetup, weights: map<string, real>, now: real)
    requires Explicit(l.events)
    ensures Reading(l.(weights := weights), setup, now) == Reading(l, setup, now)
  {
    hide FilterWindow, Score, WindowedTrust.Blend;
    WindowMembers(l.events, setup.window, now);
    var c := ScoringConfig(l.weights, l.initialValue, setup.decay);
    ScoreIgnoresWeights(FilterWindow(l.events, Some(setup.window), now), c, c.(weights := weights), now);
  }

  lemma {:induction false} ReachableExplicit(l: Learner, setup: LearningSetup, ops: seq<Op>)
    requires l.events == []
    ensures Explicit(PerformAll(l, setup, ops).events)
  {
    hide Perform;
    if ops != [] {
      ReachableExplicit(l, setup, ops[..|ops| - 1]);
      StepExplicit(PerformAll(l, setup, ops[..|ops| - 1]), setup, ops[|ops| - 1]);
      hide Explicit;
    }
  }

  lemma StepExplicit(l: Learner, setup: LearningSetup, op: Op)
    requires Explicit(l.events)
    ensures Explicit(Perform(l, setup, op).events)
  {
    hide CurrentValue, Changes, Considered, Largest, Adjusted, NamedWeights, EventName, JournalContextOf, EventContextOf,
         Clamp, Entry;
  }

  /** An event counts for good with the weight it was recorded under: learning or adjusting weights never changes
      what the scorer reads, at that instant or later. */
  lemma LearningLeavesValue(l: Learner, setup: LearningSetup, ops: seq<Op>, op: Op, now: real)
    requires l.events == [] && (op.Learn? || op.Adjust?)
    ensures var b := PerformAll(l, setup, ops); Reading(Perform(b, setup, op), setup, now) == Reading(b, setup, now)
  {
    ReachableExplicit(l, setup, ops);
    hide PerformAll, CurrentValue, Changes, Considered, Largest, Adjusted, NamedWeights;
    var b := PerformAll(l, setup, ops);
    ReadingIgnoresWeights(b, setup, Perform(b, setup, op).weights, now);
  }

  /** What the journal says of the last event or override is what the scorer read just before and just after it; and
      an override right after an event of another kind, and nothing else, gives learning that difference as a direction
      for the event's kind. */
  lemma JournalIsHonest(l: Learner, setup: LearningSetup, op: Op, at: real)
    requires (op.Set? || (op.Record? && !Unattributed(op.event, op.given))) && op.at == at
    ensures var l' := Perform(l, setup, op);
            && |l'.journal| == |l.journal| + 1 && l'.journal[..|l.journal|] == l.journal
            && l'.journal[|l.journal|].Direction() == Reading(l', setup, at) - Reading(l, setup, at)
            && l'.journal[|l.journal|].tierBefore == TierFor(Reading(l, setup, at))
            && l'.journal[|l.journal|].tierAfter == TierFor(Reading(l', setup, at))
            && l'.journal[|l.journal|].event == (if op.Set? then HumanOverride else op.event)
            && forall e ::
                 Directions(l'.journal, e)
                 == Directions(l.journal, e)
                    + (if (op.Set? || op.event == HumanOverride) && l.journal != []
                          && l.journal[|l.journal| - 1].event == e && e != HumanOverride
                       then [Reading(l', setup, at) - Reading(l, setup, at)] else [])
  {
    hide CurrentValue, EventName, WindowedTrust.WeightOf, Clamp, JournalContextOf, EventContextOf;
    var l' := Perform(l, setup, op);
    assert l'.journal[..|l.journal|] == l.journal;
  }

  // ---- The journal is read whole every time ----

  /** Every override that answers an event is counted once, under the kind it answers. */
  lemma {:induction false} ConsideredOnce(journal: seq<JournalEntry>)
    ensures Considered(journal)
         == |Directions(journal, Success)| + |Directions(journal, Failure)| + |Directions(journal, PolicyViolation)|
  {
    if journal != [] {
      ConsideredOnce(journal[..|journal| - 1]);
    }
  }

  lemma NoteMoved(changes: map<string, (real, real)>, weights: map<string, real>, e: TrustEvent, step: Option<real>,
                  name: string)
    ensures var noted := Note(changes, weights, e, step);
            if step.Some? && name == EventName(e) then name in noted && noted[name].1 - noted[name].0 == step.value
            else (name in noted <==> name in changes) && (name in changes ==> noted[name] == changes[name])
  {
    hide EventName, WindowedTrust.WeightOf;
  }

  lemma MovesByStep(l: Learner, rate: real, cap: real, e: TrustEvent, audit: LearningAudit)
    requires audit.weightChanges == Changes(l, rate, cap)
    ensures var step := Step(l.journal, e, rate, cap);
            Moved(audit, EventName(e)) == if step.Some? then step.value else 0.0
  {
    NeverAnswersOverride(l.journal);
    NamesDiffer(e, Success);
    NamesDiffer(e, Failure);
    NamesDiffer(e, PolicyViolation);
    var s, f, p := Step(l.journal, Success, rate, cap), Step(l.journal, Failure, rate, cap),
                   Step(l.journal, PolicyViolation, rate, cap);
    NoteMoved(map[], l.weights, Success, s, EventName(e));
    NoteMoved(Note(map[], l.weights, Success, s), l.weights, Failure, f, EventName(e));
    NoteMoved(Note(Note(map[], l.weights, Success, s), l.weights, Failure, f), l.weights, PolicyViolation, p,
              EventName(e));
    hide Note, EventName, Directions, Capped, Average, Raw;
  }

  /** The audit's largest delta bounds every weight movement and is one of them. */
  lemma LargestIsAttained(l: Learner, setup: LearningSetup, rate: real, now: real, auditNow: real)
    requires !Cooling(l, setup, now)
    ensures var audit := Learned(l, setup, rate, now, auditNow).audits[|l.audits|];
            && (forall e: TrustEvent :: Abs(Moved(audit, EventName(e))) <= audit.maxDeltaApplied)
            && exists e: TrustEvent :: Abs(Moved(audit, EventName(e))) == audit.maxDeltaApplied
  {
    hide Changes, Considered, Adjusted, Step, EventName, Moved, Directions;
    var cap := setup.maxWeightDelta;
    var audit := Learned(l, setup, rate, now, auditNow).audits[|l.audits|];
    MovesByStep(l, rate, cap, Success, audit);
    MovesByStep(l, rate, cap, Failure, audit);
    MovesByStep(l, rate, cap, PolicyViolation, audit);
    MovesByStep(l, rate, cap, HumanOverride, audit);
    NoStepForOverride(l.journal, rate, cap);
    forall e: TrustEvent ensures Abs(Moved(audit, EventName(e))) <= audit.maxDeltaApplied {
      assert e == Success || e == Failure || e == PolicyViolation || e == HumanOverride;
    }
    assert Abs(Moved(audit, EventName(Success))) == audit.maxDeltaApplied
        || Abs(Moved(audit, EventName(Failure))) == audit.maxDeltaApplied
        || Abs(Moved(audit, EventName(PolicyViolation))) == audit.maxDeltaApplied;
  }

  lemma NoStepForOverride(journal: seq<JournalEntry>, rate: real, cap: real)
    ensures Step(journal, HumanOverride, rate, cap) == None
  {
    NeverAnswersOverride(journal);
  }

  lemma SignOfProduct(x: real, y: real)
    requires y > 0.0
    ensures x * y > 0.0 <==> x > 0.0
    ensures x / y > 0.0 <==> x > 0.0
  {
    var q := x / y;
    assert q * y == x;
    if q > 0.0 { ProductPositive(q, y); } else { ProductNonnegative(-q, y); }
    if x > 0.0 { ProductPositive(x, y); } else { ProductNonnegative(-x, y); }
  }

  /** A weight goes up exactly when the overrides that answered its events raised the value on balance. */
  lemma FollowsOverrides(l: Learner, rate: real, cap: real, e: TrustEvent, audit: LearningAudit)
    requires audit.weightChanges == Changes(l, rate, cap)
    requires rate > 0.0 && cap > 0.0
    ensures Moved(audit, EventName(e)) > 0.0 <==> Sum(Directions(l.journal, e)) > 0.0
  {
    hide Changes, Moved, EventName, Directions;
    MovesByStep(l, rate, cap, e, audit);
    var directions := Directions(l.journal, e);
    if directions != [] {
      SignOfProduct(Sum(directions), |directions| as real);
      SignOfProduct(Average(directions), rate);
      hide Average, Raw;
      assert Raw(Average(directions), rate) > 0.0 <==> Sum(directions) > 0.0;
    }
  }

  lemma {:induction false} SumOfConcat(s: seq<real>, t: seq<real>)
    ensures Sum(s + t) == Sum(s) + Sum(t)
    ensures |s| == 1 ==> Sum(s) == s[0]
  {
    if t == [] {
      assert s + t == s;
    } else {
      assert (s + t)[..|s + t| - 1] == s + t[..|t| - 1];
      SumOfConcat(s, t[..|t| - 1]);
    }
  }

  function Times(x: real, y: real): real {
    x * y
  }

  lemma TimesGrows(x: real, y: real, n: real)
    requires n > 0.0
    ensures Times(x, n) <= Times(y, n) <==> x <= y
    ensures Times(-x, n) == -Times(x, n)
  {
    if x <= y { ProductNonnegative(y - x, n); } else { ProductPositive(x - y, n); }
    assert Times(y, n) - Times(x, n) == (y - x) * n;
  }

  lemma RawTimesCount(sum: real, n: real, rate: real)
    requires n > 0.0
    ensures Times(Raw(sum / n, rate), n) == Times(rate, sum)
  {
    var q := sum / n;
    assert q * n == sum;
    assert q * rate * n == rate * (q * n);
  }

  /** How far a weight moves when it learns: with n overrides of its events, whose movements of the value add up to a
      sum, it moves by rate times their average, and by the cap in the same direction when that is more than the cap. */
  lemma MovesByAverage(l: Learner, setup: LearningSetup, rate: real, now: real, auditNow: real, e: TrustEvent)
    requires !Cooling(l, setup, now) && setup.maxWeightDelta >= 0.0
    ensures var d := Moved(Learned(l, setup, rate, now, auditNow).audits[|l.audits|], EventName(e));
            var n, cap := |Directions(l.journal, e)| as real, setup.maxWeightDelta;
            var pull := Times(rate, Sum(Directions(l.journal, e)));
            && (n == 0.0 ==> d == 0.0)
            && (n > 0.0 && Abs(pull) <= Times(cap, n) ==> Times(d, n) == pull)
            && (n > 0.0 && Abs(pull) > Times(cap, n) ==> d == if pull > 0.0 then cap else -cap)
  {
    hide Changes, Moved, EventName, Directions, Considered, Largest, Adjusted;
    var directions, cap := Directions(l.journal, e), setup.maxWeightDelta;
    MovesByStep(l, rate, cap, e, Learned(l, setup, rate, now, auditNow).audits[|l.audits|]);
    hide Learned;
    if directions != [] {
      var n, raw := |directions| as real, Raw(Average(directions), rate);
      RawTimesCount(Sum(directions), n, rate);
      TimesGrows(raw, cap, n);
      TimesGrows(-cap, raw, n);
      TimesGrows(cap, cap, n);
      TimesGrows(0.0, raw, n);
      ZeroTimes(n);
      hide Times, Raw, Average;
    }
  }

  lemma ZeroTimes(n: real)
    ensures Times(0.0, n) == 0.0
  {
  }

  /** Learning does not consume the journal: run again after the cooldown with nothing new to learn from, it moves
      every weight by the same amount once more. */
  lemma LearningRepeats(l: Learner, setup: LearningSetup, rate: real, t0: real, t1: real, u0: real, u1: real,
                        e: TrustEvent)
    requires !Cooling(l, setup, t0) && !Cooling(Learned(l, setup, rate, t0, t1), setup, u0)
    ensures var l1 := Learned(l, setup, rate, t0, t1);
            var l2 := Learned(l1, setup, rate, u0, u1);
            var n := |l.audits|;
            && |l2.audits| == n + 2
            && Moved(l2.audits[n + 1], EventName(e)) == Moved(l2.audits[n], EventName(e))
  {
    var l1 := Learned(l, setup, rate, t0, t1);
    var l2 := Learned(l1, setup, rate, u0, u1);
    hide Changes, Considered, Largest, Adjusted, EventName, Moved;
    MovesByStep(l, rate, setup.maxWeightDelta, e, l2.audits[|l.audits|]);
    MovesByStep(l1, rate, setup.maxWeightDelta, e, l2.audits[|l.audits| + 1]);
  }
}
