/** LearningTrustScorer of packages/presidium-contrib/src/presidium_contrib/trust/scorer.py: windowed scoring with
    event weights that are learned, within bounds, from the human overrides in a decision journal. */
module LearningTrust {
  import opened Common
  import opened Model
  import opened Scoring
  import WindowedTrust

  datatype Remark = Words(text: string) | Number(value: real)

  /** The context argument: absent, an EventContext with its reason and metadata, or a plain dict. */
  datatype Given =
    | Nothing
    | Attributed(context: EventContext, reason: Option<string>, metadata: map<string, Remark>)
    | Loose(entries: map<string, Remark>)

  datatype JournalEntry = JournalEntry(
    event: TrustEvent,
    valueBefore: real,
    valueAfter: real,
    tierBefore: TrustTier,
    tierAfter: TrustTier,
    timestamp: real,
    context: map<string, Remark>)
  {
    /** How far the recorded event moved the value. */
    function Direction(): real { valueAfter - valueBefore }
  }

  datatype LearningAudit = LearningAudit(
    timestamp: real,
    eventsConsidered: nat,
    weightChanges: map<string, (real, real)>,
    maxDeltaApplied: real)

  datatype LearningSetup = LearningSetup(
    decay: DecayConfig,
    window: WindowConfig,
    minEvents: int,
    maxWeightDelta: real,
    cooldown: Option<real>)

  datatype Learner = Learner(
    initialValue: real,
    events: seq<Event>,
    nSeen: nat,
    lastUpdated: real,
    weights: map<string, real>,
    lastLearnAt: Option<real>,
    journal: seq<JournalEntry>,
    audits: seq<LearningAudit>)

  // ---- Recording ----

  function CurrentValue(initialValue: real, events: seq<Event>, nSeen: nat, weights: map<string, real>,
                        setup: LearningSetup, now: real): real
  {
    var config := ScoringConfig(weights, initialValue, setup.decay);
    var computed := WindowedScore(events, config, Some(setup.window), now, false);
    WindowedTrust.Blend(initialValue, computed, nSeen, setup.minEvents)
  }

  function Reading(l: Learner, setup: LearningSetup, now: real): real {
    CurrentValue(l.initialValue, l.events, l.nSeen, l.weights, setup, now)
  }

  predicate Unattributed(event: TrustEvent, given: Given) {
    event == HumanOverride && (!given.Attributed? || given.context.actorId.None?)
  }

  function EventContextOf(given: Given): Option<EventContext> {
    match given
    case Nothing => None
    case Attributed(context, _, _) => Some(context)
    case Loose(_) => Some(EventContext(true, None))
  }

  function WithRemark(m: map<string, Remark>, key: string, text: Option<string>): map<string, Remark> {
    if text.Some? && text.value != "" then m[key := Words(text.value)] else m
  }

  function JournalContextOf(given: Given): map<string, Remark> {
    match given
    case Nothing => map[]
    case Attributed(context, reason, metadata) =>
      WithRemark(WithRemark(metadata, "reason", reason), "actor_id", context.actorId)
    case Loose(entries) => entries
  }

  /** The entry for an event between two readings, with the tier of each. */
  function Entry(event: TrustEvent, before: real, after: real, now: real, context: map<string, Remark>): JournalEntry {
    JournalEntry(event, before, after, TierFor(before), TierFor(after), now, context)
  }

  function Recorded(l: Learner, setup: LearningSetup, event: TrustEvent, given: Given, id: string, now: real): Learner {
    if Unattributed(event, given) then l
    else
      var weight := WindowedTrust.WeightOf(l.weights, EventName(event));
      var e := Event(id, now, EventName(event), Some(weight), EventContextOf(given));
      var l' := l.(events := l.events + [e], nSeen := l.nSeen + 1, lastUpdated := now);
      var entry := Entry(event, Reading(l, setup, now), Reading(l', setup, now), now, JournalContextOf(given));
      l'.(journal := l.journal + [entry])
  }

  function WithValue(l: Learner, setup: LearningSetup, value: real, now: real): Learner {
    var l' := l.(initialValue := Clamp(value), events := [], nSeen := 0, lastUpdated := now);
    var entry := Entry(HumanOverride, Reading(l, setup, now), Reading(l', setup, now), now,
                       map["set_value" := Number(value)]);
    l'.(journal := l.journal + [entry])
  }

  // ---- Learning ----

  /** Entry i is a human override that answers a decision of another kind. */
  predicate Answers(journal: seq<JournalEntry>, i: nat)
    requires i < |journal|
  {
    journal[i].event == HumanOverride && i > 0 && journal[i - 1].event != HumanOverride
  }

  /** How far each override of an event of kind e moved the value, in journal order. */
  function Directions(journal: seq<JournalEntry>, e: TrustEvent): seq<real> {
    if journal == [] then []
    else
      var n := |journal| - 1;
      Directions(journal[..n], e)
      + (if Answers(journal, n) && journal[n - 1].event == e then [journal[n].Direction()] else [])
  }

  function Considered(journal: seq<JournalEntry>): nat {
    if journal == [] then 0
    else Considered(journal[..|journal| - 1]) + (if Answers(journal, |journal| - 1) then 1 else 0)
  }

  function Sum(s: seq<real>): real {
    if s == [] then 0.0 else Sum(s[..|s| - 1]) + s[|s| - 1]
  }

  function Capped(raw: real, cap: real): real {
    Max(-cap, Min(cap, raw))
  }

  function Average(directions: seq<real>): real
    requires directions != []
  {
    Sum(directions) / |directions| as real
  }

  function Raw(average: real, rate: real): real {
    average * rate
  }

  /** The change learned for events of kind e, when some override answered one. */
  function Step(journal: seq<JournalEntry>, e: TrustEvent, rate: real, cap: real): Option<real> {
    var directions := Directions(journal, e);
    if directions == [] then None else Some(Capped(Raw(Average(directions), rate), cap))
  }

  function Note(changes: map<string, (real, real)>, weights: map<string, real>, e: TrustEvent, step: Option<real>)
    : map<string, (real, real)>
  {
    if step.None? then changes
    else
      var before := WindowedTrust.WeightOf(weights, EventName(e));
      changes[EventName(e) := (before, before + step.value)]
  }

  function Size(step: Option<real>): real {
    if step.None? then 0.0 else Abs(step.value)
  }

  /** The steps for the three kinds an override can answer, each with the weight before and after it. */
  function Noted(weights: map<string, real>, s: Option<real>, f: Option<real>, p: Option<real>)
    : map<string, (real, real)>
  {
    Note(Note(Note(map[], weights, Success, s), weights, Failure, f), weights, PolicyViolation, p)
  }

  function Changes(l: Learner, rate: real, cap: real): map<string, (real, real)> {
    Noted(l.weights, Step(l.journal, Success, rate, cap), Step(l.journal, Failure, rate, cap),
          Step(l.journal, PolicyViolation, rate, cap))
  }

  function LargestOf(s: Option<real>, f: Option<real>, p: Option<real>): real {
    Max(Size(s), Max(Size(f), Size(p)))
  }

  function Largest(l: Learner, rate: real, cap: real): real {
    LargestOf(Step(l.journal, Success, rate, cap), Step(l.journal, Failure, rate, cap),
              Step(l.journal, PolicyViolation, rate, cap))
  }

  function Adjusted(weights: map<string, real>, changes: map<string, (real, real)>): map<string, real> {
    weights + map n | n in changes :: changes[n].1
  }

  predicate Cooling(l: Learner, setup: LearningSetup, now: real) {
    setup.cooldown.Some? && l.lastLearnAt.Some? && now - l.lastLearnAt.value < setup.cooldown.value
  }

  function Learned(l: Learner, setup: LearningSetup, rate: real, now: real, auditNow: real): Learner {
    if Cooling(l, setup, now) then l
    else
      var changes := Changes(l, rate, setup.maxWeightDelta);
      var audit := LearningAudit(auditNow, Considered(l.journal), changes, Largest(l, rate, setup.maxWeightDelta));
      l.(weights := Adjusted(l.weights, changes), lastLearnAt := Some(auditNow), audits := l.audits + [audit])
  }

  function NamedWeights(new_: map<TrustEvent, real>): map<string, real> {
    var s := if Success in new_ then map[EventName(Success) := new_[Success]] else map[];
    var f := if Failure in new_ then s[EventName(Failure) := new_[Failure]] else s;
    var p := if PolicyViolation in new_ then f[EventName(PolicyViolation) := new_[PolicyViolation]] else f;
    if HumanOverride in new_ then p[EventName(HumanOverride) := new_[HumanOverride]] else p
  }

  // ---- The order of the second loop does not matter ----

  ghost function Masked(done: set<TrustEvent>, e: TrustEvent, step: Option<real>): Option<real> {
    if e in done then step else None
  }

  ghost function ChangesOf(done: set<TrustEvent>, weights: map<string, real>, step: TrustEvent -> Option<real>)
    : map<string, (real, real)>
  {
    Noted(weights, Masked(done, Success, step(Success)), Masked(done, Failure, step(Failure)),
          Masked(done, PolicyViolation, step(PolicyViolation)))
  }

  ghost function LargestIn(done: set<TrustEvent>, step: TrustEvent -> Option<real>): real {
    LargestOf(Masked(done, Success, step(Success)), Masked(done, Failure, step(Failure)),
              Masked(done, PolicyViolation, step(PolicyViolation)))
  }

  lemma NamesDiffer(e: TrustEvent, f: TrustEvent)
    ensures EventName(e) == EventName(f) <==> e == f
  {
    assert EventName(e)[0] == EventName(f)[0] ==> e == f;
  }

  lemma MoreChanges(done: set<TrustEvent>, kind: TrustEvent, weights: map<string, real>, step: TrustEvent -> Option<real>)
    requires kind !in done && kind != HumanOverride
    ensures ChangesOf(done + {kind}, weights, step) == Note(ChangesOf(done, weights, step), weights, kind, step(kind))
    ensures LargestIn(done + {kind}, step) == Max(LargestIn(done, step), Size(step(kind)))
    ensures EventName(kind) !in ChangesOf(done, weights, step)
  {
    NamesDiffer(Success, Failure);
    NamesDiffer(Success, PolicyViolation);
    NamesDiffer(Failure, PolicyViolation);
    hide EventName, WindowedTrust.WeightOf;
  }

  lemma AdjustedMore(weights: map<string, real>, changes: map<string, (real, real)>, name: string, change: (real, real))
    ensures Adjusted(weights, changes[name := change]) == Adjusted(weights, changes)[name := change.1]
  {
  }

  lemma NoneYet()
    ensures Considered([]) == 0 && forall e :: Directions([], e) == []
  {
  }

  /** One more turn of the first loop. */
  lemma OneMore(journal: seq<JournalEntry>, i: nat)
    requires i < |journal|
    ensures Considered(journal[..i + 1]) == Considered(journal[..i]) + (if Answers(journal, i) then 1 else 0)
    ensures forall e ::
              Directions(journal[..i + 1], e)
              == Directions(journal[..i], e)
                 + (if Answers(journal, i) && journal[i - 1].event == e then [journal[i].Direction()] else [])
  {
    assert journal[..i + 1][..i] == journal[..i];
  }

  lemma UnchangedWeight(weights: map<string, real>, changes: map<string, (real, real)>, name: string)
    requires name !in changes
    ensures WindowedTrust.WeightOf(Adjusted(weights, changes), name) == WindowedTrust.WeightOf(weights, name)
  {
  }

  lemma NothingYet(weights: map<string, real>, step: TrustEvent -> Option<real>)
    ensures ChangesOf({}, weights, step) == map[] && LargestIn({}, step) == 0.0
    ensures Adjusted(weights, map[]) == weights
  {
  }

  /** Noting a step against the weights read so far is updating the weights by it. */
  lemma NoteIsUpdate(changes: map<string, (real, real)>, was: map<string, real>, after: map<string, real>,
                     e: TrustEvent, step: Option<real>)
    requires step.Some? && EventName(e) !in changes
    requires after == Adjusted(was, changes)[EventName(e) :=
                        WindowedTrust.WeightOf(Adjusted(was, changes), EventName(e)) + step.value]
    ensures after == Adjusted(was, Note(changes, was, e, step))
    ensures Note(changes, Adjusted(was, changes), e, step) == Note(changes, was, e, step)
  {
    UnchangedWeight(was, changes, EventName(e));
    var before := WindowedTrust.WeightOf(was, EventName(e));
    AdjustedMore(was, changes, EventName(e), (before, before + step.value));
    hide Adjusted, EventName, WindowedTrust.WeightOf;
  }

  lemma AllSteps(done: set<TrustEvent>, weights: map<string, real>, step: TrustEvent -> Option<real>,
                 journal: seq<JournalEntry>, rate: real, cap: real)
    requires forall e :: step(e) == Step(journal, e, rate, cap)
    requires forall e :: e in done <==> Directions(journal, e) != []
    ensures ChangesOf(done, weights, step)
         == Noted(weights, Step(journal, Success, rate, cap), Step(journal, Failure, rate, cap),
                  Step(journal, PolicyViolation, rate, cap))
    ensures LargestIn(done, step)
         == LargestOf(Step(journal, Success, rate, cap), Step(journal, Failure, rate, cap),
                      Step(journal, PolicyViolation, rate, cap))
  {
    hide Noted, LargestOf, Directions, Average, Capped;
    assert Masked(done, Success, step(Success)) == step(Success);
    assert Masked(done, Failure, step(Failure)) == step(Failure);
    assert Masked(done, PolicyViolation, step(PolicyViolation)) == step(PolicyViolation);
  }

  lemma {:induction false} NeverAnswersOverride(journal: seq<JournalEntry>)
    ensures Directions(journal, HumanOverride) == []
  {
    if journal != [] {
      NeverAnswersOverride(journal[..|journal| - 1]);
    }
  }

  // ---- The scorer ----

  class LearningTrustScorer {
    const setup: LearningSetup
    var initialValue: real
    var events: seq<Event>
    var nSeen: nat
    var lastUpdated: real
    var weights: map<string, real>
    var lastLearnAt: Option<real>
    var journal: seq<JournalEntry>
    var audits: seq<LearningAudit>

    ghost function State(): Learner
      reads this
    {
      Learner(initialValue, events, nSeen, lastUpdated, weights, lastLearnAt, journal, audits)
    }

    constructor (setup: LearningSetup, initialValue: real, weights: map<TrustEvent, real>, now: real)
      ensures this.setup == setup
      ensures State() == Learner(Clamp(initialValue), [], 0, now, NamedWeights(weights), None, [], [])
    {
      this.setup := setup;
      this.initialValue := Clamp(initialValue);
      this.weights := NamedWeights(weights);
      events, nSeen, lastUpdated, lastLearnAt, journal, audits := [], 0, now, None, [], [];
    }

    method ReadValue(now: real) returns (v: real)
      ensures v == Reading(State(), setup, now)
    {
      v := CurrentValue(initialValue, events, nSeen, weights, setup, now);
    }

    method RecordEvent(event: TrustEvent, given: Given, id: string, now: real) returns (refused: bool)
      modifies this
      ensures refused <==> Unattributed(event, given)
      ensures State() == Recorded(old(State()), setup, event, given, id, now)
    {
      hide CurrentValue, EventName, WithRemark;
      if event == HumanOverride {
        if !given.Attributed? || given.context.actorId.None? {
          return true;
        }
      }
      var valueBefore := ReadValue(now);
      var tierBefore := TierFor(valueBefore);
      var weight := WindowedTrust.WeightOf(weights, EventName(event));
      events := events + [Event(id, now, EventName(event), Some(weight), EventContextOf(given))];
      nSeen := nSeen + 1;
      lastUpdated := now;
      var valueAfter := ReadValue(now);
      var entry := JournalEntry(event, valueBefore, valueAfter, tierBefore, TierFor(valueAfter), now,
                                JournalContextOf(given));
      journal := journal + [entry];
      refused := false;
    }

    method SetValue(value: real, now: real)
      modifies this
      ensures State() == WithValue(old(State()), setup, value, now)
    {
      hide CurrentValue;
      var valueBefore := ReadValue(now);
      var tierBefore := TierFor(valueBefore);
      initialValue := Clamp(value);
      events := [];
      nSeen := 0;
      lastUpdated := now;
      var valueAfter := ReadValue(now);
      var entry := JournalEntry(HumanOverride, valueBefore, valueAfter, tierBefore, TierFor(valueAfter), now,
                                map["set_value" := Number(value)]);
      journal := journal + [entry];
    }

    method AdjustWeights(new_: map<TrustEvent, real>)
      modifies this
      ensures State() == old(State()).(weights := old(weights) + NamedWeights(new_))
    {
      weights := weights + NamedWeights(new_);
    }

    /** The first loop of `learn_from_history`: the directions by kind of event, and how many there are. */
    method Collect() returns (adjustments: map<TrustEvent, seq<real>>, considered: nat)
      ensures forall e :: e in adjustments <==> Directions(journal, e) != []
      ensures forall e :: e in adjustments ==> adjustments[e] == Directions(journal, e)
      ensures considered == Considered(journal)
    {
      hide Directions, Considered;
      NoneYet();
      adjustments, considered := map[], 0;
      for i := 0 to |journal|
        invariant forall e :: e in adjustments <==> Directions(journal[..i], e) != []
        invariant forall e :: e in adjustments ==> adjustments[e] == Directions(journal[..i], e)
        invariant considered == Considered(journal[..i])
      {
        var entry := journal[i];
        OneMore(journal, i);
        if entry.event != HumanOverride || i == 0 || journal[i - 1].event == HumanOverride {
          continue;
        }
        var kind := journal[i - 1].event;
        var earlier := if kind in adjustments then adjustments[kind] else [];
        adjustments := adjustments[kind := earlier + [entry.valueAfter - entry.valueBefore]];
        considered := considered + 1;
      }
      assert journal[..|journal|] == journal;
    }

    method AverageOf(directions: seq<real>) returns (r: real)
      requires directions != []
      ensures r == Average(directions)
    {
      var total := 0.0;
      for i := 0 to |directions|
        invariant total == Sum(directions[..i])
      {
        assert directions[..i + 1][..i] == directions[..i];
        total := total + directions[i];
      }
      assert directions[..|directions|] == directions;
      r := total / |directions| as real;
    }

    /** The body of the second loop for one kind of event. */
    method Apply(kind: TrustEvent, directions: seq<real>, rate: real, changes: map<string, (real, real)>, largest: real)
        returns (changes': map<string, (real, real)>, largest': real)
      requires directions == Directions(journal, kind) && directions != []
      modifies this`weights
      ensures var step := Step(journal, kind, rate, setup.maxWeightDelta);
              && step.Some?
              && changes' == Note(changes, old(weights), kind, step)
              && largest' == Max(largest, Size(step))
              && weights
                 == old(weights)[EventName(kind) := WindowedTrust.WeightOf(old(weights), EventName(kind)) + step.value]
    {
      hide Directions, Capped, EventName, Average, WindowedTrust.WeightOf, Raw;
      var average := AverageOf(directions);
      var capped := Capped(Raw(average, rate), setup.maxWeightDelta);
      var before := WindowedTrust.WeightOf(weights, EventName(kind));
      weights := weights[EventName(kind) := before + capped];
      changes' := changes[EventName(kind) := (before, before + capped)];
      largest' := Max(largest, Abs(capped));
    }

    method ApplyAll(adjustments: map<TrustEvent, seq<real>>, rate: real)
        returns (changes: map<string, (real, real)>, largest: real)
      requires forall e :: e in adjustments <==> Directions(journal, e) != []
      requires forall e :: e in adjustments ==> adjustments[e] == Directions(journal, e)
      modifies this`weights
      ensures changes == Changes(old(State()), rate, setup.maxWeightDelta)
      ensures largest == Largest(old(State()), rate, setup.maxWeightDelta)
      ensures weights == Adjusted(old(weights), changes)
    {
      hide Directions, Step, Note, Noted, LargestOf, Masked, Adjusted, EventName, WindowedTrust.WeightOf, Size;
      changes, largest := map[], 0.0;
      var remaining := adjustments.Keys;
      ghost var was, entries, cap := weights, journal, setup.maxWeightDelta;
      ghost var step := (e: TrustEvent) => Step(entries, e, rate, cap);
      ghost var done: set<TrustEvent> := {};
      NeverAnswersOverride(journal);
      NothingYet(was, step);
      while remaining != {}
        invariant done + remaining == adjustments.Keys && done !! remaining
        invariant changes == ChangesOf(done, was, step) && largest == LargestIn(done, step)
        invariant weights == Adjusted(was, changes)
        decreases remaining
      {
        var kind :| kind in remaining;
        MoreChanges(done, kind, was, step);
        UnchangedWeight(was, changes, EventName(kind));
        ghost var earlier := changes;
        changes, largest := Apply(kind, adjustments[kind], rate, changes, largest);
        NoteIsUpdate(earlier, was, weights, kind, step(kind));
        remaining, done := remaining - {kind}, done + {kind};
      }
      AllSteps(done, was, step, entries, rate, cap);
    }

    method LearnFromHistory(rate: real, now: real, auditNow: real) returns (result: map<string, real>)
      modifies this
      ensures State() == Learned(old(State()), setup, rate, now, auditNow)
      ensures result == weights
    {
      if setup.cooldown.Some? && lastLearnAt.Some? && now - lastLearnAt.value < setup.cooldown.value {
        return weights;
      }
      var adjustments, considered := Collect();
      var changes, largest := ApplyAll(adjustments, rate);
      lastLearnAt := Some(auditNow);
      audits := audits + [LearningAudit(auditNow, considered, changes, largest)];
      result := weights;
    }
  }
}
