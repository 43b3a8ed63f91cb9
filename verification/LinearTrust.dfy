/** The default trust scorer of packages/presidium/src/presidium/trust/core.py.
    Time is a real number of hours. `LinearState` is the scorer's field values;
    the class updates those fields in place and is specified by functions on them. */
module LinearTrust {
  import opened Common
  import opened Model

  const DEFAULT_DECAY_RATE := 0.01

  datatype LinearState = LinearState(
    stored: real,
    decayRate: real,
    ceiling: Option<real>,
    lastPositive: real,
    lastUpdated: real)

  /** What `hours` of decay at `rate` take away. */
  function DecayOver(rate: real, hours: real): real {
    rate * hours
  }

  /** The stored value less the decay since the last positive signal, before any ceiling. */
  function Decayed(s: LinearState, now: real): real {
    Max(0.0, s.stored - DecayOver(s.decayRate, now - s.lastPositive))
  }

  function Reading(s: LinearState, now: real): real {
    match s.ceiling
    case None => Decayed(s, now)
    case Some(c) => Min(Decayed(s, now), c)
  }

  function Initial(value: real, decayRate: real, ceiling: Option<real>, now: real): LinearState {
    LinearState(Clamp(value), decayRate, ceiling, now, now)
  }

  /** A HUMAN_OVERRIDE event has no delta of its own. */
  function Delta(event: TrustEvent): Option<real> {
    match event
    case Success => Some(0.02)
    case Failure => Some(-0.05)
    case PolicyViolation => Some(-0.10)
    case HumanOverride => None
  }

  /** Decay is materialised on every event, but the decay clock restarts on SUCCESS only. */
  function AfterEvent(s: LinearState, event: TrustEvent, now: real): LinearState {
    var decayed := Decayed(s, now);
    s.(stored := match Delta(event) case None => decayed case Some(d) => Clamp(decayed + d),
       lastPositive := if event == Success then now else s.lastPositive,
       lastUpdated := now)
  }

  function AfterSet(s: LinearState, value: real, now: real): LinearState {
    s.(stored := Clamp(value), lastPositive := now, lastUpdated := now)
  }

  class LinearTrustScore {
    var storedValue: real
    const decayRate: real
    const ceiling: Option<real>
    var lastPositiveSignal: real
    var lastUpdated: real

    ghost function State(): LinearState
      reads this
    {
      LinearState(storedValue, decayRate, ceiling, lastPositiveSignal, lastUpdated)
    }

    constructor (initialValue: real, decayRate: real, ceiling: Option<real>, now: real)
      ensures State() == Initial(initialValue, decayRate, ceiling, now)
    {
      this.storedValue := Max(0.0, Min(1.0, initialValue));
      this.decayRate := decayRate;
      this.ceiling := ceiling;
      this.lastPositiveSignal := now;
      this.lastUpdated := now;
    }

    method Value(now: real) returns (v: real)
      ensures v == Reading(State(), now)
    {
      var elapsedHours := now - lastPositiveSignal;
      var decayed := Max(0.0, storedValue - decayRate * elapsedHours);
      if ceiling.Some? {
        return Min(decayed, ceiling.value);
      }
      return decayed;
    }

    method RecordEvent(event: TrustEvent, now: real)
      modifies this
      ensures State() == AfterEvent(old(State()), event, now)
    {
      storedValue := Max(0.0, storedValue - decayRate * (now - lastPositiveSignal));
      assert storedValue == Decayed(old(State()), now);
      var delta := Delta(event);
      if delta.Some? {
        storedValue := Max(0.0, Min(1.0, storedValue + delta.value));
      }
      if event == Success {
        lastPositiveSignal := now;
      }
      lastUpdated := now;
    }

    method SetValue(value: real, now: real)
      modifies this
      ensures State() == AfterSet(old(State()), value, now)
    {
      storedValue := Max(0.0, Min(1.0, value));
      lastPositiveSignal := now;
      lastUpdated := now;
    }
  }
}

/** What a LinearTrustScore reads over whole runs of events and overrides. */
module LinearTrustLaws {
  import opened Common
  import opened Model
  import opened LinearTrust

  datatype ScorerOp = Event(event: TrustEvent, at: real) | Override(value: real, at: real)

  function Apply(s: LinearState, op: ScorerOp): LinearState {
    match op
    case Event(e, at) => AfterEvent(s, e, at)
    case Override(v, at) => AfterSet(s, v, at)
  }

  function Run(s: LinearState, ops: seq<ScorerOp>): LinearState
    decreases |ops|
  {
    if ops == [] then s else Run(Apply(s, ops[0]), ops[1..])
  }

  predicate Positive(op: ScorerOp) {
    op.Override? || op.event == Success
  }

  /** The clock never runs backwards, starting at `from`. */
  ghost predicate Ordered(ops: seq<ScorerOp>, from: real) {
    ops == [] || (from <= ops[0].at && Ordered(ops[1..], ops[0].at))
  }

  ghost function LastTime(ops: seq<ScorerOp>, from: real): real {
    if ops == [] then from else ops[|ops| - 1].at
  }

  /** A scorer as the constructor and every operation leave it, at a time no earlier than its last signal. */
  ghost predicate Healthy(s: LinearState, now: real) {
    0.0 <= s.stored <= 1.0 && 0.0 <= s.decayRate && s.lastPositive <= now
  }

  lemma {:induction false} RunSplit(s: LinearState, xs: seq<ScorerOp>, ys: seq<ScorerOp>)
    ensures Run(s, xs + ys) == Run(Run(s, xs), ys)
    decreases |xs|
  {
    hide DecayOver;
    if xs == [] {
      assert xs + ys == ys;
    } else {
      assert (xs + ys)[1..] == xs[1..] + ys;
      RunSplit(Apply(s, xs[0]), xs[1..], ys);
    }
  }

  lemma ApplyHealthy(s: LinearState, op: ScorerOp)
    requires Healthy(s, op.at)
    ensures Healthy(Apply(s, op), op.at)
    ensures Apply(s, op).decayRate == s.decayRate && Apply(s, op).ceiling == s.ceiling
  {
    hide DecayOver;
    ChargeNonNegative(s.decayRate, op.at - s.lastPositive);
  }

  lemma {:induction false} RunHealthy(s: LinearState, ops: seq<ScorerOp>, from: real)
    requires Healthy(s, from) && Ordered(ops, from)
    ensures Healthy(Run(s, ops), LastTime(ops, from))
    ensures Run(s, ops).decayRate == s.decayRate && Run(s, ops).ceiling == s.ceiling
    decreases |ops|
  {
    hide DecayOver;
    if ops != [] {
      ApplyHealthy(s, ops[0]);
      RunHealthy(Apply(s, ops[0]), ops[1..], ops[0].at);
    }
  }

  // ---- The ceiling acts on the read path only ----

  lemma {:induction false} CeilingNeverStored(s: LinearState, ops: seq<ScorerOp>)
    ensures Run(s, ops).(ceiling := None) == Run(s.(ceiling := None), ops)
    ensures Run(s, ops).ceiling == s.ceiling
    decreases |ops|
  {
    hide DecayOver;
    if ops != [] {
      CeilingNeverStored(Apply(s, ops[0]), ops[1..]);
    }
  }

  /** A capped scorer reads, at every instant of every run, the lesser of its ceiling and
      what an uncapped twin reads. */
  lemma CapTransparency(s: LinearState, ops: seq<ScorerOp>, ceiling: real, now: real)
    requires s.ceiling == Some(ceiling)
    ensures Reading(Run(s, ops), now) == Min(ceiling, Reading(Run(s.(ceiling := None), ops), now))
  {
    hide DecayOver;
    CeilingNeverStored(s, ops);
    var capped, bare := Run(s, ops), Run(s.(ceiling := None), ops);
    assert bare == capped.(ceiling := None);
    assert Decayed(bare, now) == Decayed(capped, now);
  }

  // ---- What a positive signal does ----

  function Within(value: real): real {
    if value < 0.0 then 0.0 else if value > 1.0 then 1.0 else value
  }

  /** After a SUCCESS the uncapped scorer reads 0.02 more than it did, within [0, 1], and after an override the value
      given, within [0, 1]; from there it loses its rate every hour, down to zero. */
  lemma PositiveSignal(s: LinearState, value: real, now: real, later: real)
    requires s.ceiling == None
    ensures var rest := DecayOver(s.decayRate, later - now);
            var raised := Within(Reading(s, now) + 0.02) - rest;
            var set_ := Within(value) - rest;
            && Reading(AfterEvent(s, Success, now), later) == (if raised > 0.0 then raised else 0.0)
            && Reading(AfterSet(s, value, now), later) == (if set_ > 0.0 then set_ else 0.0)
  {
    hide DecayOver;
  }

  /** Every operation notes when it happened. */
  lemma LastUpdated(s: LinearState, op: ScorerOp)
    ensures Apply(s, op).lastUpdated == op.at
  {
    hide DecayOver;
  }

  // ---- Closed form since the last positive signal ----

  function Penalty(event: TrustEvent): real {
    match event
    case Success => 0.0
    case Failure => 0.05
    case PolicyViolation => 0.10
    case HumanOverride => 0.0
  }

  /** Each non-positive event charges its own penalty and, again, all the decay since `p`. */
  function Charges(ops: seq<ScorerOp>, rate: real, p: real): real {
    if ops == [] then 0.0
    else
      (if ops[0].Event? then DecayOver(rate, ops[0].at - p) + Penalty(ops[0].event) else 0.0)
      + Charges(ops[1..], rate, p)
  }

  lemma {:induction false} StoredClosedForm(s: LinearState, ops: seq<ScorerOp>, from: real)
    requires Healthy(s, from) && Ordered(ops, from)
    requires forall op :: op in ops ==> !Positive(op)
    ensures 0.0 <= Charges(ops, s.decayRate, s.lastPositive)
    ensures Run(s, ops).stored == Max(0.0, s.stored - Charges(ops, s.decayRate, s.lastPositive))
    ensures Run(s, ops).lastPositive == s.lastPositive
    decreases |ops|
  {
    hide DecayOver;
    if ops != [] {
      assert !Positive(ops[0]);
      var next := Apply(s, ops[0]);
      ChargeNonNegative(s.decayRate, ops[0].at - s.lastPositive);
      StoredClosedForm(next, ops[1..], ops[0].at);
    }
  }

  lemma ChargeNonNegative(rate: real, hours: real)
    requires 0.0 <= rate && 0.0 <= hours
    ensures 0.0 <= DecayOver(rate, hours)
  {
  }

  /** What is left at `now` of the value at the last positive signal after the charges of `ops`. */
  function SinceSignal(s: LinearState, ops: seq<ScorerOp>, now: real): real {
    Max(0.0, s.stored - Charges(ops, s.decayRate, s.lastPositive) - DecayOver(s.decayRate, now - s.lastPositive))
  }

  /** The uncapped reading t hours after any number of non-positive events is the value at the last
      positive signal less every charge less the decay still outstanding, floored at zero. */
  lemma ReadingClosedForm(s: LinearState, ops: seq<ScorerOp>, from: real, now: real)
    requires Healthy(s, from) && Ordered(ops, from) && LastTime(ops, from) <= now
    requires s.ceiling == None
    requires forall op :: op in ops ==> !Positive(op)
    ensures Reading(Run(s, ops), now) == SinceSignal(s, ops, now)
  {
    hide DecayOver, Run, Charges, LastTime, Ordered;
    StoredClosedForm(s, ops, from);
    RunHealthy(s, ops, from);
    OrderedEnd(ops, from);
    var rest := DecayOver(s.decayRate, now - s.lastPositive);
    ChargeNonNegative(s.decayRate, now - s.lastPositive);
    var t := Run(s, ops);
    assert Decayed(t, now) == Max(0.0, t.stored - rest);
  }

  /** Every run has a last positive operation, or none: what follows it obeys the closed form. */
  lemma RunClosedForm(s: LinearState, before: seq<ScorerOp>, since: seq<ScorerOp>, from: real, now: real)
    requires Healthy(s, from) && Ordered(before, from) && Ordered(since, LastTime(before, from))
    requires LastTime(since, LastTime(before, from)) <= now
    requires s.ceiling == None
    requires forall op :: op in since ==> !Positive(op)
    ensures Reading(Run(s, before + since), now) == SinceSignal(Run(s, before), since, now)
  {
    hide DecayOver;
    RunSplit(s, before, since);
    RunHealthy(s, before, from);
    ReadingClosedForm(Run(s, before), since, LastTime(before, from), now);
  }

  /** Without a SUCCESS or an override the reading, capped or not, never rises. */
  lemma NeverRisesUnprovoked(s: LinearState, ops: seq<ScorerOp>, from: real, now: real)
    requires Healthy(s, from) && Ordered(ops, from) && LastTime(ops, from) <= now
    requires forall op :: op in ops ==> !Positive(op)
    ensures from <= now && Reading(Run(s, ops), now) <= Reading(s, from)
  {
    hide DecayOver;
    OrderedEnd(ops, from);
    var bare := s.(ceiling := None);
    CeilingNeverStored(s, ops);
    StoredClosedForm(bare, ops, from);
    ReadingClosedForm(bare, ops, from, now);
    MoreHoursMoreDecay(s.decayRate, from - s.lastPositive, now - s.lastPositive);
    assert Decayed(Run(s, ops), now) == Reading(Run(bare, ops), now) <= Decayed(s, from);
  }

  lemma {:induction false} OrderedEnd(ops: seq<ScorerOp>, from: real)
    requires Ordered(ops, from)
    ensures from <= LastTime(ops, from)
  {
    if ops != [] {
      OrderedEnd(ops[1..], ops[0].at);
    }
  }

  lemma MoreHoursMoreDecay(rate: real, a: real, b: real)
    requires 0.0 <= rate && a <= b
    ensures DecayOver(rate, a) <= DecayOver(rate, b)
  {
  }

  // ---- The documented decay and the decay that is charged ----

  function Penalties(ops: seq<ScorerOp>): real {
    if ops == [] then 0.0
    else (if ops[0].Event? then Penalty(ops[0].event) else 0.0) + Penalties(ops[1..])
  }

  /** Sum over the events of the hours from the last positive signal to the event. */
  function RepeatedHours(ops: seq<ScorerOp>, p: real): real {
    if ops == [] then 0.0
    else (if ops[0].Event? then ops[0].at - p else 0.0) + RepeatedHours(ops[1..], p)
  }

  function CutTo(ceiling: Option<real>, value: real): real {
    if ceiling.Some? then Min(value, ceiling.value) else value
  }

  /** "-0.01 per hour since the last positive signal": each hour charged once, and the ceiling on what is read. */
  function DocumentedReading(s: LinearState, ops: seq<ScorerOp>, now: real): real {
    CutTo(s.ceiling, Max(0.0, s.stored - Penalties(ops) - DecayOver(s.decayRate, now - s.lastPositive)))
  }

  lemma {:induction false} ChargesSplit(ops: seq<ScorerOp>, rate: real, p: real)
    ensures Charges(ops, rate, p) == Penalties(ops) + DecayOver(rate, RepeatedHours(ops, p))
  {
    if ops != [] {
      ChargesSplit(ops[1..], rate, p);
    }
  }

  lemma {:induction false} RepeatedHoursNonNegative(ops: seq<ScorerOp>, from: real, p: real)
    requires Ordered(ops, from) && p <= from
    ensures 0.0 <= RepeatedHours(ops, p)
  {
    if ops != [] {
      RepeatedHoursNonNegative(ops[1..], ops[0].at, p);
    }
  }

  /** The reading is never above the documented one, and equals it exactly when no decay was charged
      twice (no decay, or every event at the instant of the last positive signal), or the documented
      reading has already reached zero, or a ceiling hides the difference. */
  lemma DecayChargedOnceIff(s: LinearState, ops: seq<ScorerOp>, from: real, now: real)
    requires Healthy(s, from) && Ordered(ops, from) && LastTime(ops, from) <= now
    requires forall op :: op in ops ==> !Positive(op)
    ensures Reading(Run(s, ops), now) <= DocumentedReading(s, ops, now)
    ensures Reading(Run(s, ops), now) == DocumentedReading(s, ops, now)
       <==> (s.decayRate == 0.0 || RepeatedHours(ops, s.lastPositive) == 0.0
             || s.stored <= Penalties(ops) + DecayOver(s.decayRate, now - s.lastPositive)
             || (s.ceiling.Some? && s.ceiling.value <= SinceSignal(s, ops, now)))
  {
    hide DecayOver, Reading, Run;
    var bare := s.(ceiling := None);
    ReadingClosedForm(bare, ops, from, now);
    if s.ceiling.Some? {
      CapTransparency(s, ops, s.ceiling.value, now);
    } else {
      assert bare == s;
    }
    ChargesSplit(ops, s.decayRate, s.lastPositive);
    RepeatedHoursNonNegative(ops, from, s.lastPositive);
    ChargeNonNegative(s.decayRate, RepeatedHours(ops, s.lastPositive));
    ProductZeroIff(s.decayRate, RepeatedHours(ops, s.lastPositive));
  }

  lemma ProductZeroIff(a: real, b: real)
    ensures DecayOver(a, b) == 0.0 <==> a == 0.0 || b == 0.0
  {
  }

  /** One FAILURE ten hours after a start at 0.5: the documented reading at that instant is 0.35,
      the scorer reads 0.25. */
  lemma DecayChargedTwiceExample()
    ensures var s := Initial(0.5, 0.01, None, 0.0);
            var ops := [Event(Failure, 10.0)];
            Reading(Run(s, ops), 10.0) == 0.25 && DocumentedReading(s, ops, 10.0) == 0.35
  {
    var s := Initial(0.5, 0.01, None, 0.0);
    var ops := [Event(Failure, 10.0)];
    assert Run(s, ops) == AfterEvent(s, Failure, 10.0);
    assert Penalties(ops) == Penalty(Failure) + Penalties(ops[1..]);
  }
}
