/** The scoring library of packages/presidium/src/presidium/scoring/functions.py. Timestamps are real numbers
    of hours. The half-life power of exponential decay is a function carried by the configuration. */
module Scoring {
  import opened Common

  datatype EventContext = EventContext(controllable: bool, actorId: Option<string>)

  /** `kind` is the "type" tag ("" when it is missing), `delta` the "delta" value when there is one. */
  datatype Event = Event(
    id: string,
    timestamp: real,
    kind: string,
    delta: Option<real>,
    context: Option<EventContext>)

  /** `halfPow(x)` is 0.5 to the power x. */
  datatype DecayFunction = Linear | Exponential(halfPow: real -> real)

  datatype DecayConfig = DecayConfig(function_: DecayFunction, rate: real)

  datatype WindowConfig = WindowConfig(maxEvents: Option<int>, maxAgeHours: Option<real>)

  datatype ScoringConfig = ScoringConfig(weights: map<string, real>, initialValue: real, decay: DecayConfig)

  function HalfLife(d: DecayConfig): real {
    if d.rate > 0.0 then d.rate else 72.0
  }

  function Decay(value: real, hours: real, d: DecayConfig): real {
    if hours <= 0.0 then value
    else
      match d.function_
      case Exponential(halfPow) => value * halfPow(hours / HalfLife(d))
      case Linear => Max(0.0, value - d.rate * hours)
  }

  /** The events that satisfy p, in order: a list comprehension. */
  function Keep(p: Event -> bool, events: seq<Event>): seq<Event> {
    if events == [] then []
    else (if p(events[0]) then [events[0]] else []) + Keep(p, events[1..])
  }

  /** Python's stable sort by timestamp: an event goes before the later-listed ones of the same instant. */
  function InsertByTime(e: Event, sorted: seq<Event>): seq<Event> {
    if sorted == [] || e.timestamp <= sorted[0].timestamp then [e] + sorted
    else [sorted[0]] + InsertByTime(e, sorted[1..])
  }

  function SortByTime(events: seq<Event>): seq<Event> {
    if events == [] then [] else InsertByTime(events[0], SortByTime(events[1..]))
  }

  /** The slice s[k:] of Python, for any integer k. */
  function SliceFrom(s: seq<Event>, k: int): seq<Event> {
    if k < 0 then s[(if |s| + k < 0 then 0 else |s| + k)..]
    else s[(if k > |s| then |s| else k)..]
  }

  function InAge(events: seq<Event>, w: WindowConfig, asOf: real): seq<Event> {
    match w.maxAgeHours
    case None => events
    case Some(age) => Keep((e: Event) => e.timestamp >= asOf - age, events)
  }

  function FilterWindow(events: seq<Event>, window: Option<WindowConfig>, asOf: real): seq<Event> {
    match window
    case None => events
    case Some(w) =>
      var sorted := SortByTime(InAge(events, w, asOf));
      if w.maxEvents.Some? && |sorted| > w.maxEvents.value then SliceFrom(sorted, -w.maxEvents.value) else sorted
  }

  predicate Controllable(e: Event) {
    e.context.None? || e.context.value.controllable
  }

  function FilterControllable(events: seq<Event>, filterUncontrollable: bool): seq<Event> {
    if filterUncontrollable then Keep(Controllable, events) else events
  }

  /** An explicit delta overrides the weight of the event's type. */
  function EffectiveDelta(e: Event, config: ScoringConfig): real {
    if e.delta.Some? then e.delta.value
    else if e.kind in config.weights then config.weights[e.kind] else 0.0
  }

  datatype Progress = Progress(value: real, at: real)

  function Advance(p: Progress, e: Event, config: ScoringConfig): Progress {
    Progress(Clamp(Decay(p.value, e.timestamp - p.at, config.decay) + EffectiveDelta(e, config)), e.timestamp)
  }

  function Fold(p: Progress, events: seq<Event>, config: ScoringConfig): Progress
    decreases |events|
  {
    if events == [] then p else Fold(Advance(p, events[0], config), events[1..], config)
  }

  function Start(events: seq<Event>, config: ScoringConfig, now: real): Progress {
    Progress(config.initialValue, if events == [] then now else events[0].timestamp)
  }

  /** The score of events already sorted and filtered. */
  function ScoreSorted(events: seq<Event>, config: ScoringConfig, now: real): real {
    var p := Fold(Start(events, config, now), events, config);
    Clamp(Decay(p.value, now - p.at, config.decay))
  }

  function Score(events: seq<Event>, config: ScoringConfig, now: real, filterUncontrollable: bool): real {
    ScoreSorted(FilterControllable(SortByTime(events), filterUncontrollable), config, now)
  }

  function WindowedScore(events: seq<Event>, config: ScoringConfig, window: Option<WindowConfig>, now: real,
                         filterUncontrollable: bool): real
  {
    var windowed := FilterControllable(FilterWindow(events, window, now), filterUncontrollable);
    if windowed == [] then config.initialValue else Score(windowed, config, now, false)
  }

  function Replay(events: seq<Event>, config: ScoringConfig, asOf: real, window: Option<WindowConfig>,
                  filterUncontrollable: bool): real
  {
    var upTo := Keep((e: Event) => e.timestamp <= asOf, events);
    if window.Some? then WindowedScore(upTo, config, window, asOf, filterUncontrollable)
    else Score(upTo, config, asOf, filterUncontrollable)
  }

  /** The loop of `score`, value and previous timestamp carried along. */
  method ComputeScore(events: seq<Event>, config: ScoringConfig, now: real, filterUncontrollable: bool)
      returns (result: real)
    ensures result == Score(events, config, now, filterUncontrollable)
  {
    hide Decay, SortByTime, FilterControllable, Clamp, EffectiveDelta;
    var sorted := FilterControllable(SortByTime(events), filterUncontrollable);
    var value := config.initialValue;
    var prev := if sorted != [] then sorted[0].timestamp else now;
    for i := 0 to |sorted|
      invariant Fold(Progress(value, prev), sorted[i..], config) == Fold(Start(sorted, config, now), sorted, config)
    {
      var event := sorted[i];
      value := Decay(value, event.timestamp - prev, config.decay);
      value := Clamp(value + EffectiveDelta(event, config));
      prev := event.timestamp;
    }
    var trailing := now - prev;
    assert sorted[|sorted|..] == [];
    if trailing > 0.0 {
      value := Decay(value, trailing, config.decay);
    } else {
      NoDecay(value, trailing, config.decay);
    }
    result := Clamp(value);
  }

  lemma NoDecay(value: real, hours: real, d: DecayConfig)
    requires hours <= 0.0
    ensures Decay(value, hours, d) == value
  {
  }
}
