/** WindowedTrustScorer of packages/presidium/src/presidium/trust/windowed.py: an event buffer scored through
    the scoring library, with cold-start blending. The event ids the program draws at random are arguments. */
module WindowedTrust {
  import opened Common
  import opened Model
  import opened Scoring
  import opened ScoringOrder

  datatype Setup = Setup(
    weights: map<string, real>,
    decay: DecayConfig,
    window: WindowConfig,
    minEvents: int,
    controllabilityFilter: bool)

  datatype Buffer = Buffer(initialValue: real, events: seq<Event>, nSeen: nat, lastUpdated: real)

  /** Blending of the initial value with the computed one while fewer than `minEvents` events were seen. */
  function Blend(initialValue: real, computed: real, nSeen: nat, minEvents: int): real {
    if nSeen == 0 then Clamp(initialValue)
    else if minEvents > 0 && nSeen < minEvents then
      var blend := nSeen as real / minEvents as real;
      Clamp((1.0 - blend) * initialValue + blend * computed)
    else Clamp(computed)
  }

  /** The windowed score of the buffer, before blending. */
  function Computed(b: Buffer, setup: Setup, now: real): real {
    var config := ScoringConfig(setup.weights, b.initialValue, setup.decay);
    WindowedScore(b.events, config, Some(setup.window), now, setup.controllabilityFilter)
  }

  function Value(b: Buffer, setup: Setup, now: real): real {
    Blend(b.initialValue, Computed(b, setup, now), b.nSeen, setup.minEvents)
  }

  /** A HUMAN_OVERRIDE must name its actor. */
  predicate MissingAttribution(event: TrustEvent, context: Option<EventContext>) {
    event == HumanOverride && (context.None? || context.value.actorId.None?)
  }

  function WeightOf(weights: map<string, real>, name: string): real {
    if name in weights then weights[name] else 0.0
  }

  function NewEvent(setup: Setup, event: TrustEvent, context: Option<EventContext>, id: string, now: real): Event {
    Event(id, now, EventName(event), Some(WeightOf(setup.weights, EventName(event))), context)
  }

  function Recorded(b: Buffer, setup: Setup, event: TrustEvent, context: Option<EventContext>, id: string, now: real)
    : Buffer
  {
    if MissingAttribution(event, context) then b
    else b.(events := b.events + [NewEvent(setup, event, context, id, now)], nSeen := b.nSeen + 1, lastUpdated := now)
  }

  function WithValue(b: Buffer, value: real, now: real): Buffer {
    Buffer(Clamp(value), [], 0, now)
  }

  class WindowedTrustScorer {
    const setup: Setup
    var initialValue: real
    var events: seq<Event>
    var nSeen: nat
    var lastUpdated: real

    ghost function Abs(): Buffer
      reads this
    {
      Buffer(initialValue, events, nSeen, lastUpdated)
    }

    constructor (setup: Setup, initialValue: real, now: real)
      ensures this.setup == setup && Abs() == Buffer(initialValue, [], 0, now)
    {
      this.setup := setup;
      this.initialValue := initialValue;
      events, nSeen, lastUpdated := [], 0, now;
    }

    /** True when the event was refused for want of an actor. */
    method RecordEvent(event: TrustEvent, context: Option<EventContext>, id: string, now: real) returns (refused: bool)
      modifies this
      ensures refused <==> MissingAttribution(event, context)
      ensures Abs() == Recorded(old(Abs()), setup, event, context, id, now)
    {
      if event == HumanOverride {
        if context.None? || context.value.actorId.None? {
          return true;
        }
      }
      events := events + [NewEvent(setup, event, context, id, now)];
      nSeen := nSeen + 1;
      lastUpdated := now;
      refused := false;
    }

    method ReadValue(now: real) returns (v: real)
      ensures v == Value(Abs(), setup, now)
    {
      var config := ScoringConfig(setup.weights, initialValue, setup.decay);
      var computed := WindowedScore(events, config, Some(setup.window), now, setup.controllabilityFilter);
      v := Blend(initialValue, computed, nSeen, setup.minEvents);
    }

    method SetValue(value: real, now: real)
      modifies this
      ensures Abs() == WithValue(old(Abs()), value, now)
    {
      initialValue := Clamp(value);
      events := [];
      nSeen := 0;
      lastUpdated := now;
    }
  }

  // ---- Overrides and events ----

  /** After an override the scorer reads the value given, within [0, 1], at every instant until the next event, and
      starts warming up again. */
  lemma OverrideReads(b: Buffer, setup: Setup, value: real, now: real, later: real)
    ensures var b' := WithValue(b, value, now);
            && Value(b', setup, later) == b'.initialValue
            && b'.initialValue == (if value < 0.0 then 0.0 else if value > 1.0 then 1.0 else value)
            && b'.events == [] && b'.nSeen == 0 && b'.lastUpdated == now
  {
    hide WindowedScore;
  }

  /** An event is refused exactly when it is a HUMAN_OVERRIDE without an actor. Otherwise it is buffered last, under
      its name and with the weight of that name, or none, as its delta, and is counted. */
  lemma RecordedIs(b: Buffer, setup: Setup, event: TrustEvent, context: Option<EventContext>, id: string, now: real)
    ensures var b' := Recorded(b, setup, event, context, id, now);
            var refused := event == HumanOverride && (context == None || context.value.actorId == None);
            && (refused ==> b' == b)
            && (!refused ==>
                  && b'.initialValue == b.initialValue && b'.nSeen == b.nSeen + 1 && b'.lastUpdated == now
                  && |b'.events| == |b.events| + 1 && b'.events[..|b.events|] == b.events
                  && var e := b'.events[|b.events|];
                     && e.id == id && e.timestamp == now && e.context == context
                     && e.kind == (match event
                                   case Success => "success"
                                   case Failure => "failure"
                                   case PolicyViolation => "policy_violation"
                                   case HumanOverride => "human_override")
                     && e.delta == Some(if e.kind in setup.weights then setup.weights[e.kind] else 0.0))
  {
  }

  // ---- Warming up ----

  lemma PartOfUnit(x: real, y: real)
    requires 0.0 <= x <= 1.0 && 0.0 <= y <= 1.0
    ensures 0.0 <= x * y <= x
  {
    assert x - x * y == x * (1.0 - y);
  }

  lemma Mixed(b: real, x: real, y: real)
    requires 0.0 <= b <= 1.0 && 0.0 <= x <= 1.0 && 0.0 <= y <= 1.0
    ensures 0.0 <= (1.0 - b) * x + b * y <= 1.0
    ensures (1.0 - b) * x + b * y - x == b * (y - x)
  {
    PartOfUnit(1.0 - b, x);
    PartOfUnit(b, y);
    SumBelow((1.0 - b) * x, b * y, 1.0 - b, b);
  }

  lemma SumBelow(u: real, v: real, a: real, b: real)
    requires u <= a && v <= b && a + b == 1.0
    ensures u + v <= 1.0
  {
  }

  lemma Regroup(b: real, d: real, m: real, n: real)
    requires b * m == n
    ensures b * d * m == n * d
  {
    assert b * d * m == (b * m) * d;
  }

  lemma ShareOf(n: nat, m: int)
    requires n < m
    ensures var b := n as real / m as real; 0.0 <= b <= 1.0 && b * m as real == n as real
  {
  }

  /** While a scorer warms up, each event seen takes the reading one part in `minEvents` of the way from the initial
      value to the computed score; from then on the reading is the score. */
  lemma WarmUpIsEven(initialValue: real, computed: real, nSeen: nat, minEvents: int)
    requires 0.0 <= initialValue <= 1.0 && 0.0 <= computed <= 1.0
    ensures var r := Blend(initialValue, computed, nSeen, minEvents);
            && (nSeen == 0 ==> r == initialValue)
            && (nSeen > 0 && nSeen >= minEvents ==> r == computed)
            && (nSeen < minEvents ==>
                  (r - initialValue) * minEvents as real == nSeen as real * (computed - initialValue))
  {
    if 0 < nSeen < minEvents {
      var b := nSeen as real / minEvents as real;
      ShareOf(nSeen, minEvents);
      Mixed(b, initialValue, computed);
      Regroup(b, computed - initialValue, minEvents as real, nSeen as real);
      var r := Blend(initialValue, computed, nSeen, minEvents);
      assert r == (1.0 - b) * initialValue + b * computed;
      assert r - initialValue == b * (computed - initialValue);
      assert (r - initialValue) * minEvents as real == b * (computed - initialValue) * minEvents as real;
    }
  }

  // ---- Blends that agree ----

  function Mix(share: real, x: real, y: real): real {
    (1.0 - share) * x + share * y
  }

  /** The weight of the computed score after n events. */
  function Share(n: nat, minEvents: int): real {
    if n < minEvents then n as real / minEvents as real else 1.0
  }

  lemma BlendIsMix(i: real, c: real, n: nat, m: int)
    requires m > 0
    ensures Blend(i, c, n, m) == Clamp(Mix(Share(n, m), i, c))
  {
    MixEnds(i, c);
    if n == 0 {
      NoShare(m as real);
      hide Mix, Clamp;
    } else if n >= m {
      hide Mix, Clamp;
    }
  }

  lemma MixEnds(x: real, y: real)
    ensures Mix(0.0, x, y) == x && Mix(1.0, x, y) == y
  {
  }

  lemma NoShare(m: real)
    requires m > 0.0
    ensures 0.0 / m == 0.0
  {
  }

  lemma ShareTimes(n: nat, m: int)
    ensures n < m ==> 0.0 <= Share(n, m) <= 1.0 && Share(n, m) * m as real == n as real
    ensures n >= m ==> Share(n, m) == 1.0
  {
    if n < m {
      ShareOf(n, m);
    }
  }

  lemma ShareOrder(p: nat, n: nat, m: int)
    requires p < m && p < n
    ensures 0.0 <= Share(p, m) < Share(n, m) <= 1.0
  {
    hide Share;
    ShareTimes(p, m);
    ShareTimes(n, m);
    var a, b := Share(p, m), Share(n, m);
    Below(a, b, m as real, p as real, if n < m then n as real else m as real);
  }

  lemma Below(a: real, b: real, m: real, x: real, y: real)
    requires m > 0.0 && x < y && a * m == x && b * m == y
    ensures a < b
  {
    if a >= b {
      NotBelow(a, b, m);
    }
  }

  lemma NotBelow(a: real, b: real, m: real)
    requires a >= b && m > 0.0
    ensures a * m >= b * m
  {
    Positive(a - b, m);
  }

  lemma Positive(x: real, y: real)
    requires x >= 0.0 && y >= 0.0
    ensures x * y >= 0.0
  {
  }

  lemma Strict(x: real, y: real)
    requires x > 0.0 && y > 0.0
    ensures x * y > 0.0
  {
  }

  /** A greater share lies strictly nearer the computed score. */
  lemma MixOrder(i: real, c: real, a: real, b: real)
    requires 0.0 <= a < b <= 1.0 && i < c
    ensures i <= Mix(a, i, c) < Mix(b, i, c) <= c
    ensures i <= Mix(b, c, i) < Mix(a, c, i) <= c
  {
    var d := c - i;
    Positive(a, d);
    Strict(b - a, d);
    Positive(1.0 - b, d);
    MixIs(i, c, a);
    MixIs(i, c, b);
    MixIs(c, i, a);
    MixIs(c, i, b);
    Spread(a, b, d);
  }

  lemma MixIs(x: real, y: real, share: real)
    ensures Mix(share, x, y) == x + share * (y - x)
    ensures share * (x - y) == -(share * (y - x))
  {
  }

  lemma Spread(a: real, b: real, d: real)
    ensures b * d == a * d + (b - a) * d && d == b * d + (1.0 - b) * d
  {
  }

  /** An initial value outside [0, 1] hides the warm-up while the blend has not come back inside. */
  predicate Outside(i: real, c: real, n: nat, m: int) {
    (i < 0.0 && Mix(Share(n, m), i, c) <= 0.0) || (i > 1.0 && Mix(Share(n, m), i, c) >= 1.0)
  }

  /** Two counts of events blend a score alike exactly when both have warmed up, they are equal, the score is the
      initial value, or both blends are clamped away. */
  lemma BlendsEqualIff(i: real, c: real, p: nat, n: nat, m: int)
    requires p <= n && (c == i || 0.0 <= c <= 1.0) && (p == 0 ==> c == i)
    ensures Blend(i, c, p, m) == Blend(i, c, n, m) <==> p >= m || p == n || c == i || Outside(i, c, n, m)
  {
    if m > 0 {
      BlendIsMix(i, c, p, m);
      BlendIsMix(i, c, n, m);
      if c == i {
        MixIs(i, c, Share(p, m));
        MixIs(i, c, Share(n, m));
      } else if p < m && p < n {
        ShareOrder(p, n, m);
        if i < c {
          MixOrder(i, c, Share(p, m), Share(n, m));
        } else {
          MixOrder(c, i, Share(p, m), Share(n, m));
        }
      }
      hide Mix, Share, Blend;
    }
  }

  // ---- Uncontrollable events are invisible ----

  datatype BufferOp =
    | Record(event: TrustEvent, context: Option<EventContext>, id: string, at: real)
    | Reset(value: real, at: real)

  function Perform(b: Buffer, setup: Setup, op: BufferOp): Buffer {
    match op
    case Record(e, c, id, at) => Recorded(b, setup, e, c, id, at)
    case Reset(v, at) => WithValue(b, v, at)
  }

  function PerformAll(b: Buffer, setup: Setup, ops: seq<BufferOp>): Buffer {
    if ops == [] then b else Perform(PerformAll(b, setup, ops[..|ops| - 1]), setup, ops[|ops| - 1])
  }

  /** Everything but the recording of an uncontrollable event. */
  predicate Visible(op: BufferOp) {
    op.Reset? || op.context.None? || op.context.value.controllable
  }

  function OnlyVisible(ops: seq<BufferOp>): seq<BufferOp> {
    if ops == [] then []
    else OnlyVisible(ops[..|ops| - 1]) + (if Visible(ops[|ops| - 1]) then [ops[|ops| - 1]] else [])
  }

  /** The buffer that saw everything and the one that saw only what is visible. */
  ghost predicate Shadow(full: Buffer, part: Buffer) {
    && part.initialValue == full.initialValue
    && part.events == Keep(Controllable, full.events)
    && full.nSeen == |full.events| && part.nSeen == |part.events|
  }

  lemma {:induction false} KeepSnoc(p: Event -> bool, s: seq<Event>, e: Event)
    ensures Keep(p, s + [e]) == Keep(p, s) + (if p(e) then [e] else [])
  {
    if s == [] {
      assert s + [e] == [e];
    } else {
      var x, rest := s[0], s[1..];
      assert s == [x] + rest && s + [e] == [x] + (rest + [e]);
      KeepSnoc(p, rest, e);
      KeepCons(p, x, rest);
      KeepCons(p, x, rest + [e]);
      hide Keep;
    }
  }

  lemma StepShadow(full: Buffer, part: Buffer, setup: Setup, op: BufferOp)
    requires Shadow(full, part)
    ensures Shadow(Perform(full, setup, op), if Visible(op) then Perform(part, setup, op) else part)
  {
    if op.Record? {
      KeepSnoc(Controllable, full.events, NewEvent(setup, op.event, op.context, op.id, op.at));
    }
    hide Keep, Clamp, WeightOf, EventName;
  }

  lemma {:induction false} RunShadow(b: Buffer, setup: Setup, ops: seq<BufferOp>)
    requires b.events == [] && b.nSeen == 0
    ensures Shadow(PerformAll(b, setup, ops), PerformAll(b, setup, OnlyVisible(ops)))
    decreases |ops|
  {
    if ops != [] {
      var n := |ops| - 1;
      RunShadow(b, setup, ops[..n]);
      StepShadow(PerformAll(b, setup, ops[..n]), PerformAll(b, setup, OnlyVisible(ops[..n])), setup, ops[n]);
      hide Shadow, Perform;
      if Visible(ops[n]) {
        assert OnlyVisible(ops)[..|OnlyVisible(ops)| - 1] == OnlyVisible(ops[..n]);
      } else {
        assert OnlyVisible(ops) == OnlyVisible(ops[..n]);
      }
    }
  }

  lemma {:induction false} KeepTwice(p: Event -> bool, s: seq<Event>)
    ensures Keep(p, Keep(p, s)) == Keep(p, s)
  {
    KeepMembers(p, s);
    KeepAll(p, Keep(p, s));
  }

  lemma InAgeOfKept(p: Event -> bool, events: seq<Event>, w: WindowConfig, now: real)
    ensures InAge(Keep(p, events), w, now) == Keep(p, InAge(events, w, now))
  {
    if w.maxAgeHours.Some? {
      KeepKeep((e: Event) => e.timestamp >= now - w.maxAgeHours.value, p, events);
    }
  }

  lemma {:induction false} KeepConcat(p: Event -> bool, s: seq<Event>, t: seq<Event>)
    ensures Keep(p, s + t) == Keep(p, s) + Keep(p, t)
  {
    hide Keep;
    if s == [] {
      assert s + t == t;
      KeepMembers(p, s);
    } else {
      var x, rest := s[0], s[1..];
      assert s == [x] + rest && s + t == [x] + (rest + t);
      KeepConcat(p, rest, t);
      KeepCons(p, x, rest);
      KeepCons(p, x, rest + t);
    }
  }

  /** The controllable events of the latest m are the last of the controllable events. */
  lemma KeepLatest(s: seq<Event>, m: nat)
    ensures var kept, part := Keep(Controllable, s), Keep(Controllable, Latest(s, m));
            |part| <= m && |part| <= |kept| && part == kept[|kept| - |part|..]
  {
    var cut := if |s| > m then |s| - m else 0;
    assert s == s[..cut] + s[cut..] && Latest(s, m) == s[cut..];
    KeepConcat(Controllable, s[..cut], s[cut..]);
    KeepMembers(Controllable, s[cut..]);
    hide Keep;
  }

  lemma SuffixesEqualIff(s: seq<Event>, i: nat, j: nat)
    requires i <= |s| && j <= |s|
    ensures s[|s| - i..] == s[|s| - j..] <==> i == j
  {
    assert |s[|s| - i..]| == i && |s[|s| - j..]| == j;
  }

  lemma LatestKept(s: seq<Event>, m: nat)
    ensures Keep(Controllable, Latest(Keep(Controllable, s), m)) == Latest(Keep(Controllable, s), m)
  {
    var kept := Keep(Controllable, s);
    KeepMembers(Controllable, s);
    forall e | e in Latest(kept, m) ensures Controllable(e) {
      assert e in kept;
    }
    KeepAll(Controllable, Latest(kept, m));
    hide Keep;
  }

  /** The window has room for every controllable event that it would hold alone: it is full of controllable events,
      or no controllable in-age event is left out. A cap of zero is no cap. */
  predicate WindowSpares(events: seq<Event>, w: WindowConfig, now: real) {
    w.maxEvents.Some? && w.maxEvents.value >= 1 ==>
      var s := SortByTime(InAge(events, w, now));
      var held := |Keep(Controllable, Latest(s, w.maxEvents.value))|;
      held == w.maxEvents.value || held == |Keep(Controllable, s)|
  }

  lemma Uncapped(events: seq<Event>, w: WindowConfig, now: real)
    requires w.maxEvents.Some? ==> w.maxEvents.value == 0
    ensures FilterWindow(events, Some(w), now) == SortByTime(InAge(events, w, now))
  {
    hide SortByTime, InAge;
  }

  lemma SortedInAgeOfKept(events: seq<Event>, w: WindowConfig, now: real)
    ensures SortByTime(InAge(Keep(Controllable, events), w, now))
         == Keep(Controllable, SortByTime(InAge(events, w, now)))
  {
    InAgeOfKept(Controllable, events, w, now);
    SortKeep(Controllable, InAge(events, w, now));
  }

  /** Filtering before the window or after it selects the same events exactly when the window spares them. */
  lemma SameWindowIff(events: seq<Event>, w: WindowConfig, now: real)
    requires w.maxEvents.Some? ==> w.maxEvents.value >= 0
    ensures FilterControllable(FilterWindow(events, Some(w), now), true)
         == FilterControllable(FilterWindow(Keep(Controllable, events), Some(w), now), true)
       <==> WindowSpares(events, w, now)
  {
    hide FilterWindow, InAge, SortByTime, Keep, Latest;
    var part := Keep(Controllable, events);
    var s := SortByTime(InAge(events, w, now));
    SortedInAgeOfKept(events, w, now);
    if w.maxEvents.None? || w.maxEvents.value == 0 {
      Uncapped(events, w, now);
      Uncapped(part, w, now);
      KeepTwice(Controllable, s);
    } else {
      var m := w.maxEvents.value;
      WindowLatest(events, w, now);
      WindowLatest(part, w, now);
      KeepLatest(s, m);
      LatestKept(s, m);
      LatestIsSuffix(Keep(Controllable, s), m);
      SuffixesEqualIff(Keep(Controllable, s), |Keep(Controllable, Latest(s, m))|,
                       if |Keep(Controllable, s)| > m then m else |Keep(Controllable, s)|);
    }
  }

  lemma LatestIsSuffix(s: seq<Event>, m: nat)
    ensures Latest(s, m) == s[|s| - (if |s| > m then m else |s|)..]
  {
  }

  lemma InAgeShrinks(events: seq<Event>, w: WindowConfig, now: real)
    ensures |InAge(events, w, now)| <= |events|
  {
    if w.maxAgeHours.Some? {
      KeepMembers((e: Event) => e.timestamp >= now - w.maxAgeHours.value, events);
    }
    hide Keep;
  }

  /** It spares them while no more events are in age than it holds, however many the buffer has collected. */
  lemma FewInAgeSpared(events: seq<Event>, w: WindowConfig, now: real)
    requires w.maxEvents.Some? ==> |InAge(events, w, now)| <= w.maxEvents.value
    ensures WindowSpares(events, w, now)
  {
    hide InAge, SortByTime, Keep;
    SortSorts(InAge(events, w, now));
  }

  /** What the uncontrollable events do to the reading, for a buffer that saw them and one that did not: nothing,
      except that they count towards the warm-up. */
  predicate WarmedAlike(full: Buffer, part: Buffer, setup: Setup, now: real) {
    var c := Computed(part, setup, now);
    || part.nSeen >= setup.minEvents || part.nSeen == full.nSeen
    || c == part.initialValue || Outside(part.initialValue, c, full.nSeen, setup.minEvents)
  }

  lemma ComputedRange(b: Buffer, setup: Setup, now: real)
    ensures Computed(b, setup, now) == b.initialValue || 0.0 <= Computed(b, setup, now) <= 1.0
    ensures setup.controllabilityFilter && b.events == [] ==> Computed(b, setup, now) == b.initialValue
  {
    if b.events == [] {
      WindowOfNone(setup.window, now);
    }
    hide FilterWindow, FilterControllable, Decay, Fold, SortByTime;
  }

  /** With the controllability filter on, at every instant at which the window spares the controllable events, a
      scorer reads what one that was never told of the uncontrollable ones reads, exactly when the two have warmed up
      alike. */
  lemma UncontrollableInvisibleIff(b: Buffer, setup: Setup, ops: seq<BufferOp>, now: real)
    requires b.events == [] && b.nSeen == 0
    requires setup.controllabilityFilter
    requires setup.window.maxEvents.Some? ==> setup.window.maxEvents.value >= 0
    requires WindowSpares(PerformAll(b, setup, ops).events, setup.window, now)
    ensures Value(PerformAll(b, setup, ops), setup, now) == Value(PerformAll(b, setup, OnlyVisible(ops)), setup, now)
       <==> WarmedAlike(PerformAll(b, setup, ops), PerformAll(b, setup, OnlyVisible(ops)), setup, now)
  {
    hide PerformAll, FilterWindow, FilterControllable, Score, Keep, OnlyVisible, WindowSpares, Blend, Outside;
    var full, part := PerformAll(b, setup, ops), PerformAll(b, setup, OnlyVisible(ops));
    RunShadow(b, setup, ops);
    SameWindowIff(full.events, setup.window, now);
    assert Computed(full, setup, now) == Computed(part, setup, now);
    KeepMembers(Controllable, full.events);
    ComputedRange(part, setup, now);
    BlendsEqualIff(part.initialValue, Computed(part, setup, now), part.nSeen, full.nSeen, setup.minEvents);
  }

  /** So it does while no more events are in age than the window holds, however many the buffer has collected. */
  lemma InvisibleWhileFewInAgeIff(b: Buffer, setup: Setup, ops: seq<BufferOp>, now: real)
    requires b.events == [] && b.nSeen == 0 && setup.controllabilityFilter
    requires setup.window.maxEvents.Some? ==>
               |InAge(PerformAll(b, setup, ops).events, setup.window, now)| <= setup.window.maxEvents.value
    ensures Value(PerformAll(b, setup, ops), setup, now) == Value(PerformAll(b, setup, OnlyVisible(ops)), setup, now)
       <==> WarmedAlike(PerformAll(b, setup, ops), PerformAll(b, setup, OnlyVisible(ops)), setup, now)
  {
    hide PerformAll, InAge, Value, OnlyVisible, WindowSpares, WarmedAlike;
    FewInAgeSpared(PerformAll(b, setup, ops).events, setup.window, now);
    UncontrollableInvisibleIff(b, setup, ops, now);
  }

  /** In particular, without a warm-up and with no more events recorded than the window holds, the uncontrollable
      events are invisible. */
  lemma InvisibleWithinCapacity(b: Buffer, setup: Setup, ops: seq<BufferOp>, now: real)
    requires b.events == [] && b.nSeen == 0 && setup.controllabilityFilter && setup.minEvents <= 0
    requires setup.window.maxEvents.Some? ==> |PerformAll(b, setup, ops).events| <= setup.window.maxEvents.value
    ensures Value(PerformAll(b, setup, ops), setup, now) == Value(PerformAll(b, setup, OnlyVisible(ops)), setup, now)
  {
    hide PerformAll, InAge, Value, OnlyVisible;
    InAgeShrinks(PerformAll(b, setup, ops).events, setup.window, now);
    InvisibleWhileFewInAgeIff(b, setup, ops, now);
  }

  lemma WindowOfNone(w: WindowConfig, now: real)
    ensures FilterControllable(FilterWindow([], Some(w), now), true) == []
  {
    KeepMembers(Controllable, FilterWindow([], Some(w), now));
  }

  // ---- Beyond the window's capacity ----

  const TIGHT := Setup(map["failure" := -0.5], DecayConfig(Linear, 0.0), WindowConfig(Some(1), None), 0, true)

  lemma LastOfTwo(x: Event, y: Event)
    requires x.timestamp < y.timestamp && !Controllable(y)
    ensures FilterControllable(FilterWindow([x, y], Some(TIGHT.window), y.timestamp), true) == []
  {
    assert [x, y] == [x] + [y] && [x, y][1..] == [y] && [y][1..] == [];
    assert SortByTime([y]) == [y];
    assert SortByTime([x, y]) == [x, y];
    assert FilterWindow([x, y], Some(TIGHT.window), y.timestamp) == [y];
    KeepCons(Controllable, y, []);
    assert [y] + [] == [y];
  }

  lemma OnlyOne(x: Event, now: real)
    requires Controllable(x)
    ensures FilterControllable(FilterWindow([x], Some(TIGHT.window), now), true) == [x]
  {
    assert [x][1..] == [];
    assert SortByTime([x]) == [x];
    KeepCons(Controllable, x, []);
    assert [x] + [] == [x];
  }

  lemma ScoreOfOne(x: Event, config: ScoringConfig, now: real)
    requires config.decay == DecayConfig(Linear, 0.0) && x.timestamp <= now
    requires 0.0 <= config.initialValue <= 1.0
    ensures Score([x], config, now, false) == Clamp(config.initialValue + EffectiveDelta(x, config))
  {
    hide EffectiveDelta;
    assert [x][1..] == [];
    assert SortByTime([x]) == [x];
    assert Fold(Start([x], config, now), [x], config) == Advance(Start([x], config, now), x, config);
  }

  /** An uncontrollable event does take a place in the window: beyond its capacity it displaces a controllable one. */
  lemma UncontrollableDisplaces()
    ensures var b := Buffer(0.5, [], 0, 0.0);
            var ops := [Record(Failure, None, "a", 0.0), Record(Failure, Some(EventContext(false, None)), "b", 1.0)];
            && Value(PerformAll(b, TIGHT, OnlyVisible(ops)), TIGHT, 1.0) == 0.0
            && Value(PerformAll(b, TIGHT, ops), TIGHT, 1.0) == 0.5
  {
    hide FilterWindow, FilterControllable, Score;
    var b := Buffer(0.5, [], 0, 0.0);
    var first := Record(Failure, None, "a", 0.0);
    var second := Record(Failure, Some(EventContext(false, None)), "b", 1.0);
    var x := NewEvent(TIGHT, Failure, None, "a", 0.0);
    var y := NewEvent(TIGHT, Failure, second.context, "b", 1.0);
    assert [first, second][..1] == [first] && [first][..0] == [];
    assert PerformAll(b, TIGHT, [first]) == Buffer(0.5, [x], 1, 0.0);
    assert PerformAll(b, TIGHT, [first, second]) == Buffer(0.5, [x, y], 2, 1.0);
    assert OnlyVisible([first]) == [first] && OnlyVisible([first, second]) == [first];
    LastOfTwo(x, y);
    OnlyOne(x, 1.0);
    ScoreOfOne(x, ScoringConfig(TIGHT.weights, 0.5, TIGHT.decay), 1.0);
  }

  // ---- Counting towards the warm-up ----

  const WARMING := Setup(map["success" := 0.02], DecayConfig(Linear, 0.0), WindowConfig(Some(100), None), 5, true)

  /** The buffers of a scorer told of both events and of one told only of the first. */
  lemma TwoBuffers(b: Buffer, setup: Setup, first: BufferOp, second: BufferOp)
    requires b.events == [] && b.nSeen == 0
    requires first.Record? && second.Record? && first.event == Success && second.event == Success
    requires Visible(first) && !Visible(second)
    ensures var x := NewEvent(setup, Success, first.context, first.id, first.at);
            var y := NewEvent(setup, Success, second.context, second.id, second.at);
            && PerformAll(b, setup, [first, second]) == Buffer(b.initialValue, [x, y], 2, second.at)
            && PerformAll(b, setup, OnlyVisible([first, second])) == Buffer(b.initialValue, [x], 1, first.at)
  {
    hide NewEvent;
    assert [first, second][..1] == [first] && [first][..0] == [];
    assert PerformAll(b, setup, [first]).nSeen == 1;
    assert OnlyVisible([first]) == [first] && OnlyVisible([first, second]) == [first];
  }

  /** Within the window's capacity an uncontrollable event still counts as seen: it takes the reading of a scorer that
      warms up further from its initial value. */
  lemma UncontrollableWarmsUp()
    ensures var b := Buffer(0.2, [], 0, 0.0);
            var ops := [Record(Success, None, "a", 0.0), Record(Success, Some(EventContext(false, None)), "b", 1.0)];
            && WindowSpares(PerformAll(b, WARMING, ops).events, WARMING.window, 1.0)
            && Value(PerformAll(b, WARMING, OnlyVisible(ops)), WARMING, 1.0) == 0.204
            && Value(PerformAll(b, WARMING, ops), WARMING, 1.0) == 0.208
  {
    hide FilterWindow, FilterControllable, Score, WindowSpares, PerformAll, OnlyVisible, Keep, InAge;
    var first := Record(Success, None, "a", 0.0);
    var second := Record(Success, Some(EventContext(false, None)), "b", 1.0);
    var x := NewEvent(WARMING, Success, None, "a", 0.0);
    var y := NewEvent(WARMING, Success, second.context, "b", 1.0);
    TwoBuffers(Buffer(0.2, [], 0, 0.0), WARMING, first, second);
    InAgeShrinks([x, y], WARMING.window, 1.0);
    FewInAgeSpared([x, y], WARMING.window, 1.0);
    SameWindowIff([x, y], WARMING.window, 1.0);
    KeptOne(x, y, 1.0);
    ScoreOfOne(x, ScoringConfig(WARMING.weights, 0.2, WARMING.decay), 1.0);
  }

  lemma KeptOne(x: Event, y: Event, now: real)
    requires Controllable(x) && !Controllable(y)
    ensures Keep(Controllable, [x, y]) == [x]
    ensures FilterControllable(FilterWindow([x], Some(WARMING.window), now), true) == [x]
  {
    assert [x, y] == [x] + [y] && [y] + [] == [y] && [x] + [] == [x];
    KeepCons(Controllable, y, []);
    KeepCons(Controllable, x, [y]);
    KeepCons(Controllable, x, []);
    assert [x][1..] == [];
    assert SortByTime([x]) == [x];
  }
}
