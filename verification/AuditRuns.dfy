/** Audit enrichment over every interleaving of concurrent emits: freshness of what is attached, and delivery. */
module AuditRuns {
  import opened Common
  import opened Audit

  // ---- One emit ----

  /** The second event is the first with a governance entry added to its details and nothing else changed. */
  ghost predicate OnlyAdded(event: Event, sent: Event) {
    && (forall key :: key != "details" ==> (key in event <==> key in sent))
    && (forall key :: key != "details" && key in event ==> event[key] == sent[key])
    && "details" in sent && sent["details"].Dict? && "governance" in sent["details"].entries
    && (if "details" in event then event["details"] == Dict(sent["details"].entries - {"governance"})
        else sent["details"].entries.Keys == {"governance"})
  }

  /** Enrichment only adds exactly when the details are a dict or absent; any other details value is replaced. */
  lemma OnlyAddedIff(event: Event, governance: Field)
    requires !Governed(event)
    ensures OnlyAdded(event, Enriched(event, governance)) <==> "details" !in event || event["details"].Dict?
    ensures var sent := Enriched(event, governance);
            "details" in sent && sent["details"].Dict? && "governance" in sent["details"].entries
            && sent["details"].entries["governance"] == governance
  {
    var sent := Enriched(event, governance);
    if "details" in event && event["details"].Dict? {
      assert sent["details"].entries - {"governance"} == event["details"].entries;
    }
  }

  /** The name an emit looks up, read off the event: the text under "agent", unless the details already carry
      governance data; none when it is missing, empty or no text. */
  function Looked(event: Event): Option<string> {
    if "details" in event && event["details"].Dict? && "governance" in event["details"].entries then None
    else if "agent" in event && event["agent"].Text? && event["agent"].text != "" then Some(event["agent"].text)
    else None
  }

  /** Where an emit's data comes from: nowhere without a name to look up, the cache while the entry has not expired,
      and the registry otherwise, whose answer is then cached for one time-to-live if it found the agent. */
  lemma DataIs(cache: Cache, registry: Registry, ttl: real, event: Event, now: real, at: real)
    ensures var data := DataFor(cache, registry, event, now, at);
            var after := CacheAfter(cache, registry, ttl, event, now, at);
            match Looked(event)
            case None => data == None && after == cache
            case Some(name) =>
              if name in cache && now < cache[name].expiresAt then data == Some(cache[name].data) && after == cache
              else match registry(name, at)
                   case Found(found) => data == Some(found) && after == cache[name := CacheEntry(found, now + ttl)]
                   case _ => data == None && after == cache
  {
  }

  function Delivered(attempts: seq<Attempt>): seq<Event> {
    if attempts == [] then []
    else
      var last := attempts[|attempts| - 1];
      Delivered(attempts[..|attempts| - 1]) + (if last.ok then [last.sent] else [])
  }

  /** An emit hands over at most one event, none exactly when the sink raised on its last attempt; it tries twice
      exactly when the sink raised on the enriched form, and then falls back on the original. */
  lemma DeliveredOnce(event: Event, governance: Option<Field>, enrichedFails: bool, originalFails: bool)
    ensures var attempts := Attempts(event, governance, enrichedFails, originalFails);
            && Delivered(attempts)
               == (if governance.Some? && !enrichedFails then [Enriched(event, governance.value)]
                   else if originalFails then [] else [event])
            && (|attempts| == 2 <==> governance.Some? && enrichedFails)
            && 1 <= |attempts| <= 2
  {
    var attempts := Attempts(event, governance, enrichedFails, originalFails);
    if |attempts| == 2 {
      assert attempts[..1] == [attempts[0]];
      assert Delivered(attempts[..1]) == [];
    }
  }

  // ---- Interleaved emits ----

  /** An emit whose registry lookup is under way. */
  datatype Flight = Flight(event: Event, checkedAt: real)

  /** What one call handed to the sink, with the data it attached. */
  datatype Record = Record(call: nat, event: Event, checkedAt: real, data: Option<Governance>, attempts: seq<Attempt>)

  datatype System = System(cache: Cache, begun: set<nat>, flights: map<nat, Flight>, log: seq<Record>)

  datatype Setup = Setup(registry: Registry, encode: Encoder, ttl: real)

  datatype Step =
    | Begin(call: nat, event: Event, now: real, enrichedFails: bool, originalFails: bool)
    | Land(call: nat, at: real, enrichedFails: bool, originalFails: bool)

  /** A call begins once; its lookup is answered no earlier than its cache check. */
  predicate Enabled(s: System, step: Step) {
    match step
    case Begin(c, _, _, _, _) => c !in s.begun
    case Land(c, at, _, _) => c in s.flights && s.flights[c].checkedAt <= at
  }

  function Finished(setup: Setup, c: nat, event: Event, checkedAt: real, data: Option<Governance>,
                    enrichedFails: bool, originalFails: bool): Record
  {
    Record(c, event, checkedAt, data, Attempts(event, Written(data, setup.encode), enrichedFails, originalFails))
  }

  function Perform(setup: Setup, s: System, step: Step): System {
    if !Enabled(s, step) then s
    else
      match step
      case Begin(c, event, now, ef, of) =>
        var begun := s.begun + {c};
        if Governed(event) || AgentOf(event) == "" then
          s.(begun := begun, log := s.log + [Finished(setup, c, event, now, None, ef, of)])
        else if Cached(s.cache, AgentOf(event), now).Some? then
          s.(begun := begun,
             log := s.log + [Finished(setup, c, event, now, Cached(s.cache, AgentOf(event), now), ef, of)])
        else s.(begun := begun, flights := s.flights[c := Flight(event, now)])
      case Land(c, at, ef, of) =>
        var flight := s.flights[c];
        var answer := setup.registry(AgentOf(flight.event), at);
        System(Stored(s.cache, AgentOf(flight.event), flight.checkedAt, setup.ttl, answer), s.begun, s.flights - {c},
               s.log + [Finished(setup, c, flight.event, flight.checkedAt, DataOf(answer), ef, of)])
  }

  function After(setup: Setup, steps: seq<Step>): System {
    if steps == [] then System(map[], {}, map[], [])
    else Perform(setup, After(setup, steps[..|steps| - 1]), steps[|steps| - 1])
  }

  /** Step j answered a lookup of the name with this data. */
  ghost predicate LandedAt(setup: Setup, steps: seq<Step>, j: nat, name: string, data: Governance) {
    && j < |steps| && steps[j].Land?
    && var before := After(setup, steps[..j]);
       && Enabled(before, steps[j])
       && AgentOf(before.flights[steps[j].call].event) == name
       && setup.registry(name, steps[j].at) == Found(data)
  }

  /** Some lookup of the run gave this data for the name at an instant later than `since`. */
  ghost predicate GivenAfter(setup: Setup, steps: seq<Step>, name: string, data: Governance, since: real) {
    exists j: nat :: LandedAt(setup, steps, j, name, data) && since < steps[j].at
  }

  ghost predicate GivenFrom(setup: Setup, steps: seq<Step>, name: string, data: Governance, since: real) {
    exists j: nat :: LandedAt(setup, steps, j, name, data) && since <= steps[j].at
  }

  lemma LandedLater(setup: Setup, steps: seq<Step>, n: nat, j: nat, name: string, data: Governance)
    requires n <= |steps| && LandedAt(setup, steps[..n], j, name, data)
    ensures LandedAt(setup, steps, j, name, data) && steps[..n][j] == steps[j]
  {
    assert steps[..n][..j] == steps[..j];
  }

  lemma GivenLater(setup: Setup, steps: seq<Step>, n: nat, name: string, data: Governance, since: real)
    requires n <= |steps|
    ensures GivenAfter(setup, steps[..n], name, data, since) ==> GivenAfter(setup, steps, name, data, since)
    ensures GivenFrom(setup, steps[..n], name, data, since) ==> GivenFrom(setup, steps, name, data, since)
  {
    if GivenAfter(setup, steps[..n], name, data, since) {
      var j: nat :| LandedAt(setup, steps[..n], j, name, data) && since < steps[..n][j].at;
      LandedLater(setup, steps, n, j, name, data);
    }
    if GivenFrom(setup, steps[..n], name, data, since) {
      var j: nat :| LandedAt(setup, steps[..n], j, name, data) && since <= steps[..n][j].at;
      LandedLater(setup, steps, n, j, name, data);
    }
    hide LandedAt;
  }

  /** The entry's data came from a lookup of the run no earlier than one time-to-live before the entry expires. */
  ghost predicate EntrySound(setup: Setup, steps: seq<Step>, cache: Cache, name: string) {
    name in cache && GivenFrom(setup, steps, name, cache[name].data, cache[name].expiresAt - setup.ttl)
  }

  ghost predicate RecordFresh(setup: Setup, steps: seq<Step>, r: Record) {
    r.data.Some? ==>
      || GivenAfter(setup, steps, AgentOf(r.event), r.data.value, r.checkedAt - setup.ttl)
      || GivenFrom(setup, steps, AgentOf(r.event), r.data.value, r.checkedAt)
  }

  ghost predicate AllFresh(setup: Setup, steps: seq<Step>, s: System) {
    && (forall name :: name in s.cache ==> EntrySound(setup, steps, s.cache, name))
    && (forall i :: 0 <= i < |s.log| ==> RecordFresh(setup, steps, s.log[i]))
  }

  lemma FreshLater(setup: Setup, steps: seq<Step>, n: nat, s: System)
    requires n <= |steps| && AllFresh(setup, steps[..n], s)
    ensures AllFresh(setup, steps, s)
  {
    forall name | name in s.cache ensures EntrySound(setup, steps, s.cache, name) {
      assert EntrySound(setup, steps[..n], s.cache, name);
      GivenLater(setup, steps, n, name, s.cache[name].data, s.cache[name].expiresAt - setup.ttl);
    }
    forall i | 0 <= i < |s.log| ensures RecordFresh(setup, steps, s.log[i]) {
      var r := s.log[i];
      assert RecordFresh(setup, steps[..n], r);
      if r.data.Some? {
        GivenLater(setup, steps, n, AgentOf(r.event), r.data.value, r.checkedAt - setup.ttl);
        GivenLater(setup, steps, n, AgentOf(r.event), r.data.value, r.checkedAt);
      }
    }
    hide GivenAfter, GivenFrom, AgentOf;
  }

  lemma HitFresh(setup: Setup, steps: seq<Step>, cache: Cache, name: string, now: real)
    requires Cached(cache, name, now).Some? && EntrySound(setup, steps, cache, name)
    ensures GivenAfter(setup, steps, name, Cached(cache, name, now).value, now - setup.ttl)
  {
    hide After, Enabled, AgentOf;
    var data := cache[name].data;
    var j: nat :| LandedAt(setup, steps, j, name, data) && cache[name].expiresAt - setup.ttl <= steps[j].at;
    assert now - setup.ttl < steps[j].at;
  }

  lemma LandGives(setup: Setup, steps: seq<Step>)
    requires steps != [] && steps[|steps| - 1].Land? && Enabled(After(setup, steps[..|steps| - 1]), steps[|steps| - 1])
    ensures var flight := After(setup, steps[..|steps| - 1]).flights[steps[|steps| - 1].call];
            var answer := setup.registry(AgentOf(flight.event), steps[|steps| - 1].at);
            answer.Found? ==> GivenFrom(setup, steps, AgentOf(flight.event), answer.data, flight.checkedAt)
  {
    var n := |steps| - 1;
    var flight := After(setup, steps[..n]).flights[steps[n].call];
    var answer := setup.registry(AgentOf(flight.event), steps[n].at);
    if answer.Found? {
      assert LandedAt(setup, steps, n, AgentOf(flight.event), answer.data);
    }
    hide After, AgentOf;
  }

  /** The last step keeps what is fresh and adds only what is. */
  lemma StepFresh(setup: Setup, steps: seq<Step>, s: System)
    requires steps != [] && s == After(setup, steps[..|steps| - 1]) && AllFresh(setup, steps, s)
    ensures AllFresh(setup, steps, Perform(setup, s, steps[|steps| - 1]))
  {
    hide Attempts, AgentOf, Governed, GivenAfter, GivenFrom, After;
    var step := steps[|steps| - 1];
    if Enabled(s, step) {
      match step {
        case Begin(c, event, now, _, _) =>
          if Cached(s.cache, AgentOf(event), now).Some? {
            HitFresh(setup, steps, s.cache, AgentOf(event), now);
          }
        case Land(c, at, _, _) =>
          LandGives(setup, steps);
          var flight := s.flights[c];
          var name := AgentOf(flight.event);
          var s' := Perform(setup, s, step);
          forall n | n in s'.cache ensures EntrySound(setup, steps, s'.cache, n) {
            if n != name || !setup.registry(name, at).Found? {
              assert EntrySound(setup, steps, s.cache, n);
            }
          }
      }
    }
  }

  lemma {:induction false} EveryStateFresh(setup: Setup, steps: seq<Step>)
    ensures AllFresh(setup, steps, After(setup, steps))
  {
    if steps != [] {
      var before := steps[..|steps| - 1];
      EveryStateFresh(setup, before);
      FreshLater(setup, steps, |steps| - 1, After(setup, before));
      StepFresh(setup, steps, After(setup, before));
      hide Perform, AllFresh;
    }
  }

  function TimeOf(step: Step): real {
    if step.Begin? then step.now else step.at
  }

  ghost predicate ClockForward(steps: seq<Step>) {
    forall i, j :: 0 <= i <= j < |steps| ==> TimeOf(steps[i]) <= TimeOf(steps[j])
  }

  /** However emits interleave, the governance data attached to an event by step m is the answer to a lookup that
      the run made for the event's agent at step m or before, less than one time-to-live before the cache check of
      that emit or after it, and, the clock running forward, no later than step m. */
  lemma AttachedIsFresh(setup: Setup, steps: seq<Step>, m: nat, i: nat)
    requires setup.ttl > 0.0 && m < |steps|
    requires i < |After(setup, steps[..m + 1]).log| && After(setup, steps[..m + 1]).log[i].data.Some?
    ensures var r := After(setup, steps[..m + 1]).log[i];
            exists j: nat ::
              && LandedAt(setup, steps, j, AgentOf(r.event), r.data.value)
              && j <= m
              && r.checkedAt - setup.ttl < steps[j].at
              && (ClockForward(steps) ==> steps[j].at <= TimeOf(steps[m]))
  {
    var upTo := steps[..m + 1];
    EveryStateFresh(setup, upTo);
    var r := After(setup, upTo).log[i];
    assert RecordFresh(setup, upTo, r);
    hide After, AgentOf, RecordFresh, LandedAt, ClockForward;
    var name, data := AgentOf(r.event), r.data.value;
    assert exists j: nat :: LandedAt(setup, upTo, j, name, data) && r.checkedAt - setup.ttl < upTo[j].at by {
      FreshMeans(setup, upTo, r);
    }
    var j: nat :| LandedAt(setup, upTo, j, name, data) && r.checkedAt - setup.ttl < upTo[j].at;
    LandedLater(setup, steps, m + 1, j, name, data);
    LandedBounds(setup, upTo, j, name, data);
    if ClockForward(steps) {
      Forward(steps, j, m);
    }
  }

  lemma FreshMeans(setup: Setup, steps: seq<Step>, r: Record)
    requires setup.ttl > 0.0 && r.data.Some? && RecordFresh(setup, steps, r)
    ensures GivenAfter(setup, steps, AgentOf(r.event), r.data.value, r.checkedAt - setup.ttl)
  {
    hide After, Enabled, AgentOf;
    var name, data := AgentOf(r.event), r.data.value;
    if GivenFrom(setup, steps, name, data, r.checkedAt) {
      var j: nat :| LandedAt(setup, steps, j, name, data) && r.checkedAt <= steps[j].at;
      assert r.checkedAt - setup.ttl < steps[j].at;
    }
  }

  lemma LandedBounds(setup: Setup, steps: seq<Step>, j: nat, name: string, data: Governance)
    requires LandedAt(setup, steps, j, name, data)
    ensures j < |steps| && steps[j].Land?
  {
  }

  lemma Forward(steps: seq<Step>, j: nat, m: nat)
    requires ClockForward(steps) && j <= m < |steps|
    ensures TimeOf(steps[j]) <= TimeOf(steps[m])
  {
  }

  // ---- Delivery ----

  function RecordsOf(log: seq<Record>, c: nat): nat {
    if log == [] then 0
    else RecordsOf(log[..|log| - 1], c) + (if log[|log| - 1].call == c then 1 else 0)
  }

  /** Every call that began is either under way or has one record, and no other call has any. */
  ghost predicate Accounted(s: System, c: nat) {
    && (c in s.flights ==> c in s.begun)
    && RecordsOf(s.log, c) == if c in s.begun && c !in s.flights then 1 else 0
  }

  lemma RecordMore(log: seq<Record>, r: Record, c: nat)
    ensures RecordsOf(log + [r], c) == RecordsOf(log, c) + (if r.call == c then 1 else 0)
  {
    assert (log + [r])[..|log|] == log;
  }

  lemma StepAccounted(setup: Setup, s: System, step: Step, c: nat)
    requires Accounted(s, c) && (step.Land? ==> Accounted(s, step.call))
    ensures Accounted(Perform(setup, s, step), c)
  {
    hide RecordsOf, Attempts, AgentOf, Governed, Cached;
    if Enabled(s, step) {
      var s' := Perform(setup, s, step);
      if |s'.log| > |s.log| {
        RecordMore(s.log, s'.log[|s.log|], c);
      }
    }
  }

  /** Every emit is forwarded once: a call that is no longer waiting for the registry has exactly one record in the
      log, whatever else runs beside it. */
  lemma {:induction false} ForwardedOnce(setup: Setup, steps: seq<Step>, c: nat)
    ensures Accounted(After(setup, steps), c)
  {
    if steps != [] {
      var before, step := steps[..|steps| - 1], steps[|steps| - 1];
      ForwardedOnce(setup, before, c);
      if step.Land? {
        ForwardedOnce(setup, before, step.call);
      }
      StepAccounted(setup, After(setup, before), step, c);
      hide Perform, Accounted;
    }
  }

  /** The record was made by one of the paths of `emit`, for the data it names. */
  ghost predicate Faithful(setup: Setup, r: Record) {
    && (exists ef: bool, of: bool :: r.attempts == Attempts(r.event, Written(r.data, setup.encode), ef, of))
    && (r.data.Some? ==> !Governed(r.event) && AgentOf(r.event) != "")
  }

  ghost predicate AllFaithful(setup: Setup, s: System) {
    && (forall i :: 0 <= i < |s.log| ==> Faithful(setup, s.log[i]))
    && (forall c :: c in s.flights ==> !Governed(s.flights[c].event) && AgentOf(s.flights[c].event) != "")
  }

  lemma StepFaithful(setup: Setup, s: System, step: Step)
    requires AllFaithful(setup, s)
    ensures AllFaithful(setup, Perform(setup, s, step))
  {
    hide Attempts, AgentOf, Governed, Cached, Stored, Written;
  }

  lemma {:induction false} EveryRecordFaithful(setup: Setup, steps: seq<Step>)
    ensures AllFaithful(setup, After(setup, steps))
  {
    if steps != [] {
      EveryRecordFaithful(setup, steps[..|steps| - 1]);
      StepFaithful(setup, After(setup, steps[..|steps| - 1]), steps[|steps| - 1]);
      hide Perform, AllFaithful;
    }
  }

  lemma AllOk(event: Event, governance: Option<Field>, ef: bool, of: bool)
    requires var attempts := Attempts(event, governance, ef, of); forall k :: 0 <= k < |attempts| ==> attempts[k].ok
    ensures Attempts(event, governance, ef, of)
         == [Attempt(if governance.Some? then Enriched(event, governance.value) else event, true)]
  {
    hide Enriched;
    assert Attempts(event, governance, ef, of)[0].ok;
  }

  /** When the sink did not raise on a call's attempts, the call delivered exactly one event: the original, or the
      original with the governance entry added when its details are a dict or absent. */
  lemma DeliveryIsFaithful(setup: Setup, steps: seq<Step>, i: nat)
    requires i < |After(setup, steps).log|
    requires forall k :: 0 <= k < |After(setup, steps).log[i].attempts| ==> After(setup, steps).log[i].attempts[k].ok
    ensures var r := After(setup, steps).log[i];
            && |r.attempts| == 1
            && (r.data.None? ==> r.attempts[0].sent == r.event)
            && (r.data.Some? ==>
                  && r.attempts[0].sent == Enriched(r.event, setup.encode(r.data.value))
                  && (OnlyAdded(r.event, r.attempts[0].sent) <==> "details" !in r.event || r.event["details"].Dict?))
  {
    EveryRecordFaithful(setup, steps);
    var r := After(setup, steps).log[i];
    hide After, OnlyAdded, Enriched, Governed, Attempts;
    assert Faithful(setup, r);
    var ef: bool, of: bool :| r.attempts == Attempts(r.event, Written(r.data, setup.encode), ef, of);
    AllOk(r.event, Written(r.data, setup.encode), ef, of);
    if r.data.Some? {
      OnlyAddedIff(r.event, setup.encode(r.data.value));
    }
  }

  /** An emit that runs without interruption leaves what the class method leaves: the same cache and attempts. */
  lemma UninterruptedEmit(setup: Setup, s: System, c: nat, event: Event, now: real, at: real, ef: bool, of: bool)
    requires c !in s.begun && c !in s.flights && now <= at
    ensures var s1 := Perform(setup, s, Begin(c, event, now, ef, of));
            var s2 := Perform(setup, s1, Land(c, at, ef, of));
            && s2.cache == CacheAfter(s.cache, setup.registry, setup.ttl, event, now, at)
            && s2.flights == s.flights
            && var data := DataFor(s.cache, setup.registry, event, now, at);
               s2.log == s.log + [Record(c, event, now, data, Attempts(event, Written(data, setup.encode), ef, of))]
  {
    hide Attempts, Governed, AgentOf, Stored, Written;
  }
}
