/** The registry class of packages/presidium/src/presidium/registry/memory.py. Each method is proved
    to make exactly the state change and give exactly the answer of its function in MemoryRegistry. */
module InMemoryRegistryClass {
  import opened Common
  import opened Model
  import opened Lineage
  import opened LinearTrust
  import Spec = MemoryRegistry

  class InMemoryRegistry {
    var order: seq<string>
    var agents: map<string, AgentRecord>
    var scorers: map<string, LinearTrustScore>
    var trustEvents: seq<Spec.LogEntry>
    const maxDelegationDepth: int

    ghost function ScorerStates(): map<string, LinearState>
      reads this`scorers, scorers.Values
    {
      map n | n in scorers :: scorers[n].State()
    }

    ghost function Abs(): Spec.Memory
      reads this, scorers.Values
    {
      Spec.Memory(order, agents, ScorerStates(), trustEvents, maxDelegationDepth)
    }

    /** Names own their scorer: no two share one. */
    ghost predicate Separate()
      reads this`scorers
    {
      forall m, n :: m in scorers && n in scorers && m != n ==> scorers[m] != scorers[n]
    }

    ghost predicate Valid()
      reads this, scorers.Values
    {
      Spec.WellFormed(Abs()) && Separate()
    }

    constructor (maxDelegationDepth: int)
      ensures Valid() && Abs() == Spec.EmptyMemory(maxDelegationDepth)
    {
      order, agents, scorers, trustEvents := [], map[], map[], [];
      this.maxDelegationDepth := maxDelegationDepth;
    }

    method SyncTrust(r: AgentRecord, now: real) returns (synced: AgentRecord)
      ensures synced == Spec.SyncTrust(ScorerStates(), r, now)
    {
      synced := r;
      if r.name in scorers {
        var v := scorers[r.name].Value(now);
        synced := r.(trustValue := v, trustTier := TierFor(v));
      }
    }

    method Write(name: string, r: AgentRecord)
      modifies this`agents
      ensures Abs() == old(Abs()).(agents := old(agents)[name := r])
    {
      agents := agents[name := r];
    }

    method Lookup(name: string, now: real) returns (found: Option<AgentRecord>)
      requires Valid()
      modifies this`agents
      ensures Valid()
      ensures (Abs(), found) == Spec.Lookup(old(Abs()), name, now)
    {
      hide Reading, TierFor;
      if name !in agents {
        return None;
      }
      var r := SyncTrust(agents[name], now);
      Write(name, r);
      found := Some(r);
    }

    method LookupById(id: string, now: real) returns (found: Option<AgentRecord>)
      requires Valid()
      modifies this`agents
      ensures Valid()
      ensures (Abs(), found) == Spec.LookupById(old(Abs()), id, now)
    {
      hide Reading, TierFor;
      for i := 0 to |order|
        invariant agents == old(agents)
        invariant Spec.FirstWithId(order, agents, id) == Spec.FirstWithId(order[i..], agents, id)
      {
        if agents[order[i]].agentId == id {
          found := Lookup(order[i], now);
          return;
        }
      }
      found := None;
    }

    method Register(record: AgentRecord, now: real) returns (answer: Spec.Answer)
      requires Valid()
      modifies this`order, this`agents, this`scorers
      ensures Valid()
      ensures (Abs(), answer) == Spec.Register(old(Abs()), record, now)
    {
      var stored := record;
      if record.parentAgentId.Some? {
        var parent := LookupById(record.parentAgentId.value, now);
        if parent.None? {
          return Err(UnresolvableParent(record.parentAgentId.value));
        }
        var derived := DeriveChild(parent.value, record, maxDelegationDepth);
        if derived.Err? {
          return Err(derived.error);
        }
        stored := derived.value;
      }
      Spec.InsertWellFormed(Abs(), stored, now);
      Store(stored, now);
      answer := Ok(Spec.Touched(stored, now));
    }

    method PutScorer(name: string, initialValue: real, ceiling: Option<real>, now: real)
      requires Separate()
      modifies this`scorers
      ensures Separate()
      ensures ScorerStates() == old(ScorerStates())[name := Initial(initialValue, DEFAULT_DECAY_RATE, ceiling, now)]
    {
      hide Initial;
      var scorer := new LinearTrustScore(initialValue, DEFAULT_DECAY_RATE, ceiling, now);
      scorers := scorers[name := scorer];
    }

    /** Storing and touching the caller's record; the registry owns it from here on. */
    method Store(stored: AgentRecord, now: real)
      requires Separate()
      modifies this`order, this`agents, this`scorers
      ensures Separate()
      ensures Abs() == Spec.Insert(old(Abs()), stored, now)
    {
      ghost var target := Spec.Insert(Abs(), stored, now);
      hide Initial, ScorerStates, Separate, Spec.Touched;
      var n := stored.name;
      order := if n in agents then order else order + [n];
      assert order == target.order;
      agents := agents[n := Spec.Touched(stored, now)];
      assert agents == target.agents;
      PutScorer(n, stored.trustValue, stored.trustCeiling, now);
      assert ScorerStates() == target.scorers;
    }

    method Drop(name: string)
      requires Separate()
      modifies this`order, this`agents, this`scorers
      ensures Separate()
      ensures Abs() == old(Abs()).(order := Without(old(order), name), agents := old(agents) - {name},
                                   scorers := old(ScorerStates()) - {name})
    {
      order := Without(order, name);
      agents := agents - {name};
      scorers := scorers - {name};
      assert ScorerStates() == old(ScorerStates()) - {name};
    }

    method Deregister(name: string) returns (error: Option<RegistryError>)
      requires Valid()
      modifies this`order, this`agents, this`scorers
      ensures Valid()
      ensures (Abs(), error) == Spec.Deregister(old(Abs()), name)
    {
      WithoutIs(order, name);
      hide Separate, ScorerStates, Without;
      if name !in agents {
        return Some(AgentNotFound(name));
      }
      Drop(name);
      error := None;
    }

    /** The listing loop: every record is synced in place, the matching ones are collected. */
    method CollectMatching(filter: Spec.Filter, now: real, ghost m: Spec.Memory) returns (results: seq<AgentRecord>)
      requires Spec.WellFormed(m) && m.order == order && m.agents == agents && m.scorers == ScorerStates()
      modifies this`agents
      ensures agents == Spec.SyncAll(m, now).agents
      ensures results == Spec.Select(m.order, agents, filter)
    {
      Spec.SyncStart(m, filter, now);
      hide Spec.WellFormed, Spec.SyncThese, Spec.Select, Spec.SyncTrust, Spec.Matches;
      results := [];
      for i := 0 to |order|
        invariant agents == Spec.SyncThese(m, m.order[..i], now)
        invariant results == Spec.Select(m.order[..i], Spec.SyncAll(m, now).agents, filter)
      {
        Spec.SyncNext(m, filter, i, now);
        var r := SyncTrust(agents[order[i]], now);
        agents := agents[order[i] := r];
        if Spec.Matches(filter, r) {
          results := results + [r];
        }
      }
      assert m.order[..|order|] == m.order;
    }

    method ListAgents(filter: Spec.Filter, now: real) returns (results: seq<AgentRecord>)
      requires Valid()
      modifies this`agents
      ensures Valid()
      ensures (Abs(), results) == Spec.ListAgents(old(Abs()), filter, now)
    {
      assert Spec.WellFormed(Spec.SyncAll(Abs(), now)) by { Spec.SyncAllWellFormed(Abs(), now); }
      hide Separate, ScorerStates, Spec.WellFormed, Spec.SyncThese, Spec.Select;
      results := CollectMatching(filter, now, Abs());
    }

    method AppendGrant(name: string, grant: Grant, now: real) returns (answer: Spec.Answer)
      requires name in agents
      modifies this`agents
      ensures (Abs(), answer) == Spec.AppendGrant(old(Abs()), name, grant, now)
    {
      hide Reading, TierFor;
      var r := agents[name];
      r := SyncTrust(Spec.Touched(r.(grants := r.grants + [grant]), now), now);
      Write(name, r);
      answer := Ok(r);
    }

    method AddGrant(name: string, grant: Grant, now: real) returns (answer: Spec.Answer)
      requires Valid()
      modifies this`agents
      ensures Valid()
      ensures (Abs(), answer) == Spec.AddGrant(old(Abs()), name, grant, now)
    {
      Spec.AddGrantWellFormed(Abs(), name, grant, now);
      hide Reading, TierFor, Spec.WellFormed, Pairs, ValidateNarrowing, Spec.FirstWithId, Spec.SyncTrust, Spec.AppendGrant;
      if name !in agents {
        return Err(AgentNotFound(name));
      }
      var parentId := agents[name].parentAgentId;
      if parentId.Some? {
        var parent := LookupById(parentId.value, now);
        if parent.None? {
          return Err(UnresolvableParent(parentId.value));
        }
        var escalation := ValidateNarrowing(parent.value, name, [grant]);
        if escalation.Some? {
          return Err(escalation.value);
        }
      }
      answer := AppendGrant(name, grant, now);
    }

    method FindGrant(grants: seq<Grant>, grantId: string) returns (i: nat)
      ensures i == Spec.GrantIndex(grants, grantId)
    {
      i := 0;
      while i < |grants| && grants[i].id != grantId
        invariant i <= |grants|
        invariant Spec.GrantIndex(grants, grantId) == i + Spec.GrantIndex(grants[i..], grantId)
      {
        i := i + 1;
      }
    }

    method RemoveGrant(name: string, grantId: string, now: real) returns (answer: Spec.Answer)
      requires Valid()
      modifies this`agents
      ensures Valid()
      ensures (Abs(), answer) == Spec.RemoveGrant(old(Abs()), name, grantId, now)
    {
      hide Reading, TierFor, Spec.GrantIndex, Spec.SyncTrust, Spec.WellFormed;
      Spec.StepWellFormed(Abs(), Spec.OpRemoveGrant(name, grantId), now);
      if name !in agents {
        return Err(AgentNotFound(name));
      }
      var r := agents[name];
      var i := FindGrant(r.grants, grantId);
      if i == |r.grants| {
        return Err(GrantNotFound(name, grantId));
      }
      r := SyncTrust(Spec.Touched(r.(grants := r.grants[..i] + r.grants[i + 1..]), now), now);
      Write(name, r);
      answer := Ok(r);
    }

    method HasGrant(name: string, resource: string, action: string) returns (held: Result<bool, RegistryError>)
      requires Valid()
      ensures held == Spec.HasGrant(Abs(), name, resource, action)
    {
      if name !in agents {
        return Err(AgentNotFound(name));
      }
      var grants := agents[name].grants;
      for i := 0 to |grants|
        invariant (resource, action) !in Pairs(grants[..i])
      {
        if resource in grants[i].resources && action in grants[i].actions {
          return Ok(true);
        }
        assert grants[..i + 1] == grants[..i] + [grants[i]];
        PairsOfConcat(grants[..i], [grants[i]]);
      }
      assert grants[..|grants|] == grants;
      held := Ok(false);
    }

    /** The common tail of the two rescoring calls, after the scorer moved: log, sync, touch. */
    method Log(name: string, event: TrustEvent, valueBefore: real, ghost before: Spec.Memory, now: real)
        returns (r: AgentRecord)
      requires name in agents && name in scorers && name in before.scorers && agents[name].name == name
      requires Abs() == before.(scorers := before.scorers[name := scorers[name].State()])
      requires valueBefore == Reading(before.scorers[name], now)
      modifies this`agents, this`trustEvents
      ensures (Abs(), Ok(r)) == Spec.Rescored(before, name, event, scorers[name].State(), now)
    {
      hide Reading, TierFor;
      var valueAfter := scorers[name].Value(now);
      trustEvents := trustEvents + [Spec.LogEntry(agents[name].agentId, event, valueBefore, valueAfter,
                                                  TierFor(valueBefore), TierFor(valueAfter), now)];
      r := SyncTrust(agents[name], now);
      r := Spec.Touched(r, now);
      agents := agents[name := r];
    }

    method RecordTrustEvent(name: string, event: TrustEvent, now: real) returns (answer: Spec.Answer)
      requires Valid()
      modifies this`agents, this`trustEvents, scorers.Values
      ensures Valid()
      ensures (Abs(), answer) == Spec.RecordTrustEvent(old(Abs()), name, event, now)
    {
      assert (name in scorers <==> name in agents) && (name in agents ==> agents[name].name == name);
      hide Reading, TierFor, Spec.WellFormed, AfterEvent, AfterSet, Spec.Rescored, Spec.SyncTrust;
      if name !in agents {
        return Err(AgentNotFound(name));
      }
      var scorer := scorers[name];
      var valueBefore := scorer.Value(now);
      scorer.RecordEvent(event, now);
      assert ScorerStates() == old(ScorerStates())[name := scorer.State()];
      Spec.RescoredWellFormed(old(Abs()), name, event, scorer.State(), now);
      var r := Log(name, event, valueBefore, old(Abs()), now);
      answer := Ok(r);
    }

    method SetTrust(name: string, value: real, now: real) returns (answer: Spec.Answer)
      requires Valid()
      modifies this`agents, this`trustEvents, scorers.Values
      ensures Valid()
      ensures (Abs(), answer) == Spec.SetTrust(old(Abs()), name, value, now)
    {
      assert (name in scorers <==> name in agents) && (name in agents ==> agents[name].name == name);
      hide Reading, TierFor, Spec.WellFormed, AfterEvent, AfterSet, Spec.Rescored, Spec.SyncTrust;
      if name !in agents {
        return Err(AgentNotFound(name));
      }
      var scorer := scorers[name];
      var valueBefore := scorer.Value(now);
      scorer.SetValue(value, now);
      assert ScorerStates() == old(ScorerStates())[name := scorer.State()];
      Spec.RescoredWellFormed(old(Abs()), name, HumanOverride, scorer.State(), now);
      var r := Log(name, HumanOverride, valueBefore, old(Abs()), now);
      answer := Ok(r);
    }

    method UpdateStatus(name: string, status: AgentStatus, now: real) returns (answer: Spec.Answer)
      requires Valid()
      modifies this`agents
      ensures Valid()
      ensures (Abs(), answer) == Spec.UpdateStatus(old(Abs()), name, status, now)
    {
      hide Reading, TierFor;
      if name !in agents {
        return Err(AgentNotFound(name));
      }
      var r := SyncTrust(Spec.Touched(agents[name].(status := status), now), now);
      Write(name, r);
      answer := Ok(r);
    }

    method UpdateIdentity(name: string, key: string, algorithm: string, now: real) returns (answer: Spec.Answer)
      requires Valid()
      modifies this`agents
      ensures Valid()
      ensures (Abs(), answer) == Spec.UpdateIdentity(old(Abs()), name, key, algorithm, now)
    {
      hide Reading, TierFor;
      if name !in agents {
        return Err(AgentNotFound(name));
      }
      var r := Spec.Touched(agents[name].(publicKey := key, publicKeyAlgorithm := algorithm), now);
      Write(name, r);
      answer := Ok(r);
    }
  }
}
