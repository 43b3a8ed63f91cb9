/** What each call of packages/presidium/src/presidium/registry/memory.py does to the record, the scorer and the log it
    touches, field by field. */
module RegistryLaws {
  import opened Common
  import opened Model
  import opened Lineage
  import opened LinearTrust
  import opened MemoryRegistry

  /** A scorer as `register` makes it: the value within [0, 1], the ceiling beside it, the decay clock started. */
  predicate NewScorer(s: LinearState, value: real, ceiling: Option<real>, now: real) {
    && s.stored == (if value < 0.0 then 0.0 else if value > 1.0 then 1.0 else value)
    && s.decayRate == 0.01 && s.ceiling == ceiling && s.lastPositive == now && s.lastUpdated == now
  }

  /** The record carries the scorer's reading and its tier. */
  predicate Shows(r: AgentRecord, s: LinearState, now: real) {
    && r.trustValue == Reading(s, now)
    && (r.trustTier == Trusted <==> r.trustValue >= 0.7)
    && (r.trustTier == Standard <==> 0.3 <= r.trustValue < 0.7)
  }

  // ---- Reading ----

  /** A lookup answers the registered record with its trust fields brought up to date, and stores that record. */
  lemma LookupIs(m: Memory, name: string, now: real)
    requires WellFormed(m)
    ensures var (m1, found) := Lookup(m, name, now);
            && (found.Some? <==> name in m.agents)
            && (found.None? ==> m1 == m)
            && (found.Some? ==>
                  && Shows(found.value, m.scorers[name], now)
                  && found.value == m.agents[name].(trustValue := found.value.trustValue,
                                                    trustTier := found.value.trustTier)
                  && m1 == m.(agents := m.agents[name := found.value]))
  {
    hide Reading;
  }

  /** By id, it is the lookup of the earliest registered name whose record has the id. */
  lemma {:induction false} FirstWithIdIs(order: seq<string>, agents: map<string, AgentRecord>, id: string, i: nat)
    requires i < |order| && order[i] in agents && agents[order[i]].agentId == id
    requires forall j :: 0 <= j < i && order[j] in agents ==> agents[order[j]].agentId != id
    ensures FirstWithId(order, agents, id) == Some(order[i])
  {
    if i > 0 {
      assert order[0] !in agents || agents[order[0]].agentId != id;
      FirstWithIdIs(order[1..], agents, id, i - 1);
    }
  }

  lemma LookupByIdIs(m: Memory, id: string, i: nat, now: real)
    requires i < |m.order| && m.order[i] in m.agents && m.agents[m.order[i]].agentId == id
    requires forall j :: 0 <= j < i && m.order[j] in m.agents ==> m.agents[m.order[j]].agentId != id
    ensures LookupById(m, id, now) == Lookup(m, m.order[i], now)
  {
    FirstWithIdIs(m.order, m.agents, id, i);
    hide Lookup;
  }

  lemma LookupByIdNone(m: Memory, id: string, now: real)
    requires forall j :: 0 <= j < |m.order| && m.order[j] in m.agents ==> m.agents[m.order[j]].agentId != id
    ensures LookupById(m, id, now) == (m, None)
  {
    FirstWithIdFound(m.order, m.agents, id);
  }

  // ---- Registering ----

  /** A root is stored as given, one revision on and updated now, with a new scorer. */
  lemma RegisterRoot(m: Memory, record: AgentRecord, now: real)
    requires record.parentAgentId.None?
    ensures var (m1, answer) := Register(m, record, now);
            var n := record.name;
            && answer == Ok(record.(revision := record.revision + 1, updatedAt := now))
            && n in m1.scorers && NewScorer(m1.scorers[n], record.trustValue, record.trustCeiling, now)
            && m1 == m.(order := if n in m.agents then m.order else m.order + [n],
                        agents := m.agents[n := answer.value], scorers := m.scorers[n := m1.scorers[n]])
  {
  }

  /** A child is registered exactly when the parent resolves, holds every pair asked for and leaves room for the
      depth. It is stored with the greatest ceiling and value it may have, one revision on and updated now, beside a
      scorer under that ceiling; a refusal says what is missing and stores nothing but the refreshed parent. */
  lemma RegisterChild(m: Memory, record: AgentRecord, now: real)
    requires record.parentAgentId.Some?
    ensures var (m0, parent) := LookupById(m, record.parentAgentId.value, now);
            var (m1, answer) := Register(m, record, now);
            var n := record.name;
            && (answer.Ok? <==> parent.Some? && Pairs(record.grants) <= Pairs(parent.value.grants)
                                && parent.value.depth + 1 <= m.maxDepth)
            && (answer.Ok? ==>
                  var stored := answer.value;
                  && Narrowed(parent.value, record, stored)
                  && stored == record.(trustCeiling := stored.trustCeiling, trustValue := stored.trustValue,
                                       trustTier := stored.trustTier, depth := stored.depth,
                                       revision := record.revision + 1, updatedAt := now)
                  && n in m1.scorers && NewScorer(m1.scorers[n], stored.trustValue, stored.trustCeiling, now)
                  && m1 == m0.(order := if n in m0.agents then m0.order else m0.order + [n],
                               agents := m0.agents[n := stored], scorers := m0.scorers[n := m1.scorers[n]]))
            && (answer.Err? ==>
                  && m1 == m0
                  && answer.error
                     == if parent.None? then UnresolvableParent(record.parentAgentId.value)
                        else if Pairs(record.grants) <= Pairs(parent.value.grants)
                        then DelegationDepthExceeded(n, parent.value.depth + 1, m.maxDepth)
                        else GrantEscalation(n, parent.value.name, Pairs(record.grants) - Pairs(parent.value.grants)))
  {
    var parent := LookupById(m, record.parentAgentId.value, now).1;
    hide LookupById, DeriveChild, Pairs, Allowed;
    if parent.Some? {
      DerivedIff(parent.value, record, m.maxDepth);
    }
  }

  // ---- Changing a record ----

  predicate EditsRecord(op: Op) {
    op.OpAddGrant? || op.OpRemoveGrant? || op.OpTrustEvent? || op.OpSetTrust? || op.OpStatus? || op.OpIdentity?
  }

  /** The first grant with the id is gone from the list. */
  ghost predicate FirstRemoved(before: seq<Grant>, after: seq<Grant>, id: string) {
    exists i: nat :: i < |before| && before[i].id == id && (forall j :: 0 <= j < i ==> before[j].id != id)
                     && after == before[..i] + before[i + 1..]
  }

  /** What a call that succeeds may change of a record: the revision by one, the update time, the trust fields, and
      the one field the call is about. */
  ghost predicate Edited(op: Op, r: AgentRecord, r1: AgentRecord, now: real)
    requires EditsRecord(op)
  {
    && r1.revision == r.revision + 1 && r1.updatedAt == now
    && (op.OpStatus? ==> r1.status == op.status)
    && (op.OpIdentity? ==> r1.publicKey == op.key && r1.publicKeyAlgorithm == op.algorithm)
    && (op.OpAddGrant? ==> r1.grants == r.grants + [op.grant])
    && (op.OpRemoveGrant? ==> FirstRemoved(r.grants, r1.grants, op.grantId))
    && (op.OpIdentity? ==> r1.trustValue == r.trustValue && r1.trustTier == r.trustTier)
    && r1 == r.(revision := r1.revision, updatedAt := r1.updatedAt,
                trustValue := r1.trustValue, trustTier := r1.trustTier,
                status := if op.OpStatus? then r1.status else r.status,
                publicKey := if op.OpIdentity? then r1.publicKey else r.publicKey,
                publicKeyAlgorithm := if op.OpIdentity? then r1.publicKeyAlgorithm else r.publicKeyAlgorithm,
                grants := if op.OpAddGrant? || op.OpRemoveGrant? then r1.grants else r.grants)
  }

  /** The log entry of a trust change: the readings just before and just after it, each with its tier. */
  predicate Logged(entry: LogEntry, r: AgentRecord, event: TrustEvent, before: LinearState, after: LinearState, now: real)
  {
    && entry.agentId == r.agentId && entry.event == event && entry.timestamp == now
    && entry.valueBefore == Reading(before, now) && entry.valueAfter == Reading(after, now)
    && (entry.tierBefore == Trusted <==> entry.valueBefore >= 0.7)
    && (entry.tierBefore == Standard <==> 0.3 <= entry.valueBefore < 0.7)
    && (entry.tierAfter == Trusted <==> entry.valueAfter >= 0.7)
    && (entry.tierAfter == Standard <==> 0.3 <= entry.valueAfter < 0.7)
  }

  lemma RemovedFirst(grants: seq<Grant>, id: string)
    requires GrantIndex(grants, id) < |grants|
    ensures FirstRemoved(grants, Remaining(grants, id), id)
  {
    var i := GrantIndex(grants, id);
    assert Remaining(grants, id) == grants[..i] + grants[i + 1..];
    hide Remaining;
  }

  lemma NotThere(grants: seq<Grant>, id: string)
    requires GrantIndex(grants, id) == |grants|
    ensures forall g :: g in grants ==> g.id != id
  {
    forall g | g in grants ensures g.id != id {
      var j :| 0 <= j < |grants| && grants[j] == g;
    }
  }

  /** The scorer named is the only one that moves, the log gains the one entry, and no other record changes. */
  ghost predicate OnlyTrustMoves(m: Memory, m1: Memory, n: string) {
    && n in m.scorers && n in m1.scorers && n in m1.agents
    && m1 == m.(agents := m.agents[n := m1.agents[n]], scorers := m.scorers[n := m1.scorers[n]], log := m1.log)
  }

  lemma RescoredIs(m: Memory, op: Op, event: TrustEvent, after: LinearState, now: real)
    requires op.OpTrustEvent? || op.OpSetTrust?
    requires op.name in m.agents && op.name in m.scorers
    ensures var (m1, answer) := Rescored(m, op.name, event, after, now);
            var n := op.name;
            && OnlyTrustMoves(m, m1, n) && m1.scorers[n] == after
            && answer == Ok(m1.agents[n])
            && Edited(op, m.agents[n], m1.agents[n], now) && Shows(m1.agents[n], after, now)
            && |m1.log| == |m.log| + 1 && m1.log[..|m.log|] == m.log
            && Logged(m1.log[|m.log|], m.agents[n], event, m.scorers[n], after, now)
  {
    hide Reading;
  }

  /** A trust event moves the scorer of the agent, shows it on the record, and logs the readings before and after. */
  lemma TrustEventIs(m: Memory, n: string, event: TrustEvent, now: real)
    requires WellFormed(m) && n in m.agents
    ensures var (m1, answer) := RecordTrustEvent(m, n, event, now);
            && OnlyTrustMoves(m, m1, n) && m1.scorers[n] == AfterEvent(m.scorers[n], event, now)
            && answer == Ok(m1.agents[n])
            && Edited(OpTrustEvent(n, event), m.agents[n], m1.agents[n], now)
            && Shows(m1.agents[n], m1.scorers[n], now)
            && |m1.log| == |m.log| + 1 && m1.log[..|m.log|] == m.log
            && Logged(m1.log[|m.log|], m.agents[n], event, m.scorers[n], m1.scorers[n], now)
  {
    RescoredIs(m, OpTrustEvent(n, event), event, AfterEvent(m.scorers[n], event, now), now);
    hide Rescored, AfterEvent, Edited, Shows, Logged, OnlyTrustMoves;
  }

  /** So does an override, which the log calls HUMAN_OVERRIDE. */
  lemma SetTrustIs(m: Memory, n: string, value: real, now: real)
    requires WellFormed(m) && n in m.agents
    ensures var (m1, answer) := SetTrust(m, n, value, now);
            && OnlyTrustMoves(m, m1, n) && m1.scorers[n] == AfterSet(m.scorers[n], value, now)
            && answer == Ok(m1.agents[n])
            && Edited(OpSetTrust(n, value), m.agents[n], m1.agents[n], now)
            && Shows(m1.agents[n], m1.scorers[n], now)
            && |m1.log| == |m.log| + 1 && m1.log[..|m.log|] == m.log
            && Logged(m1.log[|m.log|], m.agents[n], HumanOverride, m.scorers[n], m1.scorers[n], now)
  {
    RescoredIs(m, OpSetTrust(n, value), HumanOverride, AfterSet(m.scorers[n], value, now), now);
    hide Rescored, AfterSet, Edited, Shows, Logged, OnlyTrustMoves;
  }

  /** The record under the name, edited, is all that changes and what is answered; `fresh_` tells whether its trust
      fields are brought up to date. */
  ghost predicate OnlyEdited(m: Memory, op: Op, m1: Memory, answer: Answer, fresh_: bool, now: real)
    requires EditsRecord(op)
  {
    var n := op.name;
    && n in m.agents && n in m1.agents && answer == Ok(m1.agents[n])
    && m1 == m.(agents := m.agents[n := m1.agents[n]])
    && Edited(op, m.agents[n], m1.agents[n], now)
    && (fresh_ ==> n in m.scorers && Shows(m1.agents[n], m.scorers[n], now))
  }

  lemma StatusIs(m: Memory, n: string, status: AgentStatus, now: real)
    requires WellFormed(m) && n in m.agents
    ensures var (m1, answer) := UpdateStatus(m, n, status, now);
            OnlyEdited(m, OpStatus(n, status), m1, answer, true, now)
  {
    hide Reading;
  }

  lemma IdentityIs(m: Memory, n: string, key: string, algorithm: string, now: real)
    requires n in m.agents
    ensures var (m1, answer) := UpdateIdentity(m, n, key, algorithm, now);
            OnlyEdited(m, OpIdentity(n, key, algorithm), m1, answer, false, now)
  {
  }

  lemma RemoveGrantIs(m: Memory, n: string, id: string, now: real)
    requires WellFormed(m) && n in m.agents
    ensures var (m1, answer) := RemoveGrant(m, n, id, now);
            if exists g :: g in m.agents[n].grants && g.id == id
            then OnlyEdited(m, OpRemoveGrant(n, id), m1, answer, true, now)
            else m1 == m && answer == Err(GrantNotFound(n, id))
  {
    var grants := m.agents[n].grants;
    if GrantIndex(grants, id) < |grants| {
      RemovedFirst(grants, id);
    } else {
      NotThere(grants, id);
    }
    hide Reading, FirstRemoved, Remaining;
  }

  lemma AppendGrantIs(m: Memory, n: string, grant: Grant, now: real)
    requires WellFormed(m) && n in m.agents
    ensures var (m1, answer) := AppendGrant(m, n, grant, now);
            OnlyEdited(m, OpAddGrant(n, grant), m1, answer, true, now)
  {
    hide Reading;
  }

  /** A root gets any grant; a child gets it exactly when its parent resolves and holds every pair of it. A refusal
      changes nothing but the refreshed parent. */
  lemma AddGrantIs(m: Memory, n: string, grant: Grant, now: real)
    requires WellFormed(m) && n in m.agents
    ensures var (m1, answer) := AddGrant(m, n, grant, now);
            match m.agents[n].parentAgentId
            case None => OnlyEdited(m, OpAddGrant(n, grant), m1, answer, true, now)
            case Some(pid) =>
              var (m0, parent) := LookupById(m, pid, now);
              if parent.None? then m1 == m0 && answer == Err(UnresolvableParent(pid))
              else if Pairs([grant]) <= Pairs(parent.value.grants)
              then OnlyEdited(m0, OpAddGrant(n, grant), m1, answer, true, now)
              else && m1 == m0
                   && answer == Err(GrantEscalation(n, parent.value.name, Pairs([grant]) - Pairs(parent.value.grants)))
  {
    match m.agents[n].parentAgentId
    case None => AppendGrantIs(m, n, grant, now);
    case Some(pid) =>
      LookupByIdWellFormed(m, pid, now);
      var (m0, parent) := LookupById(m, pid, now);
      AppendGrantIs(m0, n, grant, now);
      if parent.Some? {
        NarrowingIff(parent.value, n, [grant]);
      }
      hide OnlyEdited, LookupById, Pairs, AppendGrant;
  }

  /** An unknown name is refused, and changes nothing. */
  lemma UnknownName(m: Memory, op: Op, now: real)
    requires (EditsRecord(op) || op.OpDeregister? || op.OpHasGrant?) && op.name !in m.agents
    ensures Step(m, op, now) == (m, Raised(AgentNotFound(op.name)))
  {
  }

  /** `has_grant` holds exactly when one grant of the agent covers both the resource and the action. */
  lemma HasGrantIff(m: Memory, n: string, resource: string, action: string)
    requires n in m.agents
    ensures var grants := m.agents[n].grants;
            HasGrant(m, n, resource, action)
            == Ok(exists i :: 0 <= i < |grants| && resource in grants[i].resources && action in grants[i].actions)
  {
    PairsIff(m.agents[n].grants, resource, action);
    hide Pairs;
  }

  /** Deregistering takes the name, its record and its scorer out and leaves the rest, in order. */
  lemma DeregisterIs(m: Memory, n: string, i: nat)
    requires WellFormed(m) && i < |m.order| && m.order[i] == n
    ensures Deregister(m, n)
         == (m.(order := m.order[..i] + m.order[i + 1..], agents := m.agents - {n}, scorers := m.scorers - {n}), None)
  {
    WithoutAt(m.order, i);
  }

  lemma {:induction false} WithoutAt(order: seq<string>, i: nat)
    requires Distinct(order) && i < |order|
    ensures Without(order, order[i]) == order[..i] + order[i + 1..]
  {
    var rest := order[1..];
    assert order == [order[0]] + rest;
    if i > 0 {
      WithoutAt(rest, i - 1);
      assert order[..i] == [order[0]] + rest[..i - 1] && order[i + 1..] == rest[i..];
    } else {
      WithoutNothing(rest, order[0]);
    }
  }

  lemma {:induction false} WithoutNothing(order: seq<string>, key: string)
    requires key !in order
    ensures Without(order, key) == order
  {
    if order != [] {
      WithoutNothing(order[1..], key);
    }
  }

  // ---- Listing ----

  /** The record passes every filter that is given. */
  predicate Passes(f: Filter, r: AgentRecord) {
    && (f.status == None || f.status == Some(r.status))
    && (f.tier == None || f.tier == Some(r.trustTier))
    && (f.owner == None || f.owner == r.owner)
  }

  lemma {:induction false} SelectOrder(order: seq<string>, agents: map<string, AgentRecord>, f: Filter)
    requires forall n :: n in order ==> n in agents
    ensures Select(order, agents, f) == Passing(Records(order, agents), f)
  {
    if order != [] {
      SelectOrder(order[1..], agents, f);
      assert Records(order, agents)[1..] == Records(order[1..], agents);
    }
  }

  function Records(order: seq<string>, agents: map<string, AgentRecord>): seq<AgentRecord>
    requires forall n :: n in order ==> n in agents
  {
    seq(|order|, i requires 0 <= i < |order| => agents[order[i]])
  }

  function Passing(records: seq<AgentRecord>, f: Filter): seq<AgentRecord> {
    if records == [] then [] else (if Passes(f, records[0]) then [records[0]] else []) + Passing(records[1..], f)
  }

  /** A listing first brings every record up to date and then answers those that pass every filter, in order of
      registration. */
  lemma ListIs(m: Memory, f: Filter, now: real)
    requires WellFormed(m)
    ensures var (m1, listed) := ListAgents(m, f, now);
            && m1 == m.(agents := m1.agents) && m1.agents.Keys == m.agents.Keys
            && (forall n :: n in m.agents ==>
                  && Shows(m1.agents[n], m.scorers[n], now)
                  && m1.agents[n] == m.agents[n].(trustValue := m1.agents[n].trustValue,
                                                  trustTier := m1.agents[n].trustTier))
            && (forall n :: n in m1.order ==> n in m1.agents)
            && listed == Passing(Records(m1.order, m1.agents), f)
  {
    SyncAllWellFormed(m, now);
    var m1 := SyncAll(m, now);
    SelectOrder(m1.order, m1.agents, f);
    hide Reading, Select, Passing, Records;
  }
}
