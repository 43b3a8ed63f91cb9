/** The dict-backed registry of packages/presidium/src/presidium/registry/memory.py, on values.
    A Python dict keeps its insertion order, which `lookup_by_id` and `list_agents` follow: `order`
    lists the keys of `agents` in that order. Every operation takes the instant `now` of its call. */
module MemoryRegistry {
  import opened Common
  import opened Model
  import opened Lineage
  import opened LinearTrust

  datatype LogEntry = LogEntry(
    agentId: string,
    event: TrustEvent,
    valueBefore: real,
    valueAfter: real,
    tierBefore: TrustTier,
    tierAfter: TrustTier,
    timestamp: real)

  datatype Memory = Memory(
    order: seq<string>,
    agents: map<string, AgentRecord>,
    scorers: map<string, LinearState>,
    log: seq<LogEntry>,
    maxDepth: int)

  type Answer = Result<AgentRecord, RegistryError>

  ghost predicate WellFormed(m: Memory) {
    && Distinct(m.order)
    && (forall n :: n in m.order <==> n in m.agents)
    && m.scorers.Keys == m.agents.Keys
    && (forall n :: n in m.agents ==> m.agents[n].name == n)
  }

  ghost predicate UniqueIds(m: Memory) {
    forall a, b :: a in m.agents && b in m.agents && a != b ==> m.agents[a].agentId != m.agents[b].agentId
  }

  function EmptyMemory(maxDepth: int): Memory {
    Memory([], map[], map[], [], maxDepth)
  }

  function Synced(r: AgentRecord, s: LinearState, now: real): AgentRecord {
    r.(trustValue := Reading(s, now), trustTier := TierFor(Reading(s, now)))
  }

  function SyncTrust(scorers: map<string, LinearState>, r: AgentRecord, now: real): AgentRecord {
    if r.name in scorers then Synced(r, scorers[r.name], now) else r
  }

  function Touched(r: AgentRecord, now: real): AgentRecord {
    r.(revision := r.revision + 1, updatedAt := now)
  }

  /** The first key in iteration order whose record carries the id. */
  function FirstWithId(order: seq<string>, agents: map<string, AgentRecord>, id: string): Option<string> {
    if order == [] then None
    else if order[0] in agents && agents[order[0]].agentId == id then Some(order[0])
    else FirstWithId(order[1..], agents, id)
  }

  /** Store a record under its name. */
  function Put(m: Memory, r: AgentRecord): Memory {
    m.(agents := m.agents[r.name := r])
  }

  function Lookup(m: Memory, name: string, now: real): (Memory, Option<AgentRecord>) {
    if name !in m.agents then (m, None)
    else
      var r := SyncTrust(m.scorers, m.agents[name], now);
      (m.(agents := m.agents[name := r]), Some(r))
  }

  function LookupById(m: Memory, id: string, now: real): (Memory, Option<AgentRecord>) {
    match FirstWithId(m.order, m.agents, id)
    case None => (m, None)
    case Some(n) => Lookup(m, n, now)
  }

  function Insert(m: Memory, record: AgentRecord, now: real): Memory {
    var n := record.name;
    m.(order := if n in m.agents then m.order else m.order + [n],
       agents := m.agents[n := Touched(record, now)],
       scorers := m.scorers[n := Initial(record.trustValue, DEFAULT_DECAY_RATE, record.trustCeiling, now)])
  }

  function Register(m: Memory, record: AgentRecord, now: real): (Memory, Answer) {
    match record.parentAgentId
    case None => (Insert(m, record, now), Ok(Touched(record, now)))
    case Some(pid) =>
      var (m1, parent) := LookupById(m, pid, now);
      if parent.None? then (m1, Err(UnresolvableParent(pid)))
      else
        match DeriveChild(parent.value, record, m.maxDepth)
        case Err(e) => (m1, Err(e))
        case Ok(child) => (Insert(m1, child, now), Ok(Touched(child, now)))
  }

  function Deregister(m: Memory, name: string): (Memory, Option<RegistryError>) {
    if name !in m.agents then (m, Some(AgentNotFound(name)))
    else
      (m.(order := Without(m.order, name), agents := m.agents - {name}, scorers := m.scorers - {name}), None)
  }

  function AddGrant(m: Memory, name: string, grant: Grant, now: real): (Memory, Answer) {
    if name !in m.agents then (m, Err(AgentNotFound(name)))
    else
      match m.agents[name].parentAgentId
      case None => AppendGrant(m, name, grant, now)
      case Some(pid) =>
        var (m1, parent) := LookupById(m, pid, now);
        if parent.None? then (m1, Err(UnresolvableParent(pid)))
        else
          match ValidateNarrowing(parent.value, name, [grant])
          case Some(e) => (m1, Err(e))
          case None => if name in m1.agents then AppendGrant(m1, name, grant, now) else (m1, Err(AgentNotFound(name)))
  }

  function AppendGrant(m: Memory, name: string, grant: Grant, now: real): (Memory, Answer)
    requires name in m.agents
  {
    var r := m.agents[name];
    var r1 := SyncTrust(m.scorers, Touched(r.(grants := r.grants + [grant]), now), now);
    (m.(agents := m.agents[name := r1]), Ok(r1))
  }

  /** Index of the first grant with the id, or the number of grants. */
  function GrantIndex(grants: seq<Grant>, id: string): (i: nat)
    ensures i <= |grants|
    ensures i < |grants| ==> grants[i].id == id
    ensures forall j :: 0 <= j < i ==> grants[j].id != id
  {
    if grants == [] || grants[0].id == id then 0 else 1 + GrantIndex(grants[1..], id)
  }

  /** The grants left when the first one with the id is removed. */
  function Remaining(grants: seq<Grant>, id: string): seq<Grant> {
    var i := GrantIndex(grants, id);
    if i == |grants| then grants else grants[..i] + grants[i + 1..]
  }

  function RemoveGrant(m: Memory, name: string, grantId: string, now: real): (Memory, Answer) {
    if name !in m.agents then (m, Err(AgentNotFound(name)))
    else
      var r := m.agents[name];
      var i := GrantIndex(r.grants, grantId);
      if i == |r.grants| then (m, Err(GrantNotFound(name, grantId)))
      else
        var r1 := SyncTrust(m.scorers, Touched(r.(grants := Remaining(r.grants, grantId)), now), now);
        (m.(agents := m.agents[name := r1]), Ok(r1))
  }

  function HasGrant(m: Memory, name: string, resource: string, action: string): Result<bool, RegistryError> {
    if name !in m.agents then Err(AgentNotFound(name))
    else Ok((resource, action) in Pairs(m.agents[name].grants))
  }

  /** A scorer moves from `before` to `after`; the log, the record and its revision follow. */
  function Rescored(m: Memory, name: string, event: TrustEvent, after: LinearState, now: real): (Memory, Answer)
    requires name in m.agents && name in m.scorers
  {
    var r := m.agents[name];
    var before := m.scorers[name];
    var entry := LogEntry(r.agentId, event, Reading(before, now), Reading(after, now),
                          TierFor(Reading(before, now)), TierFor(Reading(after, now)), now);
    var r1 := Touched(Synced(r, after, now), now);
    (m.(agents := m.agents[name := r1], scorers := m.scorers[name := after], log := m.log + [entry]), Ok(r1))
  }

  /** Every registered name has a scorer (WellFormed), so the second test never decides. */
  function RecordTrustEvent(m: Memory, name: string, event: TrustEvent, now: real): (Memory, Answer)
  {
    if name !in m.agents || name !in m.scorers then (m, Err(AgentNotFound(name)))
    else Rescored(m, name, event, AfterEvent(m.scorers[name], event, now), now)
  }

  function SetTrust(m: Memory, name: string, value: real, now: real): (Memory, Answer)
  {
    if name !in m.agents || name !in m.scorers then (m, Err(AgentNotFound(name)))
    else Rescored(m, name, HumanOverride, AfterSet(m.scorers[name], value, now), now)
  }

  function UpdateStatus(m: Memory, name: string, status: AgentStatus, now: real): (Memory, Answer) {
    if name !in m.agents then (m, Err(AgentNotFound(name)))
    else
      var r1 := SyncTrust(m.scorers, Touched(m.agents[name].(status := status), now), now);
      (m.(agents := m.agents[name := r1]), Ok(r1))
  }

  /** The one mutator that answers with the trust fields as last stored. */
  function UpdateIdentity(m: Memory, name: string, key: string, algorithm: string, now: real): (Memory, Answer) {
    if name !in m.agents then (m, Err(AgentNotFound(name)))
    else
      var r1 := Touched(m.agents[name].(publicKey := key, publicKeyAlgorithm := algorithm), now);
      (m.(agents := m.agents[name := r1]), Ok(r1))
  }

  datatype Filter = Filter(status: Option<AgentStatus>, tier: Option<TrustTier>, owner: Option<string>)

  predicate Matches(f: Filter, r: AgentRecord) {
    && (f.status.Some? ==> r.status == f.status.value)
    && (f.tier.Some? ==> r.trustTier == f.tier.value)
    && (f.owner.Some? ==> r.owner == f.owner)
  }

  /** The records of `names` synced, the others as they are. */
  function SyncThese(m: Memory, names: seq<string>, now: real): map<string, AgentRecord> {
    map n | n in m.agents :: if n in names then SyncTrust(m.scorers, m.agents[n], now) else m.agents[n]
  }

  function SyncAll(m: Memory, now: real): Memory {
    m.(agents := SyncThese(m, m.order, now))
  }

  /** The matching records, in iteration order. */
  function Select(order: seq<string>, agents: map<string, AgentRecord>, f: Filter): seq<AgentRecord> {
    if order == [] then []
    else
      (if order[0] in agents && Matches(f, agents[order[0]]) then [agents[order[0]]] else [])
      + Select(order[1..], agents, f)
  }

  function ListAgents(m: Memory, f: Filter, now: real): (Memory, seq<AgentRecord>) {
    var m1 := SyncAll(m, now);
    (m1, Select(m1.order, m1.agents, f))
  }

  // ---- One type for every call, so that runs can be spoken of ----

  datatype Op =
    | OpRegister(record: AgentRecord)
    | OpDeregister(name: string)
    | OpLookup(name: string)
    | OpLookupById(id: string)
    | OpList(filter: Filter)
    | OpAddGrant(name: string, grant: Grant)
    | OpRemoveGrant(name: string, grantId: string)
    | OpHasGrant(name: string, resource: string, action: string)
    | OpTrustEvent(name: string, event: TrustEvent)
    | OpSetTrust(name: string, value: real)
    | OpStatus(name: string, status: AgentStatus)
    | OpIdentity(name: string, key: string, algorithm: string)

  /** A listing is compared as the set of its records. */
  datatype Outcome =
    | Raised(error: RegistryError)
    | Done
    | Returned(record: AgentRecord)
    | Found(result: Option<AgentRecord>)
    | Listed(records: set<AgentRecord>)
    | Held(holds: bool)

  function FromAnswer(p: (Memory, Answer)): (Memory, Outcome) {
    (p.0, match p.1 case Ok(r) => Returned(r) case Err(e) => Raised(e))
  }

  function Step(m: Memory, op: Op, now: real): (Memory, Outcome)
  {
    match op
    case OpRegister(r) => FromAnswer(Register(m, r, now))
    case OpDeregister(n) =>
      var (m1, e) := Deregister(m, n);
      (m1, if e.Some? then Raised(e.value) else Done)
    case OpLookup(n) => var (m1, r) := Lookup(m, n, now); (m1, Found(r))
    case OpLookupById(id) => var (m1, r) := LookupById(m, id, now); (m1, Found(r))
    case OpList(f) => var (m1, rs) := ListAgents(m, f, now); (m1, Listed(set r | r in rs))
    case OpAddGrant(n, g) => FromAnswer(AddGrant(m, n, g, now))
    case OpRemoveGrant(n, g) => FromAnswer(RemoveGrant(m, n, g, now))
    case OpHasGrant(n, r, a) =>
      (m, match HasGrant(m, n, r, a) case Ok(b) => Held(b) case Err(e) => Raised(e))
    case OpTrustEvent(n, e) => FromAnswer(RecordTrustEvent(m, n, e, now))
    case OpSetTrust(n, v) => FromAnswer(SetTrust(m, n, v, now))
    case OpStatus(n, s) => FromAnswer(UpdateStatus(m, n, s, now))
    case OpIdentity(n, k, a) => FromAnswer(UpdateIdentity(m, n, k, a, now))
  }

  lemma {:induction false} FirstWithIdFound(order: seq<string>, agents: map<string, AgentRecord>, id: string)
    ensures var f := FirstWithId(order, agents, id);
            if f.Some? then f.value in order && f.value in agents && agents[f.value].agentId == id
            else forall n :: n in order && n in agents ==> agents[n].agentId != id
  {
    if order != [] {
      FirstWithIdFound(order[1..], agents, id);
    }
  }

  ghost predicate Selected(order: seq<string>, agents: map<string, AgentRecord>, f: Filter, r: AgentRecord) {
    exists n :: n in order && n in agents && Matches(f, agents[n]) && agents[n] == r
  }

  /** A listing is exactly the matching records of the registered names. */
  lemma {:induction false} SelectIs(order: seq<string>, agents: map<string, AgentRecord>, f: Filter)
    ensures forall r :: r in Select(order, agents, f) <==> Selected(order, agents, f, r)
  {
    if order != [] {
      assert order == [order[0]] + order[1..];
      SelectIs(order[1..], agents, f);
      forall r
        ensures r in Select(order, agents, f) <==> Selected(order, agents, f, r)
      {
        assert r in Select(order[1..], agents, f) <==> Selected(order[1..], agents, f, r);
        if Selected(order, agents, f, r) {
          var n :| n in order && n in agents && Matches(f, agents[n]) && agents[n] == r;
          assert n == order[0] || n in order[1..];
        }
      }
    }
  }

  lemma {:induction false} SelectSnoc(order: seq<string>, agents: map<string, AgentRecord>, f: Filter, n: string)
    ensures Select(order + [n], agents, f)
         == Select(order, agents, f) + (if n in agents && Matches(f, agents[n]) then [agents[n]] else [])
  {
    if order == [] {
      assert order + [n] == [n];
    } else {
      assert (order + [n])[1..] == order[1..] + [n];
      SelectSnoc(order[1..], agents, f, n);
    }
  }

  lemma SyncStart(m: Memory, f: Filter, now: real)
    ensures SyncThese(m, m.order[..0], now) == m.agents
    ensures Select(m.order[..0], SyncAll(m, now).agents, f) == []
  {
    hide SyncTrust;
  }

  /** One more turn of the listing loop: the next record is synced in place and tested. */
  lemma SyncNext(m: Memory, f: Filter, i: nat, now: real)
    requires WellFormed(m) && i < |m.order|
    ensures var n := m.order[i];
            && n in m.agents && n in SyncThese(m, m.order[..i], now)
            && SyncThese(m, m.order[..i], now)[n] == m.agents[n]
            && SyncThese(m, m.order[..i + 1], now)
               == SyncThese(m, m.order[..i], now)[n := SyncTrust(m.scorers, m.agents[n], now)]
    ensures var r := SyncTrust(m.scorers, m.agents[m.order[i]], now);
            Select(m.order[..i + 1], SyncAll(m, now).agents, f)
            == Select(m.order[..i], SyncAll(m, now).agents, f) + (if Matches(f, r) then [r] else [])
  {
    hide SyncTrust, Matches;
    var n := m.order[i];
    assert n !in m.order[..i];
    assert m.order[..i + 1] == m.order[..i] + [n];
    SelectSnoc(m.order[..i], SyncAll(m, now).agents, f, n);
  }

  lemma SyncAllWellFormed(m: Memory, now: real)
    requires WellFormed(m)
    ensures WellFormed(SyncAll(m, now))
    ensures forall i :: 0 <= i < |m.order| ==> m.order[i] in m.agents && m.agents[m.order[i]].name == m.order[i]
  {
    hide Reading;
  }

  lemma RescoredWellFormed(m: Memory, name: string, event: TrustEvent, after: LinearState, now: real)
    requires WellFormed(m) && name in m.agents
    ensures WellFormed(Rescored(m, name, event, after, now).0)
  {
    hide Reading, TierFor;
  }

  lemma LookupByIdWellFormed(m: Memory, id: string, now: real)
    requires WellFormed(m)
    ensures var (m1, r) := LookupById(m, id, now);
            && WellFormed(m1)
            && m1 == m.(agents := m1.agents)
            && m1.agents.Keys == m.agents.Keys
  {
    hide Reading;
    FirstWithIdFound(m.order, m.agents, id);
  }

  lemma InsertWellFormed(m: Memory, r: AgentRecord, now: real)
    requires WellFormed(m)
    ensures WellFormed(Insert(m, r, now))
  {
    hide Initial;
  }

  lemma RegisterWellFormed(m: Memory, r: AgentRecord, now: real)
    requires WellFormed(m)
    ensures WellFormed(Register(m, r, now).0)
    ensures Register(m, r, now).0.maxDepth == m.maxDepth
  {
    hide Reading, ValidateNarrowing, Pairs, FirstWithId, TierFor, ChildCeiling, LookupById;
    if r.parentAgentId.Some? {
      LookupByIdWellFormed(m, r.parentAgentId.value, now);
    }
  }

  lemma AddGrantWellFormed(m: Memory, name: string, g: Grant, now: real)
    requires WellFormed(m)
    ensures WellFormed(AddGrant(m, name, g, now).0)
    ensures AddGrant(m, name, g, now).0.maxDepth == m.maxDepth
  {
    hide Reading, ValidateNarrowing, Pairs, FirstWithId, TierFor, LookupById;
    if name in m.agents && m.agents[name].parentAgentId.Some? {
      LookupByIdWellFormed(m, m.agents[name].parentAgentId.value, now);
    }
  }

  lemma DeregisterWellFormed(m: Memory, name: string)
    requires WellFormed(m)
    ensures WellFormed(Deregister(m, name).0)
  {
    WithoutIs(m.order, name);
  }

  /** The calls that write at most one record back under its own name. */
  lemma EditWellFormed(m: Memory, op: Op, now: real)
    requires WellFormed(m)
    requires op.OpLookup? || op.OpRemoveGrant? || op.OpHasGrant? || op.OpStatus? || op.OpIdentity?
    ensures WellFormed(Step(m, op, now).0)
    ensures Step(m, op, now).0.maxDepth == m.maxDepth
  {
    hide Reading, TierFor, GrantIndex, Pairs;
  }

  lemma StepWellFormed(m: Memory, op: Op, now: real)
    requires WellFormed(m)
    ensures WellFormed(Step(m, op, now).0)
    ensures Step(m, op, now).0.maxDepth == m.maxDepth
  {
    hide Reading, AfterEvent, AfterSet, Pairs, FirstWithId, Select, TierFor, GrantIndex, Register, AddGrant, LookupById,
         Touched, SyncTrust, SyncThese, WellFormed;
    match op
    case OpRegister(r) => RegisterWellFormed(m, r, now);
    case OpDeregister(n) => DeregisterWellFormed(m, n);
    case OpLookupById(id) => LookupByIdWellFormed(m, id, now);
    case OpAddGrant(n, g) => AddGrantWellFormed(m, n, g, now);
    case OpList(f) => SyncAllWellFormed(m, now);
    case OpTrustEvent(n, e) =>
      if n in m.agents && n in m.scorers { RescoredWellFormed(m, n, e, AfterEvent(m.scorers[n], e, now), now); }
    case OpSetTrust(n, v) =>
      if n in m.agents && n in m.scorers { RescoredWellFormed(m, n, HumanOverride, AfterSet(m.scorers[n], v, now), now); }
    case _ => EditWellFormed(m, op, now);
  }
}
