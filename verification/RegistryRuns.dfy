/** What every run of the registry keeps along delegation lineages, when no agent id is ever
    registered twice. A `World` is the registry together with the history a claim about ancestors
    needs: what each agent ever registered was born with. */
module RegistryRuns {
  import opened Common
  import opened Model
  import opened Lineage
  import opened LinearTrust
  import opened LinearTrustLaws
  import opened MemoryRegistry

  /** Facts fixed when an agent is registered; `parentValue` is the parent's trust value at that call. */
  datatype Birth = Birth(parent: Option<string>, ceiling: Option<real>, depth: int, parentValue: real)

  datatype World = World(reg: Memory, born: map<string, Birth>, now: real)

  function BirthOf(reg: Memory, stored: AgentRecord, at: real): Birth {
    var parentValue :=
      match stored.parentAgentId
      case None => 1.0
      case Some(pid) =>
        var p := LookupById(reg, pid, at).1;
        if p.Some? then p.value.trustValue else 1.0;
    Birth(stored.parentAgentId, stored.trustCeiling, stored.depth, parentValue)
  }

  function WorldStep(w: World, op: Op, at: real): World
  {
    var (reg, out) := Step(w.reg, op, at);
    var born := if op.OpRegister? && out.Returned? then w.born[op.record.agentId := BirthOf(w.reg, out.record, at)]
                else w.born;
    World(reg, born, at)
  }

  /** Time does not run backwards; a call that registers uses a new id, and a root starts at depth 0
      with a ceiling that is absent or not negative. */
  predicate Admissible(w: World, op: Op, at: real)
  {
    && w.now <= at
    && (op.OpRegister? && Step(w.reg, op, at).1.Returned? ==>
          && op.record.agentId !in w.born
          && (op.record.parentAgentId.None? ==> op.record.depth == 0 && Cap(op.record.trustCeiling) >= 0.0))
  }

  predicate Initially(w: World) {
    w.reg == EmptyMemory(w.reg.maxDepth) && w.born == map[]
  }

  // ---- The invariant ----

  predicate Fit(s: LinearState, r: AgentRecord, now: real) {
    && 0.0 <= s.stored <= 1.0 && s.lastPositive <= now
    && s.decayRate == DEFAULT_DECAY_RATE
    && s.ceiling == r.trustCeiling
  }

  predicate LineageOf(r: AgentRecord, b: Birth) {
    r.parentAgentId == b.parent && r.trustCeiling == b.ceiling && r.depth == b.depth
  }

  predicate BirthOk(born: map<string, Birth>, b: Birth, maxDepth: int) {
    && Cap(b.ceiling) >= 0.0
    && b.depth >= 0
    && match b.parent
       case None => b.depth == 0
       case Some(p) =>
         && p in born
         && b.ceiling.Some?
         && b.ceiling.value <= Cap(born[p].ceiling)
         && b.ceiling.value <= b.parentValue
         && b.depth == born[p].depth + 1
         && b.depth <= maxDepth
  }

  /** The record agrees with the birth of its id, and the scorer carries the record's ceiling. */
  predicate AgentOk(w: World, n: string) {
    && n in w.reg.agents && n in w.reg.scorers
    && w.reg.agents[n].agentId in w.born
    && LineageOf(w.reg.agents[n], w.born[w.reg.agents[n].agentId])
    && Fit(w.reg.scorers[n], w.reg.agents[n], w.now)
  }

  ghost predicate Inv(w: World) {
    && WellFormed(w.reg)
    && (forall n :: n in w.reg.agents ==> AgentOk(w, n))
    && UniqueIds(w.reg)
    && SoundHistory(w.born, w.reg.maxDepth)
  }

  ghost predicate SoundHistory(born: map<string, Birth>, maxDepth: int) {
    forall id :: id in born ==> BirthOk(born, born[id], maxDepth)
  }

  // ---- A call other than a successful register or deregister leaves lineage alone ----

  predicate SameLineage(r: AgentRecord, q: AgentRecord) {
    && r.agentId == q.agentId && r.name == q.name && r.parentAgentId == q.parentAgentId
    && r.trustCeiling == q.trustCeiling && r.depth == q.depth
  }

  ghost predicate Quiet(m: Memory, m1: Memory, now: real, at: real) {
    && m1.agents.Keys == m.agents.Keys
    && m1.scorers.Keys == m.scorers.Keys
    && m1.maxDepth == m.maxDepth
    && (forall n :: n in m.agents ==> SameLineage(m.agents[n], m1.agents[n]))
    && (forall n, r :: n in m.scorers && Fit(m.scorers[n], r, now) ==> Fit(m1.scorers[n], r, at))
  }

  lemma EventKeepsFit(s: LinearState, e: TrustEvent, r: AgentRecord, now: real, at: real)
    requires Fit(s, r, now) && now <= at
    ensures Fit(AfterEvent(s, e, at), r, at)
  {
    ApplyHealthy(s, Event(e, at));
  }

  lemma LookupQuiet(m: Memory, id: string, now: real, at: real)
    requires WellFormed(m) && now <= at
    ensures Quiet(m, LookupById(m, id, at).0, now, at)
  {
    hide Reading, TierFor;
    FirstWithIdFound(m.order, m.agents, id);
  }

  lemma RescoredQuiet(m: Memory, name: string, event: TrustEvent, after: LinearState, now: real, at: real)
    requires WellFormed(m) && now <= at && name in m.agents
    requires forall r :: Fit(m.scorers[name], r, now) ==> Fit(after, r, at)
    ensures Quiet(m, Rescored(m, name, event, after, at).0, now, at)
  {
    hide Reading, TierFor;
  }

  lemma WriteQuiet(m: Memory, m1: Memory, r: AgentRecord, now: real, at: real)
    requires WellFormed(m) && now <= at
    requires r.name in m.agents && SameLineage(m.agents[r.name], r)
    requires m1 == m.(agents := m.agents[r.name := r])
    ensures Quiet(m, m1, now, at)
  {
  }

  lemma SelfQuiet(m: Memory, now: real, at: real)
    requires WellFormed(m) && now <= at
    ensures m.scorers.Keys == m.agents.Keys && forall n :: n in m.agents ==> m.agents[n].name == n
    ensures Quiet(m, m, now, at)
  {
  }

  lemma StepQuiet(m: Memory, op: Op, now: real, at: real)
    requires WellFormed(m) && now <= at
    requires !op.OpDeregister?
    requires op.OpRegister? ==> !Step(m, op, at).1.Returned?
    ensures Quiet(m, Step(m, op, at).0, now, at)
  {
    hide Reading, TierFor, AfterEvent, AfterSet, Pairs, GrantIndex, FirstWithId, LookupById, WellFormed, DeriveChild,
         Select, AddGrant, Rescored, Quiet, SyncThese;
    var m1 := Step(m, op, at).0;
    SelfQuiet(m, now, at);
    match op
    case OpRegister(r) =>
      if r.parentAgentId.Some? {
        LookupQuiet(m, r.parentAgentId.value, now, at);
      }
    case OpLookupById(id) => LookupQuiet(m, id, now, at);
    case OpList(f) => ListQuiet(m, f, now, at);
    case OpAddGrant(n, g) => AddGrantQuiet(m, n, g, now, at);
    case OpTrustEvent(n, e) =>
      if n in m.agents {
        forall r | Fit(m.scorers[n], r, now) { EventKeepsFit(m.scorers[n], e, r, now, at); }
        RescoredQuiet(m, n, e, AfterEvent(m.scorers[n], e, at), now, at);
      }
    case OpSetTrust(n, v) =>
      if n in m.agents {
        forall r | Fit(m.scorers[n], r, now) { SetKeepsFit(m.scorers[n], v, r, now, at); }
        RescoredQuiet(m, n, HumanOverride, AfterSet(m.scorers[n], v, at), now, at);
      }
    case OpLookup(n) => if n in m.agents { WriteQuiet(m, m1, m1.agents[n], now, at); }
    case OpRemoveGrant(n, g) =>
      if m1 != m { WriteQuiet(m, m1, m1.agents[n], now, at); }
    case OpStatus(n, s) => if n in m.agents { WriteQuiet(m, m1, m1.agents[n], now, at); }
    case OpIdentity(n, k, a) => if n in m.agents { WriteQuiet(m, m1, m1.agents[n], now, at); }
    case OpHasGrant(n, r, a) =>
  }

  lemma ListQuiet(m: Memory, f: Filter, now: real, at: real)
    requires WellFormed(m) && now <= at
    ensures Quiet(m, ListAgents(m, f, at).0, now, at)
  {
    hide Reading, TierFor, Select;
  }

  lemma SetKeepsFit(s: LinearState, v: real, r: AgentRecord, now: real, at: real)
    requires Fit(s, r, now) && now <= at
    ensures Fit(AfterSet(s, v, at), r, at)
  {
  }

  lemma AddGrantQuiet(m: Memory, name: string, g: Grant, now: real, at: real)
    requires WellFormed(m) && now <= at
    ensures Quiet(m, AddGrant(m, name, g, at).0, now, at)
  {
    hide Reading, TierFor, Pairs, FirstWithId, LookupById, ValidateNarrowing;
    if name in m.agents && m.agents[name].parentAgentId.Some? {
      LookupQuiet(m, m.agents[name].parentAgentId.value, now, at);
    }
  }

  // ---- The invariant is kept ----

  lemma QuietKeepsInv(w: World, reg: Memory, at: real)
    requires Inv(w) && w.now <= at
    requires WellFormed(reg) && Quiet(w.reg, reg, w.now, at)
    ensures Inv(World(reg, w.born, at))
  {
    hide BirthOk, WellFormed;
    forall n | n in reg.agents
      ensures AgentOk(World(reg, w.born, at), n)
    {
      assert AgentOk(w, n);
      assert Fit(reg.scorers[n], w.reg.agents[n], at);
    }
  }

  lemma DeregisterKeepsInv(w: World, name: string, at: real)
    requires Inv(w) && w.now <= at
    ensures Inv(WorldStep(w, OpDeregister(name), at))
  {
    StepWellFormed(w.reg, OpDeregister(name), at);
    hide BirthOk, Without;
  }

  /** What a looked-up parent says is fixed by its birth and by its scorer. */
  lemma ResolvedParent(w: World, pid: string, at: real)
    requires Inv(w) && w.now <= at && LookupById(w.reg, pid, at).1.Some?
    ensures pid in w.born
    ensures var p := LookupById(w.reg, pid, at).1.value;
            && p.agentId == pid
            && p.trustCeiling == w.born[pid].ceiling && p.depth == w.born[pid].depth
            && 0.0 <= p.trustValue <= Cap(p.trustCeiling)
  {
    FirstWithIdFound(w.reg.order, w.reg.agents, pid);
    var n := FirstWithId(w.reg.order, w.reg.agents, pid).value;
    ReadingBounds(w.reg.scorers[n], w.reg.agents[n], w.now, at);
  }

  lemma ReadingBounds(s: LinearState, r: AgentRecord, now: real, at: real)
    requires Fit(s, r, now) && now <= at && Cap(r.trustCeiling) >= 0.0
    ensures 0.0 <= Reading(s, at) <= Cap(r.trustCeiling)
  {
    ChargeNonNegative(s.decayRate, at - s.lastPositive);
    hide DecayOver;
  }

  lemma RegisterStores(m: Memory, r: AgentRecord, at: real)
    requires Register(m, r, at).1.Ok?
    ensures var (m1, answer) := Register(m, r, at);
            var stored := answer.value;
            && stored.agentId == r.agentId && stored.name == r.name && stored.parentAgentId == r.parentAgentId
            && m1.agents.Keys == m.agents.Keys + {r.name}
            && m1.agents[r.name] == stored
            && m1.maxDepth == m.maxDepth
            && m1.scorers == m.scorers[r.name := Initial(stored.trustValue, DEFAULT_DECAY_RATE, stored.trustCeiling, at)]
    ensures forall n :: n in m.agents && n != r.name ==> SameLineage(m.agents[n], Register(m, r, at).0.agents[n])
  {
    hide Reading, TierFor, Pairs, Initial;
  }

  lemma AdmittedKeepsInv(w: World, w1: World, stored: AgentRecord, b: Birth)
    requires Inv(w) && w.now <= w1.now && WellFormed(w1.reg) && w1.reg.maxDepth == w.reg.maxDepth
    requires stored.agentId !in w.born && w1.born == w.born[stored.agentId := b] && LineageOf(stored, b)
    requires SoundHistory(w1.born, w1.reg.maxDepth)
    requires w1.reg.agents.Keys == w.reg.agents.Keys + {stored.name} && w1.reg.agents[stored.name] == stored
    requires forall n :: n in w.reg.agents && n != stored.name ==> SameLineage(w.reg.agents[n], w1.reg.agents[n])
    requires w1.reg.scorers == w.reg.scorers[stored.name := Initial(stored.trustValue, DEFAULT_DECAY_RATE,
                                                                     stored.trustCeiling, w1.now)]
    ensures Inv(w1)
  {
    hide WellFormed, Initial, BirthOk, AgentOk;
    assert UniqueIds(w1.reg) by {
      forall a | a in w1.reg.agents && a != stored.name
        ensures w1.reg.agents[a].agentId in w.born && a in w.reg.agents
                && w1.reg.agents[a].agentId == w.reg.agents[a].agentId
      {
        KnownId(w, a);
        assert SameLineage(w.reg.agents[a], w1.reg.agents[a]);
      }
    }
    forall n | n in w1.reg.agents
      ensures AgentOk(w1, n)
    {
      AdmittedAgentOk(w, w1, stored, b, n);
    }
  }

  lemma KnownId(w: World, n: string)
    requires n in w.reg.agents && AgentOk(w, n)
    ensures w.reg.agents[n].agentId in w.born
  {
  }

  lemma AdmittedAgentOk(w: World, w1: World, stored: AgentRecord, b: Birth, n: string)
    requires n in w1.reg.agents && w.now <= w1.now
    requires n != stored.name ==> AgentOk(w, n) && SameLineage(w.reg.agents[n], w1.reg.agents[n])
    requires n == stored.name ==> w1.reg.agents[n] == stored
    requires stored.agentId !in w.born && w1.born == w.born[stored.agentId := b] && LineageOf(stored, b)
    requires w1.reg.scorers == w.reg.scorers[stored.name := Initial(stored.trustValue, DEFAULT_DECAY_RATE,
                                                                     stored.trustCeiling, w1.now)]
    ensures AgentOk(w1, n)
  {
    InitialFit(stored, w1.now);
    hide Initial;
  }

  lemma RegisterKeepsInv(w: World, r: AgentRecord, at: real)
    requires Inv(w) && Admissible(w, OpRegister(r), at) && Register(w.reg, r, at).1.Ok?
    ensures Inv(WorldStep(w, OpRegister(r), at))
  {
    RegisterWellFormed(w.reg, r, at);
    RegisterStores(w.reg, r, at);
    BornWell(w, r, at);
    var stored := Register(w.reg, r, at).1.value;
    hide Register, BirthOf, Initial, Inv, WellFormed, LineageOf, SameLineage, BirthOk, Cap;
    AdmittedKeepsInv(w, WorldStep(w, OpRegister(r), at), stored, BirthOf(w.reg, stored, at));
  }

  lemma InitialFit(r: AgentRecord, at: real)
    ensures Fit(Initial(r.trustValue, DEFAULT_DECAY_RATE, r.trustCeiling, at), r, at)
  {
  }

  /** A successful register gives the new agent a sound birth and leaves all earlier ones sound. */
  lemma BornWell(w: World, r: AgentRecord, at: real)
    requires Inv(w) && Admissible(w, OpRegister(r), at) && Register(w.reg, r, at).1.Ok?
    ensures var stored := Register(w.reg, r, at).1.value;
            && r.agentId !in w.born
            && LineageOf(stored, BirthOf(w.reg, stored, at))
            && SoundHistory(w.born[r.agentId := BirthOf(w.reg, stored, at)], w.reg.maxDepth)
  {
    var stored := Register(w.reg, r, at).1.value;
    RegisterDerives(w.reg, r, at);
    if r.parentAgentId.Some? {
      ResolvedParent(w, r.parentAgentId.value, at);
    }
    hide Reading, Pairs, LookupById, Insert, TierFor, WellFormed, Register, AgentOk, ValidateNarrowing;
    assert BirthOk(w.born, BirthOf(w.reg, stored, at), w.reg.maxDepth);
  }

  lemma RegisterDerives(m: Memory, r: AgentRecord, at: real)
    requires Register(m, r, at).1.Ok?
    ensures var stored := Register(m, r, at).1.value;
            match r.parentAgentId
            case None => stored == Touched(r, at)
            case Some(pid) =>
              var p := LookupById(m, pid, at).1;
              && p.Some?
              && DeriveChild(p.value, r, m.maxDepth).Ok?
              && stored == Touched(DeriveChild(p.value, r, m.maxDepth).value, at)
  {
    hide LookupById, Insert, DeriveChild;
  }

  lemma StepKeepsInv(w: World, op: Op, at: real)
    requires Inv(w) && Admissible(w, op, at)
    ensures Inv(WorldStep(w, op, at))
  {
    if op.OpRegister? && Register(w.reg, op.record, at).1.Ok? {
      RegisterKeepsInv(w, op.record, at);
    } else if op.OpDeregister? {
      DeregisterKeepsInv(w, op.name, at);
    } else {
      StepQuiet(w.reg, op, w.now, at);
      StepWellFormed(w.reg, op, at);
      QuietKeepsInv(w, Step(w.reg, op, at).0, at);
    }
  }

  // ---- Runs ----

  /** Call i is admissible where it is made and leads to the next world. */
  ghost predicate StepAt(ws: seq<World>, ops: seq<(Op, real)>, i: nat)
    requires |ws| == |ops| + 1 && i < |ops|
  {
    && Admissible(ws[i], ops[i].0, ops[i].1)
    && ws[i + 1] == WorldStep(ws[i], ops[i].0, ops[i].1)
  }

  /** A run from an empty registry. */
  ghost predicate Run(ws: seq<World>, ops: seq<(Op, real)>) {
    && |ws| == |ops| + 1
    && Initially(ws[0])
    && forall i: nat :: i < |ops| ==> StepAt(ws, ops, i)
  }

  lemma {:induction false} ReachableInv(ws: seq<World>, ops: seq<(Op, real)>, i: nat)
    requires Run(ws, ops) && i < |ws|
    ensures Inv(ws[i])
  {
    if i == 0 {
      assert Inv(ws[0]);
    } else {
      ReachableInv(ws, ops, i - 1);
      assert StepAt(ws, ops, i - 1);
      StepKeepsInv(ws[i - 1], ops[i - 1].0, ops[i - 1].1);
    }
  }

  // ---- Ancestors ----

  /** The agent k parents up from id, in the history. */
  function Ancestor(born: map<string, Birth>, id: string, k: nat): Option<string>
    decreases k
  {
    if id !in born then None
    else if k == 0 then Some(id)
    else if born[id].parent.None? then None
    else Ancestor(born, born[id].parent.value, k - 1)
  }

  lemma {:induction false} AncestorCeiling(born: map<string, Birth>, maxDepth: int, id: string, k: nat)
    requires SoundHistory(born, maxDepth) && Ancestor(born, id, k).Some?
    ensures var a := Ancestor(born, id, k).value;
            && a in born
            && Cap(born[id].ceiling) <= Cap(born[a].ceiling)
            && born[id].depth == born[a].depth + k
    decreases k
  {
    if k > 0 {
      AncestorCeiling(born, maxDepth, born[id].parent.value, k - 1);
    }
  }

  /** In every reachable state an agent's trust value, now or later, is at most its ceiling, its ceiling
      at most that of every ancestor it ever had, and at most the value its parent had when the agent
      was registered. Ancestors still registered carry the ceiling they were born with. */
  lemma CeilingAlongLineage(ws: seq<World>, ops: seq<(Op, real)>, i: nat, name: string, k: nat, at: real)
    requires Run(ws, ops) && i < |ws| && name in ws[i].reg.agents && ws[i].now <= at
    requires Ancestor(ws[i].born, ws[i].reg.agents[name].agentId, k).Some?
    ensures var w := ws[i];
            var r := w.reg.agents[name];
            var seen := Lookup(w.reg, name, at).1;
            var a := Ancestor(w.born, r.agentId, k).value;
            && seen.Some? && 0.0 <= seen.value.trustValue <= Cap(seen.value.trustCeiling)
            && seen.value.trustCeiling == w.born[r.agentId].ceiling
            && a in w.born && Cap(seen.value.trustCeiling) <= Cap(w.born[a].ceiling)
            && (r.parentAgentId.Some? ==> Cap(seen.value.trustCeiling) <= w.born[r.agentId].parentValue)
            && (forall n :: n in w.reg.agents && w.reg.agents[n].agentId == a ==>
                  Cap(seen.value.trustCeiling) <= Cap(w.reg.agents[n].trustCeiling))
  {
    var w := ws[i];
    ReachableInv(ws, ops, i);
    AncestorCeiling(w.born, w.reg.maxDepth, w.reg.agents[name].agentId, k);
    ReadingBounds(w.reg.scorers[name], w.reg.agents[name], w.now, at);
    hide Reading, TierFor;
  }

  // ---- Depth ----

  lemma {:induction false} WalkUpEnds(born: map<string, Birth>, maxDepth: int, id: string)
    requires SoundHistory(born, maxDepth) && id in born
    ensures var root := Ancestor(born, id, born[id].depth);
            root.Some? && root.value in born && born[root.value].parent.None?
    decreases born[id].depth
  {
    if born[id].parent.Some? {
      WalkUpEnds(born, maxDepth, born[id].parent.value);
    }
  }

  /** A child is one deeper than its parent and within the limit, walking up reaches a root in exactly
      `depth` steps and no further, and no agent is its own ancestor. */
  lemma DepthIsARank(ws: seq<World>, ops: seq<(Op, real)>, i: nat, name: string)
    requires Run(ws, ops) && i < |ws| && name in ws[i].reg.agents
    ensures var w := ws[i];
            var r := w.reg.agents[name];
            && (r.parentAgentId.Some? ==> r.depth <= w.reg.maxDepth)
            && (forall q :: q in w.reg.agents && r.parentAgentId == Some(w.reg.agents[q].agentId) ==>
                  r.depth == w.reg.agents[q].depth + 1)
            && r.depth >= 0
            && (forall k: nat :: Ancestor(w.born, r.agentId, k).Some? ==> k <= r.depth)
            && (var root := Ancestor(w.born, r.agentId, r.depth);
                root.Some? && root.value in w.born && w.born[root.value].parent.None?)
            && (forall k: nat :: k > 0 ==> Ancestor(w.born, r.agentId, k) != Some(r.agentId))
  {
    var w := ws[i];
    var r := w.reg.agents[name];
    ReachableInv(ws, ops, i);
    WalkUpEnds(w.born, w.reg.maxDepth, r.agentId);
    forall k: nat | Ancestor(w.born, r.agentId, k).Some?
      ensures k <= r.depth && (k > 0 ==> Ancestor(w.born, r.agentId, k) != Some(r.agentId))
    {
      AncestorCeiling(w.born, w.reg.maxDepth, r.agentId, k);
    }
    forall q | q in w.reg.agents && r.parentAgentId == Some(w.reg.agents[q].agentId)
      ensures r.depth == w.reg.agents[q].depth + 1
    {
      assert BirthOk(w.born, w.born[r.agentId], w.reg.maxDepth);
    }
  }

  // ---- Where grants come from ----

  /** Some registered agent with this id holds the pair: what `has_grant` answers for it. */
  ghost predicate Holds(m: Memory, id: string, p: Pair) {
    exists n :: n in m.agents && m.agents[n].agentId == id && p in Pairs(m.agents[n].grants)
  }

  /** Every pair of the record was already held under its own id, or is held by its parent. */
  ghost predicate Justified(m: Memory, r: AgentRecord) {
    forall p :: p in Pairs(r.grants) && r.parentAgentId.Some? ==>
      Holds(m, r.agentId, p) || Holds(m, r.parentAgentId.value, p)
  }

  ghost predicate Kept(m: Memory, r: AgentRecord) {
    r.name in m.agents && m.agents[r.name].agentId == r.agentId && Pairs(r.grants) <= Pairs(m.agents[r.name].grants)
  }

  lemma KeptIsJustified(m: Memory, r: AgentRecord)
    requires Kept(m, r)
    ensures Justified(m, r)
  {
    hide Pairs;
  }

  lemma LookupKeepsGrants(m: Memory, id: string, at: real)
    requires WellFormed(m)
    ensures var (m1, p) := LookupById(m, id, at);
            && m1.agents.Keys == m.agents.Keys
            && (forall n :: n in m.agents ==>
                  SameLineage(m.agents[n], m1.agents[n]) && m1.agents[n].grants == m.agents[n].grants)
            && (p.Some? ==> p.value.agentId == id && forall q :: q in Pairs(p.value.grants) ==> Holds(m, id, q))
  {
    hide Reading, TierFor, Pairs;
    FirstWithIdFound(m.order, m.agents, id);
  }

  lemma RemovalShrinks(grants: seq<Grant>, i: nat)
    requires i < |grants|
    ensures Pairs(grants[..i] + grants[i + 1..]) <= Pairs(grants)
  {
    var rest := grants[..i] + grants[i + 1..];
    assert forall g :: g in rest ==> g in grants;
  }

  lemma AddGrantJustified(m: Memory, name: string, g: Grant, at: real, n: string)
    requires WellFormed(m) && n in AddGrant(m, name, g, at).0.agents
    ensures Justified(m, AddGrant(m, name, g, at).0.agents[n])
  {
    var (m1, out) := AddGrant(m, name, g, at);
    var r := m1.agents[n];
    if name in m.agents && m.agents[name].parentAgentId.Some? {
      LookupKeepsGrants(m, m.agents[name].parentAgentId.value, at);
    }
    hide Reading, TierFor, LookupById;
    if n == name && out.Ok? && r.parentAgentId.Some? {
      var old_ := m.agents[name];
      assert r.grants == old_.grants + [g];
      PairsOfConcat(old_.grants, [g]);
      var parent := LookupById(m, r.parentAgentId.value, at).1.value;
      NarrowingIff(parent, name, [g]);
      hide Pairs, ValidateNarrowing;
      assert forall p :: p in Pairs(old_.grants) ==> Holds(m, r.agentId, p);
      assert forall p :: p in Pairs([g]) ==> p in Pairs(parent.grants);
    } else {
      hide Pairs, ValidateNarrowing;
      if n in m.agents && r.parentAgentId.Some? {
        assert Kept(m, r);
      }
    }
  }

  lemma RegisterJustified(m: Memory, record: AgentRecord, at: real, n: string)
    requires WellFormed(m) && n in Register(m, record, at).0.agents
    ensures Justified(m, Register(m, record, at).0.agents[n])
  {
    var (m1, out) := Register(m, record, at);
    var r := m1.agents[n];
    if record.parentAgentId.Some? {
      LookupKeepsGrants(m, record.parentAgentId.value, at);
    }
    hide Reading, TierFor, LookupById, ChildCeiling;
    if n == record.name && out.Ok? {
      assert r == out.value;
      if r.parentAgentId.Some? {
        var parent := LookupById(m, r.parentAgentId.value, at).1.value;
        NarrowingIff(parent, record.name, record.grants);
        assert r.grants == record.grants;
      }
    } else {
      hide Pairs, ValidateNarrowing;
      assert Kept(m, r);
    }
  }

  lemma StepJustified(m: Memory, op: Op, at: real, n: string)
    requires WellFormed(m) && n in Step(m, op, at).0.agents
    ensures Justified(m, Step(m, op, at).0.agents[n])
  {
    var r := Step(m, op, at).0.agents[n];
    match op
    case OpRegister(record) => RegisterJustified(m, record, at, n);
    case OpAddGrant(name, g) => AddGrantJustified(m, name, g, at, n);
    case OpRemoveGrant(name, g) =>
      if name in m.agents && GrantIndex(m.agents[name].grants, g) < |m.agents[name].grants| {
        RemovalShrinks(m.agents[name].grants, GrantIndex(m.agents[name].grants, g));
      }
      hide Reading, TierFor, Pairs, GrantIndex;
      KeptIsJustified(m, r);
    case _ =>
      OtherKeeps(m, op, at, n);
      KeptIsJustified(m, r);
  }

  lemma OtherKeeps(m: Memory, op: Op, at: real, n: string)
    requires WellFormed(m) && n in Step(m, op, at).0.agents
    requires !op.OpRegister? && !op.OpAddGrant? && !op.OpRemoveGrant?
    ensures Kept(m, Step(m, op, at).0.agents[n])
    ensures Step(m, op, at).0.agents[n].grants == m.agents[n].grants
  {
    hide Reading, TierFor, Pairs, AfterEvent, AfterSet, LookupById, Select;
    if op.OpLookupById? {
      LookupKeepsGrants(m, op.id, at);
    }
  }

  /** A pair newly held by an agent with a parent is held by that parent in the state just before. */
  lemma Obtained(w: World, op: Op, at: real, id: string, p: Pair)
    requires Inv(w) && Admissible(w, op, at)
    requires Holds(WorldStep(w, op, at).reg, id, p) && !Holds(w.reg, id, p)
    requires id in WorldStep(w, op, at).born && WorldStep(w, op, at).born[id].parent.Some?
    ensures Holds(w.reg, WorldStep(w, op, at).born[id].parent.value, p)
  {
    var w1 := WorldStep(w, op, at);
    StepKeepsInv(w, op, at);
    var n :| n in w1.reg.agents && w1.reg.agents[n].agentId == id && p in Pairs(w1.reg.agents[n].grants);
    StepJustified(w.reg, op, at, n);
    hide Pairs, Step, WellFormed, Fit, BirthOk;
    assert AgentOk(w1, n);
  }

  lemma HoldersAreBorn(w: World, id: string, p: Pair)
    requires Inv(w) && Holds(w.reg, id, p)
    ensures id in w.born
  {
    hide Pairs;
    var n :| n in w.reg.agents && w.reg.agents[n].agentId == id && p in Pairs(w.reg.agents[n].grants);
    assert AgentOk(w, n);
  }

  /** History only grows, so ancestors never change. */
  lemma {:induction false} AncestorStable(w: World, op: Op, at: real, id: string, k: nat)
    requires Inv(w) && Admissible(w, op, at) && id in w.born
    ensures Ancestor(WorldStep(w, op, at).born, id, k) == Ancestor(w.born, id, k)
    decreases k
  {
    var w1 := WorldStep(w, op, at);
    assert id in w1.born && w1.born[id] == w.born[id] by {
      hide WellFormed, UniqueIds, BirthOf, Register;
    }
    assert BirthOk(w.born, w.born[id], w.reg.maxDepth);
    if k > 0 && w.born[id].parent.Some? {
      AncestorStable(w, op, at, w.born[id].parent.value, k - 1);
    }
  }

  /** At the step where an agent obtains a pair, its parent holds it, and its other ancestors are its parent's. */
  lemma ObtainedFromParent(w: World, op: Op, at: real, id: string, p: Pair, k: nat)
    requires Inv(w) && Admissible(w, op, at) && k > 0
    requires Holds(WorldStep(w, op, at).reg, id, p) && !Holds(w.reg, id, p)
    requires Ancestor(WorldStep(w, op, at).born, id, k).Some?
    ensures var w1 := WorldStep(w, op, at);
            && id in w1.born && w1.born[id].parent.Some?
            && Holds(w.reg, w1.born[id].parent.value, p)
            && Ancestor(w.born, w1.born[id].parent.value, k - 1) == Ancestor(w1.born, id, k)
  {
    hide Inv, Holds, Admissible, WorldStep;
    var w1 := WorldStep(w, op, at);
    Obtained(w, op, at, id, p);
    var parent := w1.born[id].parent.value;
    HoldersAreBorn(w, parent, p);
    AncestorStable(w, op, at, parent, k - 1);
  }

  lemma RunShape(ws: seq<World>, ops: seq<(Op, real)>)
    requires Run(ws, ops)
    ensures |ws| == |ops| + 1 && Initially(ws[0])
  {
    hide StepAt, Initially;
  }

  lemma RunStep(ws: seq<World>, ops: seq<(Op, real)>, i: nat)
    requires Run(ws, ops) && 0 < i < |ws|
    ensures Inv(ws[i - 1]) && Admissible(ws[i - 1], ops[i - 1].0, ops[i - 1].1)
    ensures ws[i] == WorldStep(ws[i - 1], ops[i - 1].0, ops[i - 1].1)
  {
    ReachableInv(ws, ops, i - 1);
    assert StepAt(ws, ops, i - 1);
    hide Inv, Admissible, WorldStep;
  }

  ghost predicate HeldBy(ws: seq<World>, i: nat, id: string, p: Pair)
    requires i < |ws|
  {
    exists j :: 0 <= j <= i && Holds(ws[j].reg, id, p)
  }

  lemma HeldNow(ws: seq<World>, i: nat, id: string, p: Pair, k: nat)
    requires i < |ws| && Holds(ws[i].reg, id, p) && Ancestor(ws[i].born, id, k).Some?
    ensures k == 0 ==> HeldBy(ws, i, Ancestor(ws[i].born, id, k).value, p)
    ensures !Initially(ws[i])
  {
    hide Pairs;
  }

  lemma HeldLater(ws: seq<World>, i: nat, id: string, p: Pair)
    requires 0 < i < |ws| && HeldBy(ws, i - 1, id, p)
    ensures HeldBy(ws, i, id, p)
  {
    hide Holds;
  }

  /** Whatever an agent holds, each of its ancestors held then or earlier. */
  lemma {:induction false} HeldByAncestors(ws: seq<World>, ops: seq<(Op, real)>, i: nat, id: string, p: Pair, k: nat)
    requires Run(ws, ops) && i < |ws|
    requires Holds(ws[i].reg, id, p) && Ancestor(ws[i].born, id, k).Some?
    ensures HeldBy(ws, i, Ancestor(ws[i].born, id, k).value, p)
    decreases i, k
  {
    hide *;
    RunShape(ws, ops);
    HeldNow(ws, i, id, p, k);
    if i > 0 && k > 0 {
      RunStep(ws, ops, i);
      var before, op, at := ws[i - 1], ops[i - 1].0, ops[i - 1].1;
      if Holds(before.reg, id, p) {
        HoldersAreBorn(before, id, p);
        AncestorStable(before, op, at, id, k);
        HeldByAncestors(ws, ops, i - 1, id, p, k);
      } else {
        ObtainedFromParent(before, op, at, id, p, k);
        HeldByAncestors(ws, ops, i - 1, ws[i].born[id].parent.value, p, k - 1);
      }
      HeldLater(ws, i, Ancestor(ws[i].born, id, k).value, p);
    }
  }

  /** Every pair an agent obtains at step i, at registration or by a grant, was held by each of its
      ancestors in some strictly earlier state. */
  lemma GrantProvenance(ws: seq<World>, ops: seq<(Op, real)>, i: nat, id: string, p: Pair, k: nat)
    requires Run(ws, ops) && 0 < i < |ws| && k > 0
    requires Holds(ws[i].reg, id, p) && !Holds(ws[i - 1].reg, id, p)
    requires Ancestor(ws[i].born, id, k).Some?
    ensures HeldBy(ws, i - 1, Ancestor(ws[i].born, id, k).value, p)
  {
    hide *;
    RunShape(ws, ops);
    RunStep(ws, ops, i);
    ObtainedFromParent(ws[i - 1], ops[i - 1].0, ops[i - 1].1, id, p, k);
    HeldByAncestors(ws, ops, i - 1, ws[i].born[id].parent.value, p, k - 1);
  }

  // ---- When a child holds no more than its registered parent ----

  ghost predicate Narrow(m: Memory) {
    forall c, q :: c in m.agents && q in m.agents && m.agents[c].parentAgentId == Some(m.agents[q].agentId) ==>
      Pairs(m.agents[c].grants) <= Pairs(m.agents[q].grants)
  }

  predicate Removes(m: Memory, op: Op, at: real)
  {
    op.OpRemoveGrant? && Step(m, op, at).1.Returned?
  }

  /** Unless a grant is removed, an agent that stays registered keeps every pair it holds. */
  lemma AddGrantGrows(m: Memory, name: string, g: Grant, at: real, n: string)
    requires WellFormed(m) && n in m.agents
    ensures var m1 := AddGrant(m, name, g, at).0;
            && n in m1.agents && m1.agents[n].agentId == m.agents[n].agentId
            && Pairs(m.agents[n].grants) <= Pairs(m1.agents[n].grants)
  {
    if name in m.agents && m.agents[name].parentAgentId.Some? {
      LookupKeepsGrants(m, m.agents[name].parentAgentId.value, at);
    }
    PairsOfConcat(m.agents[n].grants, [g]);
    hide Reading, TierFor, LookupById, Pairs, ValidateNarrowing;
  }

  lemma RegisterGrows(m: Memory, r: AgentRecord, at: real, n: string)
    requires WellFormed(m) && n in m.agents && n in Register(m, r, at).0.agents
    requires !(r.name == n && Register(m, r, at).1.Ok?)
    ensures m.agents[n].agentId == Register(m, r, at).0.agents[n].agentId
    ensures Pairs(m.agents[n].grants) <= Pairs(Register(m, r, at).0.agents[n].grants)
  {
    hide Reading, TierFor, LookupById, Pairs, ValidateNarrowing, ChildCeiling, ChildDepth;
    if r.parentAgentId.Some? {
      LookupKeepsGrants(m, r.parentAgentId.value, at);
    }
  }

  lemma StepGrows(m: Memory, op: Op, at: real, n: string)
    requires WellFormed(m) && !Removes(m, op, at)
    requires n in m.agents && n in Step(m, op, at).0.agents
    requires !(op.OpRegister? && op.record.name == n && Step(m, op, at).1.Returned?)
    ensures m.agents[n].agentId == Step(m, op, at).0.agents[n].agentId
    ensures Pairs(m.agents[n].grants) <= Pairs(Step(m, op, at).0.agents[n].grants)
  {
    hide Register, AddGrant, Pairs, Reading, TierFor;
    match op
    case OpRegister(r) => RegisterGrows(m, r, at, n);
    case OpAddGrant(name, g) => AddGrantGrows(m, name, g, at, n);
    case OpRemoveGrant(_, _) =>
    case _ =>
      OtherKeeps(m, op, at, n);
  }

  lemma Registered(w: World, op: Op, at: real, n: string)
    requires Inv(w) && Admissible(w, op, at) && n in WorldStep(w, op, at).reg.agents
    requires n !in w.reg.agents || (op.OpRegister? && op.record.name == n && Step(w.reg, op, at).1.Returned?)
    ensures WorldStep(w, op, at).reg.agents[n].agentId !in w.born
  {
    if op.OpRegister? && Register(w.reg, op.record, at).1.Ok? {
      RegisterStores(w.reg, op.record, at);
    } else if op.OpDeregister? {
    } else {
      StepQuiet(w.reg, op, w.now, at);
    }
  }

  /** Every other agent registered as a child of `name` holds only pairs that are left when the grant is removed. */
  ghost predicate Covered(m: Memory, name: string, grantId: string)
    requires name in m.agents
  {
    forall c :: c in m.agents && c != name && m.agents[c].parentAgentId == Some(m.agents[name].agentId) ==>
      Pairs(m.agents[c].grants) <= Pairs(Remaining(m.agents[name].grants, grantId))
  }

  /** A removal that takes from an agent a pair one of its registered children still holds. */
  ghost predicate Uncovers(m: Memory, op: Op, at: real) {
    Removes(m, op, at) && op.name in m.agents && !Covered(m, op.name, op.grantId)
  }

  lemma RemovalLeaves(m: Memory, name: string, grantId: string, at: real)
    requires WellFormed(m) && Removes(m, OpRemoveGrant(name, grantId), at)
    ensures name in m.agents
    ensures var m1 := Step(m, OpRemoveGrant(name, grantId), at).0;
            && m1.agents.Keys == m.agents.Keys
            && (forall n :: n in m.agents && n != name ==> m1.agents[n] == m.agents[n])
            && m1.agents[name].agentId == m.agents[name].agentId
            && m1.agents[name].parentAgentId == m.agents[name].parentAgentId
            && m1.agents[name].grants == Remaining(m.agents[name].grants, grantId)
    ensures Pairs(Remaining(m.agents[name].grants, grantId)) <= Pairs(m.agents[name].grants)
  {
    hide Reading, TierFor, GrantIndex, Pairs;
    var i := GrantIndex(m.agents[name].grants, grantId);
    RemovalShrinks(m.agents[name].grants, i);
  }

  /** Removing a grant leaves no child above its parent exactly when every registered child of the agent is covered
      by what remains: removals are not passed on to children. */
  lemma RemovalNarrowIff(m: Memory, name: string, grantId: string, at: real)
    requires WellFormed(m) && Narrow(m) && Removes(m, OpRemoveGrant(name, grantId), at)
    ensures name in m.agents
    ensures Narrow(Step(m, OpRemoveGrant(name, grantId), at).0) <==> Covered(m, name, grantId)
  {
    hide Step, Pairs, Remaining, WellFormed, Removes;
    RemovalLeaves(m, name, grantId, at);
    var m1 := Step(m, OpRemoveGrant(name, grantId), at).0;
    if Narrow(m1) {
      forall c | c in m.agents && c != name && m.agents[c].parentAgentId == Some(m.agents[name].agentId)
        ensures Pairs(m.agents[c].grants) <= Pairs(Remaining(m.agents[name].grants, grantId))
      {
        assert m1.agents[c] == m.agents[c];
      }
    }
    if Covered(m, name, grantId) {
      forall c, q | c in m1.agents && q in m1.agents && m1.agents[c].parentAgentId == Some(m1.agents[q].agentId)
        ensures Pairs(m1.agents[c].grants) <= Pairs(m1.agents[q].grants)
      {
        assert Pairs(m.agents[c].grants) <= Pairs(m.agents[q].grants);
      }
    }
  }

  /** In a reachable state a call keeps every child within its registered parent exactly when it is not a removal
      that uncovers one. */
  lemma StepNarrowIff(w: World, op: Op, at: real)
    requires Inv(w) && Admissible(w, op, at) && Narrow(w.reg)
    ensures Narrow(WorldStep(w, op, at).reg) <==> !Uncovers(w.reg, op, at)
  {
    hide Narrow, Inv, Covered, Step, Admissible;
    if Removes(w.reg, op, at) {
      InvWellFormed(w);
      RemovalNarrowIff(w.reg, op.name, op.grantId, at);
    } else {
      StepKeepsNarrow(w, op, at);
    }
  }

  lemma InvWellFormed(w: World)
    requires Inv(w)
    ensures WellFormed(w.reg)
  {
    hide WellFormed;
  }

  lemma StepKeepsNarrow(w: World, op: Op, at: real)
    requires Inv(w) && Admissible(w, op, at) && !Removes(w.reg, op, at)
    requires Narrow(w.reg)
    ensures Narrow(WorldStep(w, op, at).reg)
  {
    var w1 := WorldStep(w, op, at);
    StepKeepsInv(w, op, at);
    forall c, q | c in w1.reg.agents && q in w1.reg.agents
                  && w1.reg.agents[c].parentAgentId == Some(w1.reg.agents[q].agentId)
      ensures Pairs(w1.reg.agents[c].grants) <= Pairs(w1.reg.agents[q].grants)
    {
      StepNarrowPair(w, op, at, c, q);
    }
  }

  lemma StepNarrowPair(w: World, op: Op, at: real, c: string, q: string)
    requires Inv(w) && Admissible(w, op, at) && !Removes(w.reg, op, at)
    requires Narrow(w.reg) && Inv(WorldStep(w, op, at))
    requires var m1 := WorldStep(w, op, at).reg;
             c in m1.agents && q in m1.agents && m1.agents[c].parentAgentId == Some(m1.agents[q].agentId)
    ensures var m1 := WorldStep(w, op, at).reg;
            Pairs(m1.agents[c].grants) <= Pairs(m1.agents[q].grants)
  {
    var w1 := WorldStep(w, op, at);
    var rc, rq := w1.reg.agents[c], w1.reg.agents[q];
    StepJustified(w.reg, op, at, c);
    var pid := rq.agentId;
    forall p | p in Pairs(rc.grants)
      ensures p in Pairs(rq.grants)
    {
      assert Holds(w.reg, rc.agentId, p) || Holds(w.reg, pid, p);
      ParentStillHeld(w, op, at, c, q, p);
    }
  }

  lemma ParentStillHeld(w: World, op: Op, at: real, c: string, q: string, p: Pair)
    requires Inv(w) && Admissible(w, op, at) && !Removes(w.reg, op, at)
    requires Narrow(w.reg) && Inv(WorldStep(w, op, at))
    requires var m1 := WorldStep(w, op, at).reg;
             && c in m1.agents && q in m1.agents && m1.agents[c].parentAgentId == Some(m1.agents[q].agentId)
             && (Holds(w.reg, m1.agents[c].agentId, p) || Holds(w.reg, m1.agents[q].agentId, p))
    ensures p in Pairs(WorldStep(w, op, at).reg.agents[q].grants)
  {
    var w1 := WorldStep(w, op, at);
    var cid, pid := w1.reg.agents[c].agentId, w1.reg.agents[q].agentId;
    ParentBorn(w, op, at, c);
    if q !in w.reg.agents || (op.OpRegister? && op.record.name == q && Step(w.reg, op, at).1.Returned?) {
      Registered(w, op, at, q);
      if Holds(w.reg, pid, p) {
        HoldersAreBorn(w, pid, p);
      } else {
        HoldersAreBorn(w, cid, p);
      }
      assert false;
    }
    StepGrows(w.reg, op, at, q);
    hide Pairs, Step, WellFormed, BirthOk, Removes;
    if Holds(w.reg, cid, p) {
      var n :| n in w.reg.agents && w.reg.agents[n].agentId == cid && p in Pairs(w.reg.agents[n].grants);
      assert AgentOk(w, n) && AgentOk(w1, c);
      assert p in Pairs(w.reg.agents[q].grants);
    }
    var n :| n in w.reg.agents && w.reg.agents[n].agentId == pid && p in Pairs(w.reg.agents[n].grants);
    assert n == q;
  }

  /** An agent born before this step has a parent born before this step. */
  lemma ParentBorn(w: World, op: Op, at: real, c: string)
    requires Inv(w) && Admissible(w, op, at) && Inv(WorldStep(w, op, at))
    requires c in WorldStep(w, op, at).reg.agents
    ensures var r := WorldStep(w, op, at).reg.agents[c];
            r.agentId in w.born ==>
              && w.born[r.agentId].parent == r.parentAgentId
              && (r.parentAgentId.Some? ==> r.parentAgentId.value in w.born)
  {
    var w1 := WorldStep(w, op, at);
    var r := w1.reg.agents[c];
    assert AgentOk(w1, c);
    hide Step, WellFormed, BirthOf, Fit;
    if r.agentId in w.born {
      assert BirthOk(w.born, w.born[r.agentId], w.reg.maxDepth);
    }
  }

  ghost predicate UncoversAt(ws: seq<World>, ops: seq<(Op, real)>, j: nat)
    requires j < |ws| && j < |ops|
  {
    Uncovers(ws[j].reg, ops[j].0, ops[j].1)
  }

  /** Through a run every child stays within its registered parent exactly as long as no removal uncovers one. */
  lemma {:induction false} NarrowThroughoutIff(ws: seq<World>, ops: seq<(Op, real)>, i: nat)
    requires Run(ws, ops) && i < |ws|
    ensures (forall k: nat :: k <= i ==> Narrow(ws[k].reg)) <==> (forall j: nat :: j < i ==> !UncoversAt(ws, ops, j))
  {
    hide Narrow, Uncovers, Inv, Admissible, WorldStep;
    if i == 0 {
      NarrowAtStart(ws, ops);
    } else {
      NarrowThroughoutIff(ws, ops, i - 1);
      RunStep(ws, ops, i);
      hide Run, StepAt;
      if Narrow(ws[i - 1].reg) {
        StepNarrowIff(ws[i - 1], ops[i - 1].0, ops[i - 1].1);
      }
      assert UncoversAt(ws, ops, i - 1) <==> Uncovers(ws[i - 1].reg, ops[i - 1].0, ops[i - 1].1);
    }
  }

  lemma NarrowAtStart(ws: seq<World>, ops: seq<(Op, real)>)
    requires Run(ws, ops)
    ensures Narrow(ws[0].reg)
  {
    hide StepAt;
  }

  // ---- Why an id must not be registered twice ----

  /** Registering an agent again under a child of its own is admitted exactly when the depth allows it and the child
      holds every pair asked for, and leaves the two agents as each other's parent. */
  lemma ReRegistrationMakesACycle(m: Memory, p: string, q: string, again: AgentRecord, at: real)
    requires WellFormed(m) && UniqueIds(m) && p in m.agents && q in m.agents && p != q
    requires m.agents[q].parentAgentId == Some(m.agents[p].agentId)
    requires again.name == p && again.agentId == m.agents[p].agentId
    requires again.parentAgentId == Some(m.agents[q].agentId)
    ensures Register(m, again, at).1.Ok?
       <==> m.agents[q].depth + 1 <= m.maxDepth && Pairs(again.grants) <= Pairs(m.agents[q].grants)
    ensures Register(m, again, at).1.Ok? ==>
              var m1 := Register(m, again, at).0;
              && m1.agents[p].parentAgentId == Some(m1.agents[q].agentId)
              && m1.agents[q].parentAgentId == Some(m1.agents[p].agentId)
  {
    hide Reading, TierFor, Initial, ChildCeiling;
    FirstWithIdFound(m.order, m.agents, m.agents[q].agentId);
    assert FirstWithId(m.order, m.agents, m.agents[q].agentId) == Some(q);
    var parent := LookupById(m, m.agents[q].agentId, at).1.value;
    assert parent.grants == m.agents[q].grants && parent.depth == m.agents[q].depth;
    NarrowingIff(parent, again.name, again.grants);
    hide Pairs, ValidateNarrowing, FirstWithId;
  }
}
