/** The guarantees of delegation lineages, for the SQLite backend: a run that registers no agent id twice, and no name
    while it is registered, is one on which both backends agree. */
module SqliteLineage {
  import opened Common
  import opened Model
  import opened Lineage
  import LinearTrust
  import opened MemoryRegistry
  import opened RegistryRuns
  import opened SqliteRows
  import opened SqliteStore
  import opened BackendSimulation

  /** The SQLite registry after the first i calls. */
  ghost function StoreAt(ws: seq<World>, ops: seq<(Op, real)>, i: nat): Sql
    requires ws != [] && i <= |ops|
  {
    SqlAfter(EmptySql(ws[0].reg.maxDepth), ops[..i])
  }

  /** A run of admissible calls none of which registers a registered name. */
  ghost predicate CommonRun(ws: seq<World>, ops: seq<(Op, real)>) {
    Run(ws, ops) && FreshRun(ws[0].reg, ops)
  }

  lemma {:induction false} WorldIsMemory(ws: seq<World>, ops: seq<(Op, real)>, i: nat)
    requires Run(ws, ops) && i < |ws|
    ensures i <= |ops| && ws[i].reg == MemoryAfter(ws[0].reg, ops[..i])
  {
    RunShape(ws, ops);
    if i > 0 {
      WorldIsMemory(ws, ops, i - 1);
      RunStep(ws, ops, i);
      assert ops[..i][..i - 1] == ops[..i - 1];
      hide Step, Run, Inv, Admissible, BirthOf;
    }
  }

  /** After every call of such a run the two backends are related. */
  lemma StoreFollows(ws: seq<World>, ops: seq<(Op, real)>, i: nat)
    requires CommonRun(ws, ops) && i < |ws|
    ensures i <= |ops| && Sim(ws[i].reg, StoreAt(ws, ops, i))
  {
    RunShape(ws, ops);
    WorldIsMemory(ws, ops, i);
    var e, s := ws[0].reg, EmptySql(ws[0].reg.maxDepth);
    assert Sim(e, s);
    hide Sim, Run, Step, FreshCall;
    forall k | 0 <= k < i ensures FreshCall(MemoryAfter(e, ops[..i][..k]), ops[..i][k].0) {
      assert ops[..i][..k] == ops[..k];
    }
    RunSim(e, s, ops[..i]);
  }

  /** In every state of such a run a lookup in SQLite answers what memory answers. */
  lemma StoreReads(ws: seq<World>, ops: seq<(Op, real)>, i: nat, name: string, at: real)
    requires CommonRun(ws, ops) && i < |ws|
    ensures i <= |ops| && Read(StoreAt(ws, ops, i), name, at) == Lookup(ws[i].reg, name, at).1
  {
    StoreFollows(ws, ops, i);
    ReadAgrees(ws[i].reg, StoreAt(ws, ops, i), name, at);
    hide StoreAt, CommonRun, Read, Sim;
  }

  /** In SQLite too, an agent's value, now or later, is at most its ceiling, its ceiling at most that of every ancestor
      it ever had, as the ancestor's own lookup shows it while it is registered, and at most the value its parent had
      when the agent was registered. */
  lemma SqliteCeilingAlongLineage(ws: seq<World>, ops: seq<(Op, real)>, i: nat, name: string, k: nat, at: real)
    requires CommonRun(ws, ops) && i < |ws| && ws[i].now <= at
    requires i <= |ops| && Read(StoreAt(ws, ops, i), name, at).Some?
    requires Ancestor(ws[i].born, Read(StoreAt(ws, ops, i), name, at).value.agentId, k).Some?
    ensures var seen := Read(StoreAt(ws, ops, i), name, at).value;
            var born := ws[i].born;
            var a := Ancestor(born, seen.agentId, k).value;
            && 0.0 <= seen.trustValue <= Cap(seen.trustCeiling)
            && seen.agentId in born && a in born && Cap(seen.trustCeiling) <= Cap(born[a].ceiling)
            && (seen.parentAgentId.Some? ==> Cap(seen.trustCeiling) <= born[seen.agentId].parentValue)
            && (forall n ::
                  Read(StoreAt(ws, ops, i), n, at).Some? && Read(StoreAt(ws, ops, i), n, at).value.agentId == a ==>
                  Cap(seen.trustCeiling) <= Cap(Read(StoreAt(ws, ops, i), n, at).value.trustCeiling))
  {
    hide StoreAt, Run, FreshRun, Ancestor, Read, Cap;
    StoreReads(ws, ops, i, name, at);
    LookupFields(ws, ops, i, name, at);
    CeilingAlongLineage(ws, ops, i, name, k, at);
    var seen := Read(StoreAt(ws, ops, i), name, at).value;
    var a := Ancestor(ws[i].born, seen.agentId, k).value;
    forall n | Read(StoreAt(ws, ops, i), n, at).Some? && Read(StoreAt(ws, ops, i), n, at).value.agentId == a
      ensures Cap(seen.trustCeiling) <= Cap(Read(StoreAt(ws, ops, i), n, at).value.trustCeiling)
    {
      StoreReads(ws, ops, i, n, at);
      LookupFields(ws, ops, i, n, at);
    }
  }

  /** What a lookup shows of an agent besides its trust is what is stored. */
  lemma LookupFields(ws: seq<World>, ops: seq<(Op, real)>, i: nat, name: string, at: real)
    requires Run(ws, ops) && i < |ws|
    ensures var seen := Lookup(ws[i].reg, name, at).1;
            && (seen.Some? <==> name in ws[i].reg.agents)
            && (seen.Some? ==>
                  var r := ws[i].reg.agents[name];
                  && seen.value.agentId == r.agentId && seen.value.parentAgentId == r.parentAgentId
                  && seen.value.trustCeiling == r.trustCeiling && seen.value.depth == r.depth
                  && seen.value.grants == r.grants && r.agentId in ws[i].born)
  {
    ReachableInv(ws, ops, i);
    if name in ws[i].reg.agents {
      assert AgentOk(ws[i], name);
    }
    hide Run, LinearTrust.Reading, TierFor, Fit, WellFormed, UniqueIds, SoundHistory;
  }

  /** Some row of the id holds a grant of the pair. */
  ghost predicate StoreHolds(s: Sql, id: string, p: Pair, at: real) {
    exists n :: Read(s, n, at).Some? && Read(s, n, at).value.agentId == id && p in Pairs(Read(s, n, at).value.grants)
  }

  /** In SQLite too, whatever pair an agent holds each of its ancestors held then or earlier. */
  lemma SqliteHeldByAncestors(ws: seq<World>, ops: seq<(Op, real)>, i: nat, id: string, p: Pair, k: nat, at: real)
    requires CommonRun(ws, ops) && i < |ws|
    requires i <= |ops| && StoreHolds(StoreAt(ws, ops, i), id, p, at) && Ancestor(ws[i].born, id, k).Some?
    ensures exists j: nat :: j <= i && StoreHolds(StoreAt(ws, ops, j), Ancestor(ws[i].born, id, k).value, p, at)
  {
    hide StoreAt, Run, FreshRun, Ancestor, Read, Pairs;
    var n :| Read(StoreAt(ws, ops, i), n, at).Some? && Read(StoreAt(ws, ops, i), n, at).value.agentId == id
             && p in Pairs(Read(StoreAt(ws, ops, i), n, at).value.grants);
    StoreReads(ws, ops, i, n, at);
    LookupFields(ws, ops, i, n, at);
    assert Holds(ws[i].reg, id, p);
    HeldByAncestors(ws, ops, i, id, p, k);
    var a := Ancestor(ws[i].born, id, k).value;
    var j: nat :| j <= i && Holds(ws[j].reg, a, p);
    var q :| q in ws[j].reg.agents && ws[j].reg.agents[q].agentId == a && p in Pairs(ws[j].reg.agents[q].grants);
    StoreReads(ws, ops, j, q, at);
    LookupFields(ws, ops, j, q, at);
    assert StoreHolds(StoreAt(ws, ops, j), a, p, at);
  }
}
