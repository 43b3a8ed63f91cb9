/** When registering an agent closes a cycle of parents. Registration is an upsert, so the new record may sit under a
    name, or carry an agent id, that has been used before. */
module DelegationCycles {
  import opened Common
  import opened Model
  import opened MemoryRegistry
  import opened RegistryRuns

  /** Some registered record, other than the one under `but`, has id x and parent id y. */
  ghost predicate Linked(m: Memory, but: Option<string>, x: string, y: string) {
    exists n :: n in m.agents && but != Some(n) && IsLink(m.agents[n], x, y)
  }

  predicate IsLink(r: AgentRecord, x: string, y: string) {
    r.agentId == x && r.parentAgentId == Some(y)
  }

  /** The chain of parents up from x reaches y in k links. */
  ghost predicate Reaches(m: Memory, but: Option<string>, x: string, y: string, k: nat)
    decreases k
  {
    if k == 0 then x == y
    else exists z :: Linked(m, but, x, z) && Reaches(m, but, z, y, k - 1)
  }

  /** Some agent is its own ancestor. */
  ghost predicate Cyclic(m: Memory) {
    exists x, k: nat :: k > 0 && Reaches(m, None, x, x, k)
  }

  lemma {:induction false} ReachesJoin(m: Memory, but: Option<string>, x: string, y: string, z: string, j: nat, k: nat)
    requires Reaches(m, but, x, y, j) && Reaches(m, but, y, z, k)
    ensures Reaches(m, but, x, z, j + k)
    decreases j
  {
    if j > 0 {
      var u :| Linked(m, but, x, u) && Reaches(m, but, u, y, j - 1);
      ReachesJoin(m, but, u, y, z, j - 1, k);
      hide Linked;
    }
  }

  /** Two registries that agree on every link outside `but` reach alike outside it. */
  lemma {:induction false} ReachesAlike(m: Memory, m1: Memory, name: string, but: Option<string>, x: string, y: string,
                                        k: nat)
    requires forall a, b :: Linked(m, Some(name), a, b) ==> Linked(m1, but, a, b)
    requires Reaches(m, Some(name), x, y, k)
    ensures Reaches(m1, but, x, y, k)
    decreases k
  {
    if k > 0 {
      var u :| Linked(m, Some(name), x, u) && Reaches(m, Some(name), u, y, k - 1);
      ReachesAlike(m, m1, name, but, u, y, k - 1);
      hide Linked;
    }
  }

  /** A successful registration replaces the record under its name and leaves every other link as it was. */
  lemma RegisterLinks(m: Memory, r: AgentRecord, at: real)
    requires Register(m, r, at).1.Ok?
    ensures var m1 := Register(m, r, at).0;
            && r.name in m1.agents
            && m1.agents[r.name].agentId == r.agentId && m1.agents[r.name].parentAgentId == r.parentAgentId
            && (forall a, b :: Linked(m1, Some(r.name), a, b) <==> Linked(m, Some(r.name), a, b))
            && (forall a, b :: Linked(m1, None, a, b)
                  <==> Linked(m, Some(r.name), a, b) || IsLink(m1.agents[r.name], a, b))
  {
    RegisterStores(m, r, at);
    hide Register;
    var m1 := Register(m, r, at).0;
    forall a, b ensures Linked(m1, Some(r.name), a, b) <==> Linked(m, Some(r.name), a, b) {
      if Linked(m1, Some(r.name), a, b) {
        var n :| n in m1.agents && n != r.name && IsLink(m1.agents[n], a, b);
        assert SameLineage(m.agents[n], m1.agents[n]) && IsLink(m.agents[n], a, b);
      }
      if Linked(m, Some(r.name), a, b) {
        var n :| n in m.agents && n != r.name && IsLink(m.agents[n], a, b);
        assert SameLineage(m.agents[n], m1.agents[n]) && IsLink(m1.agents[n], a, b);
      }
    }
    forall a, b ensures Linked(m1, None, a, b) <==> Linked(m1, Some(r.name), a, b) || IsLink(m1.agents[r.name], a, b) {
      LinkedApart(m1, r.name, a, b);
    }
  }

  lemma LinkedApart(m: Memory, name: string, a: string, b: string)
    requires name in m.agents
    ensures Linked(m, None, a, b) <==> Linked(m, Some(name), a, b) || IsLink(m.agents[name], a, b)
  {
    hide IsLink;
    if Linked(m, None, a, b) {
      var n :| n in m.agents && IsLink(m.agents[n], a, b);
    }
    if Linked(m, Some(name), a, b) {
      var n :| n in m.agents && n != name && IsLink(m.agents[n], a, b);
    }
  }

  /** A chain in the new registry avoids the new record's link, or runs up to that record and on from its parent. */
  lemma {:induction false} ChainSplits(m1: Memory, name: string, x: string, y: string, k: nat)
    requires name in m1.agents && Reaches(m1, None, x, y, k)
    ensures Reaches(m1, Some(name), x, y, k)
         || (m1.agents[name].parentAgentId.Some?
             && (exists i: nat :: Reaches(m1, Some(name), x, m1.agents[name].agentId, i))
             && (exists j: nat :: Reaches(m1, Some(name), m1.agents[name].parentAgentId.value, y, j)))
    decreases k
  {
    if k > 0 {
      var u :| Linked(m1, None, x, u) && Reaches(m1, None, u, y, k - 1);
      ChainSplits(m1, name, u, y, k - 1);
      LinkedApart(m1, name, x, u);
      var r := m1.agents[name];
      hide Linked;
      if Linked(m1, Some(name), x, u) {
        if !Reaches(m1, Some(name), u, y, k - 1) {
          var i: nat :| Reaches(m1, Some(name), u, r.agentId, i);
          assert Reaches(m1, Some(name), x, r.agentId, i + 1);
        }
      } else {
        assert Reaches(m1, Some(name), x, r.agentId, 0);
        if Reaches(m1, Some(name), u, y, k - 1) {
          assert Reaches(m1, Some(name), r.parentAgentId.value, y, k - 1);
        }
      }
    }
  }

  /** The chain of the other records up from the new record's parent id comes back to its own id. */
  ghost predicate ComesBack(m: Memory, r: AgentRecord) {
    r.parentAgentId.Some? && exists k: nat :: Reaches(m, Some(r.name), r.parentAgentId.value, r.agentId, k)
  }

  lemma ClosesCycle(m: Memory, r: AgentRecord, at: real)
    requires Register(m, r, at).1.Ok? && ComesBack(m, r)
    ensures Cyclic(Register(m, r, at).0)
  {
    RegisterLinks(m, r, at);
    hide Register, Linked;
    var m1 := Register(m, r, at).0;
    var pid := r.parentAgentId.value;
    var k: nat :| Reaches(m, Some(r.name), pid, r.agentId, k);
    ReachesAlike(m, m1, r.name, None, pid, r.agentId, k);
    assert Linked(m1, None, r.agentId, pid);
    assert Reaches(m1, None, r.agentId, r.agentId, k + 1);
  }

  lemma LinkedWider(m: Memory, name: string)
    ensures forall a, b :: Linked(m, Some(name), a, b) ==> Linked(m, None, a, b)
  {
    hide IsLink;
    forall a, b | Linked(m, Some(name), a, b) ensures Linked(m, None, a, b) {
      var n :| n in m.agents && n != name && IsLink(m.agents[n], a, b);
    }
  }

  lemma CycleComesBack(m: Memory, r: AgentRecord, at: real)
    requires !Cyclic(m) && Register(m, r, at).1.Ok? && Cyclic(Register(m, r, at).0)
    ensures ComesBack(m, r)
  {
    hide Register, Linked, Reaches;
    RegisterLinks(m, r, at);
    LinkedWider(m, r.name);
    var m1 := Register(m, r, at).0;
    var x: string, k: nat :| k > 0 && Reaches(m1, None, x, x, k);
    ChainSplits(m1, r.name, x, x, k);
    if Reaches(m1, Some(r.name), x, x, k) {
      ReachesAlike(m1, m, r.name, None, x, x, k);
      assert false;
    } else {
      var i: nat :| Reaches(m1, Some(r.name), x, r.agentId, i);
      var j: nat :| Reaches(m1, Some(r.name), r.parentAgentId.value, x, j);
      ReachesJoin(m1, Some(r.name), r.parentAgentId.value, x, r.agentId, j, i);
      ReachesAlike(m1, m, r.name, Some(r.name), r.parentAgentId.value, r.agentId, j + i);
    }
  }

  /** From a registry without cycles, a successful registration makes one exactly when the chain of parents up from
      the new record's parent id comes back to its own id. */
  lemma RegisterCycleIff(m: Memory, r: AgentRecord, at: real)
    requires !Cyclic(m) && Register(m, r, at).1.Ok?
    ensures Cyclic(Register(m, r, at).0) <==> ComesBack(m, r)
  {
    hide Register, Cyclic, ComesBack;
    if ComesBack(m, r) {
      ClosesCycle(m, r, at);
    }
    if Cyclic(Register(m, r, at).0) {
      CycleComesBack(m, r, at);
    }
  }

  /** While the name is new or keeps its agent id, the record it replaces makes no difference to that chain. */
  lemma {:induction false} OwnRecordIdle(m: Memory, r: AgentRecord, x: string, k: nat)
    requires r.name in m.agents ==> m.agents[r.name].agentId == r.agentId
    requires Reaches(m, None, x, r.agentId, k)
    ensures exists j: nat :: Reaches(m, Some(r.name), x, r.agentId, j)
    decreases k
  {
    if x == r.agentId {
      assert Reaches(m, Some(r.name), x, r.agentId, 0);
    } else {
      var u :| Linked(m, None, x, u) && Reaches(m, None, u, r.agentId, k - 1);
      var n :| n in m.agents && IsLink(m.agents[n], x, u);
      assert Linked(m, Some(r.name), x, u);
      OwnRecordIdle(m, r, u, k - 1);
      hide Linked;
      var j: nat :| Reaches(m, Some(r.name), u, r.agentId, j);
      assert Reaches(m, Some(r.name), x, r.agentId, j + 1);
    }
  }

  /** Registering a new agent, or one again under its own name and id, makes a cycle exactly when the agent is already
      among the ancestors its new parent starts. */
  lemma ReRegistrationCycleIff(m: Memory, r: AgentRecord, at: real)
    requires !Cyclic(m) && Register(m, r, at).1.Ok?
    requires r.name in m.agents ==> m.agents[r.name].agentId == r.agentId
    ensures Cyclic(Register(m, r, at).0)
       <==> r.parentAgentId.Some? && exists k: nat :: Reaches(m, None, r.parentAgentId.value, r.agentId, k)
  {
    RegisterCycleIff(m, r, at);
    hide Register, Cyclic, Linked, Reaches;
    LinkedWider(m, r.name);
    if r.parentAgentId.Some? {
      var pid := r.parentAgentId.value;
      if exists k: nat :: Reaches(m, None, pid, r.agentId, k) {
        var k: nat :| Reaches(m, None, pid, r.agentId, k);
        OwnRecordIdle(m, r, pid, k);
      }
      if exists k: nat :: Reaches(m, Some(r.name), pid, r.agentId, k) {
        var k: nat :| Reaches(m, Some(r.name), pid, r.agentId, k);
        ReachesAlike(m, m, r.name, None, pid, r.agentId, k);
      }
    }
  }
}
