/** The SQLite backend answers as the in-memory one does, call by call, as long as no registered name is
    registered again and no two agents share an id. */
module BackendSimulation {
  import opened Common
  import opened Model
  import opened Lineage
  import opened LinearTrust
  import opened MemoryRegistry
  import opened SqliteRows
  import opened SqliteStore

  function Bare(r: AgentRecord): AgentRecord {
    r.(trustValue := 0.0, trustTier := Restricted)
  }

  /** Equal but for the trust fields, which both backends overwrite from the scorer when they are read. */
  predicate SameButTrust(a: AgentRecord, b: AgentRecord) {
    Bare(a) == Bare(b)
  }

  /** The row decodes to the record. */
  predicate RowAgrees(r: AgentRecord, row: Row) {
    && row.name == r.name && row.agentId == r.agentId
    && RowToRecord(row).Some?
    && SameButTrust(RowToRecord(row).value, r)
  }

  ghost predicate Sim(m: Memory, s: Sql) {
    && WellFormed(m) && UniqueIds(m)
    && s.rows.Keys == m.agents.Keys
    && s.scorers == m.scorers && s.events == m.log && s.maxDepth == m.maxDepth
    && (forall n :: n in m.agents ==> RowAgrees(m.agents[n], s.rows[n]))
  }

  /** The call does not register a name or an id that is registered already. */
  ghost predicate FreshCall(m: Memory, op: Op) {
    op.OpRegister? ==>
      op.record.name !in m.agents && forall n :: n in m.agents ==> m.agents[n].agentId != op.record.agentId
  }

  /** The two answers to one call. `register` and `update_identity` answer in memory with the trust fields as
      stored, in SQLite with the scorer's; every other call answers alike. */
  predicate SameAnswer(op: Op, a: Outcome, b: Outcome) {
    if op.OpRegister? || op.OpIdentity? then
      a == b || (a.Returned? && b.Returned? && SameButTrust(a.record, b.record))
    else a == b
  }

  lemma SyncedAlike(a: AgentRecord, b: AgentRecord, st: LinearState, now: real)
    requires SameButTrust(a, b)
    ensures Synced(a, st, now) == Synced(b, st, now)
  {
    hide Reading, TierFor;
  }

  lemma SyncedSame(a: AgentRecord, st: LinearState, now: real)
    ensures SameButTrust(Synced(a, st, now), a)
  {
    hide Reading, TierFor;
  }

  lemma AgreesStill(r: AgentRecord, r1: AgentRecord, row: Row)
    requires RowAgrees(r, row) && SameButTrust(r1, r)
    ensures RowAgrees(r1, row)
  {
    hide RowToRecord;
  }

  lemma ReadAgrees(m: Memory, s: Sql, n: string, now: real)
    requires Sim(m, s)
    ensures Read(s, n, now) == Lookup(m, n, now).1
    ensures Read(s, n, now).Some? <==> n in m.agents
    ensures n in m.agents ==> Read(s, n, now) == Some(Synced(m.agents[n], m.scorers[n], now))
    ensures n in m.agents ==> SameButTrust(Read(s, n, now).value, m.agents[n])
  {
    if n in m.agents {
      SyncedAlike(RowToRecord(s.rows[n]).value, m.agents[n], m.scorers[n], now);
      SyncedSame(m.agents[n], m.scorers[n], now);
    }
    hide Reading, TierFor, RowToRecord, Bare;
  }

  lemma ReadByIdAgrees(m: Memory, s: Sql, id: string, now: real)
    requires Sim(m, s)
    ensures ReadById(s, id, now) == LookupById(m, id, now).1
  {
    FirstWithIdFound(m.order, m.agents, id);
    var f, g := FirstWithId(m.order, m.agents, id), RowWithId(s.rows, id);
    assert f == g by {
      hide RowToRecord, Bare, FirstWithId;
      if g.Some? {
        assert RowAgrees(m.agents[g.value], s.rows[g.value]);
      }
      if f.Some? {
        assert RowAgrees(m.agents[f.value], s.rows[f.value]);
      }
    }
    if f.Some? {
      ReadAgrees(m, s, f.value, now);
    }
  }

  // ---- The steps the calls are built from ----

  /** One record replaced by another of the same name and id that its row still, or now, agrees with. */
  lemma ReplaceSim(m: Memory, s: Sql, r: AgentRecord, row: Row)
    requires Sim(m, s) && r.name in m.agents && r.agentId == m.agents[r.name].agentId
    requires RowAgrees(r, row)
    ensures Sim(Put(m, r), s.(rows := s.rows[r.name := row]))
  {
    hide RowAgrees;
  }

  lemma LookupSim(m: Memory, s: Sql, n: string, now: real)
    requires Sim(m, s)
    ensures Sim(Lookup(m, n, now).0, s)
    ensures n in m.agents ==> Lookup(m, n, now).0 == Put(m, Synced(m.agents[n], m.scorers[n], now))
  {
    if n in m.agents {
      var r := Synced(m.agents[n], m.scorers[n], now);
      SyncedSame(m.agents[n], m.scorers[n], now);
      AgreesStill(m.agents[n], r, s.rows[n]);
      assert s.rows[n := s.rows[n]] == s.rows;
      ReplaceSim(m, s, r, s.rows[n]);
    }
  }

  lemma LookupByIdSim(m: Memory, s: Sql, id: string, now: real)
    requires Sim(m, s)
    ensures Sim(LookupById(m, id, now).0, s)
    ensures LookupById(m, id, now).0.agents.Keys == m.agents.Keys
    ensures LookupById(m, id, now).0.scorers == m.scorers
    ensures forall n :: n in m.agents ==> SameButTrust(LookupById(m, id, now).0.agents[n], m.agents[n])
    ensures forall op :: FreshCall(m, op) ==> FreshCall(LookupById(m, id, now).0, op)
  {
    FirstWithIdFound(m.order, m.agents, id);
    var f := FirstWithId(m.order, m.agents, id);
    if f.Some? {
      LookupSim(m, s, f.value, now);
      SyncedSame(m.agents[f.value], m.scorers[f.value], now);
    }
    hide Reading, TierFor, Sim, FirstWithId;
  }

  /** Replacing a record in memory and saving its equal, but for trust, in the row. */
  lemma WriteSim(m: Memory, s: Sql, r: AgentRecord, saved: AgentRecord, now: real)
    requires Sim(m, s) && r.name in m.agents
    requires r.agentId == m.agents[r.name].agentId && r.createdAt == m.agents[r.name].createdAt
    requires SameButTrust(Touched(saved, now), r)
    ensures Sim(Put(m, r), Save(s, saved, now))
    ensures ReadOrRaise(Save(s, saved, now), r.name, now) == Ok(Synced(r, m.scorers[r.name], now))
  {
    hide Reading, TierFor, RowToRecord, RecordToRow;
    var n := r.name;
    assert RowAgrees(m.agents[n], s.rows[n]);
    var row := UpdateRow(s.rows[n], RecordToRow(Touched(saved, now)));
    DecodedColumns(s.rows[n]);
    UpdateStores(s.rows[n], Touched(saved, now));
    assert RowAgrees(r, row);
    ReplaceSim(m, s, r, row);
    ReadAgrees(Put(m, r), Save(s, saved, now), n, now);
    hide Sim, RowAgrees;
  }

  lemma DecodedColumns(row: Row)
    requires RowToRecord(row).Some?
    ensures RowToRecord(row).value.createdAt == TimeOf(row.createdAt)
  {
    hide DictsToGrants, TierNamed, StatusNamed;
  }

  /** New scorers and a longer log, the same on both sides. */
  lemma ScorersSim(m: Memory, s: Sql, scorers: map<string, LinearState>, log: seq<LogEntry>)
    requires Sim(m, s) && scorers.Keys == m.scorers.Keys
    ensures Sim(m.(scorers := scorers, log := log), s.(scorers := scorers, events := log))
  {
    hide RowAgrees;
  }

  // ---- The calls ----

  lemma AppendSim(m: Memory, s: Sql, r: AgentRecord, row: Row, st: LinearState)
    requires Sim(m, s) && FreshCall(m, OpRegister(r)) && RowAgrees(r, row)
    ensures Sim(m.(order := m.order + [r.name], agents := m.agents[r.name := r], scorers := m.scorers[r.name := st]),
                s.(rows := s.rows[r.name := row], scorers := s.scorers[r.name := st]))
  {
    hide RowAgrees;
  }

  /** A row new in name and id replaces nothing. */
  lemma InsertsOnly(m: Memory, s: Sql, row: Row)
    requires Sim(m, s)
    requires row.name !in m.agents && forall n :: n in m.agents ==> m.agents[n].agentId != row.agentId
    ensures InsertOrReplace(s.rows, row) == s.rows[row.name := row]
  {
    forall k | k in s.rows ensures s.rows[k].agentId == m.agents[k].agentId {
      assert RowAgrees(m.agents[k], s.rows[k]);
    }
    hide RowAgrees;
  }

  /** Storing a record new in name and id, and inserting its row. */
  lemma InsertSim(m: Memory, s: Sql, r: AgentRecord, now: real)
    requires Sim(m, s) && FreshCall(m, OpRegister(r))
    ensures Sim(Insert(m, r, now), SqlInsert(s, r, now))
    ensures ReadOrRaise(SqlInsert(s, r, now), r.name, now)
         == Ok(Synced(Touched(r, now), Initial(r.trustValue, DEFAULT_DECAY_RATE, r.trustCeiling, now), now))
    ensures SameButTrust(Touched(r, now), ReadOrRaise(SqlInsert(s, r, now), r.name, now).value)
  {
    var stored, row := Touched(r, now), RecordToRow(Touched(r, now));
    var st := Initial(r.trustValue, DEFAULT_DECAY_RATE, r.trustCeiling, now);
    RowRoundTrip(stored);
    RowColumns(stored);
    InsertsOnly(m, s, row);
    assert r.name !in m.scorers && r.name !in s.scorers;
    SyncedSame(stored, st, now);
    SameSymmetric(Synced(stored, st, now), stored);
    hide Reading, TierFor, RowToRecord, RecordToRow, Initial, Sim, InsertOrReplace, Read, SameButTrust, Touched;
    AppendSim(m, s, stored, row, st);
    ReadAgrees(Insert(m, r, now), SqlInsert(s, r, now), r.name, now);
  }

  lemma RegisterChildSim(m: Memory, s: Sql, r: AgentRecord, pid: string, now: real)
    requires Sim(m, s) && FreshCall(m, OpRegister(r)) && r.parentAgentId == Some(pid)
    ensures Sim(Register(m, r, now).0, SqlRegister(s, r, now).0)
    ensures match Register(m, r, now).1
            case Err(e) => SqlRegister(s, r, now).1 == Err(e)
            case Ok(a) => SqlRegister(s, r, now).1.Ok? && SameButTrust(a, SqlRegister(s, r, now).1.value)
  {
    assert s.maxDepth == m.maxDepth;
    hide Sim, FreshCall, LookupById, ReadById, DeriveChild, ReadOrRaise, Touched, Insert, SqlInsert, SameButTrust;
    ReadByIdAgrees(m, s, pid, now);
    LookupByIdSim(m, s, pid, now);
    var (m1, parent) := LookupById(m, pid, now);
    if parent.Some? && DeriveChild(parent.value, r, m.maxDepth).Ok? {
      var child := DeriveChild(parent.value, r, m.maxDepth).value;
      ChildKeepsName(parent.value, r, m.maxDepth);
      FreshChild(m1, r, child);
      InsertSim(m1, s, child, now);
    }
  }

  lemma RegisterSim(m: Memory, s: Sql, r: AgentRecord, now: real)
    requires Sim(m, s) && FreshCall(m, OpRegister(r))
    ensures Sim(Register(m, r, now).0, SqlRegister(s, r, now).0)
    ensures SameAnswer(OpRegister(r), FromAnswer(Register(m, r, now)).1, SqlOutcome(SqlRegister(s, r, now)).1)
  {
    hide Sim, FreshCall, LookupById, ReadById, DeriveChild, ReadOrRaise, Touched, Insert, SqlInsert, Bare;
    if r.parentAgentId.None? {
      InsertSim(m, s, r, now);
    } else {
      RegisterChildSim(m, s, r, r.parentAgentId.value, now);
    }
  }

  lemma SameSymmetric(a: AgentRecord, b: AgentRecord)
    requires SameButTrust(a, b)
    ensures SameButTrust(b, a)
  {
    hide Bare;
  }

  lemma ChildKeepsName(parent: AgentRecord, r: AgentRecord, maxDepth: int)
    requires DeriveChild(parent, r, maxDepth).Ok?
    ensures var c := DeriveChild(parent, r, maxDepth).value; c.name == r.name && c.agentId == r.agentId
  {
    hide Pairs, TierFor;
  }

  lemma FreshChild(m: Memory, r: AgentRecord, child: AgentRecord)
    requires FreshCall(m, OpRegister(r)) && child.name == r.name && child.agentId == r.agentId
    ensures FreshCall(m, OpRegister(child))
  {
  }

  /** Editing a record, touching and syncing it in memory; editing what was read, saving it and reading back. */
  lemma EditSim(m: Memory, s: Sql, edited: AgentRecord, saved: AgentRecord, now: real)
    requires Sim(m, s) && edited.name in m.agents && SameButTrust(saved, edited)
    requires edited.agentId == m.agents[edited.name].agentId && edited.createdAt == m.agents[edited.name].createdAt
    ensures var r := SyncTrust(m.scorers, Touched(edited, now), now);
            && SaveAndRead(s, saved, now).1 == Ok(r)
            && Sim(m.(agents := m.agents[edited.name := r]), SaveAndRead(s, saved, now).0)
    ensures var r := Touched(edited, now);
            && SameButTrust(r, SaveAndRead(s, saved, now).1.value)
            && Sim(m.(agents := m.agents[edited.name := r]), SaveAndRead(s, saved, now).0)
  {
    assert edited.name in m.scorers;
    var r, st := Touched(edited, now), m.scorers[edited.name];
    SyncedSame(r, st, now);
    assert saved.name == edited.name;
    assert Synced(Synced(r, st, now), st, now) == Synced(r, st, now);
    hide Reading, TierFor, Sim, Save, ReadOrRaise, Put;
    WriteSim(m, s, r, saved, now);
    WriteSim(m, s, Synced(r, st, now), saved, now);
  }

  /** What a read and the record in memory have in common. */
  lemma ReadFacts(m: Memory, s: Sql, n: string, now: real)
    requires Sim(m, s)
    ensures Read(s, n, now).Some? <==> n in m.agents
    ensures n in m.agents ==>
              var r, read := m.agents[n], Read(s, n, now).value;
              && SameButTrust(read, r) && r.name == n && read.name == n
              && read.parentAgentId == r.parentAgentId && read.grants == r.grants && read.agentId == r.agentId
              && read.createdAt == r.createdAt
  {
    ReadAgrees(m, s, n, now);
    hide Read, Synced, RowAgrees;
  }

  lemma RemoveGrantSim(m: Memory, s: Sql, name: string, grantId: string, now: real)
    requires Sim(m, s)
    ensures Sim(RemoveGrant(m, name, grantId, now).0, SqlRemoveGrant(s, name, grantId, now).0)
    ensures RemoveGrant(m, name, grantId, now).1 == SqlRemoveGrant(s, name, grantId, now).1
  {
    hide Sim, Read, SaveAndRead, SyncTrust, Touched, Synced, Reading, TierFor, GrantIndex, Lookup;
    ReadFacts(m, s, name, now);
    if name in m.agents {
      var r, read := m.agents[name], Read(s, name, now).value;
      var i := GrantIndex(r.grants, grantId);
      if i < |r.grants| {
        var grants := Remaining(r.grants, grantId);
        RegrantSim(m, s, name, read, grants, now);
      }
    }
  }

  lemma StatusSim(m: Memory, s: Sql, name: string, status: AgentStatus, now: real)
    requires Sim(m, s)
    ensures Sim(UpdateStatus(m, name, status, now).0, SqlStatus(s, name, status, now).0)
    ensures UpdateStatus(m, name, status, now).1 == SqlStatus(s, name, status, now).1
  {
    hide Sim, Read, SaveAndRead, SyncTrust, Touched, Synced, Reading, TierFor, GrantIndex, Lookup;
    ReadFacts(m, s, name, now);
    if name in m.agents {
      EditSim(m, s, m.agents[name].(status := status), Read(s, name, now).value.(status := status), now);
    }
  }

  lemma IdentitySim(m: Memory, s: Sql, name: string, k: string, a: string, now: real)
    requires Sim(m, s)
    ensures Sim(UpdateIdentity(m, name, k, a, now).0, SqlIdentity(s, name, k, a, now).0)
    ensures SameAnswer(OpIdentity(name, k, a), FromAnswer(UpdateIdentity(m, name, k, a, now)).1,
                       SqlOutcome(SqlIdentity(s, name, k, a, now)).1)
  {
    hide Sim, Read, SaveAndRead, SyncTrust, Touched, Synced, Reading, TierFor, GrantIndex, Lookup;
    ReadFacts(m, s, name, now);
    if name in m.agents {
      EditSim(m, s, m.agents[name].(publicKey := k, publicKeyAlgorithm := a),
              Read(s, name, now).value.(publicKey := k, publicKeyAlgorithm := a), now);
    }
  }

  lemma RegrantSim(m: Memory, s: Sql, name: string, read: AgentRecord, grants: seq<Grant>, now: real)
    requires Sim(m, s) && name in m.agents && SameButTrust(read, m.agents[name])
    ensures var r := SyncTrust(m.scorers, Touched(m.agents[name].(grants := grants), now), now);
            && Sim(m.(agents := m.agents[name := r]), SaveAndRead(s, read.(grants := grants), now).0)
            && SaveAndRead(s, read.(grants := grants), now).1 == Ok(r)
  {
    var r := m.agents[name];
    assert r.name == name;
    EditSim(m, s, r.(grants := grants), read.(grants := grants), now);
    hide Sim, SaveAndRead, Touched, Synced;
  }

  lemma AppendGrantSim(m: Memory, s: Sql, name: string, grant: Grant, read: AgentRecord, now: real)
    requires Sim(m, s) && name in m.agents && SameButTrust(read, m.agents[name])
    ensures var saved := read.(grants := read.grants + [grant]);
            && Sim(AppendGrant(m, name, grant, now).0, SaveAndRead(s, saved, now).0)
            && AppendGrant(m, name, grant, now).1 == SaveAndRead(s, saved, now).1
  {
    assert m.agents[name].name == name;
    assert read.grants == m.agents[name].grants;
    hide Sim, SaveAndRead, SyncTrust, Touched, Synced;
    RegrantSim(m, s, name, read, m.agents[name].grants + [grant], now);
  }

  lemma AddGrantSim(m: Memory, s: Sql, name: string, grant: Grant, now: real)
    requires Sim(m, s)
    ensures Sim(AddGrant(m, name, grant, now).0, SqlAddGrant(s, name, grant, now).0)
    ensures AddGrant(m, name, grant, now).1 == SqlAddGrant(s, name, grant, now).1
  {
    hide Sim, Read, SaveAndRead, AppendGrant, LookupById, ReadById, ValidateNarrowing, SameButTrust;
    ReadFacts(m, s, name, now);
    if name in m.agents && m.agents[name].parentAgentId.None? {
      AppendGrantSim(m, s, name, grant, Read(s, name, now).value, now);
    } else if name in m.agents {
      var pid := m.agents[name].parentAgentId.value;
      ReadByIdAgrees(m, s, pid, now);
      LookupByIdSim(m, s, pid, now);
      var m1 := LookupById(m, pid, now).0;
      ReadFacts(m1, s, name, now);
      AppendGrantSim(m1, s, name, grant, Read(s, name, now).value, now);
    }
  }

  lemma RescoredSim(m: Memory, s: Sql, name: string, event: TrustEvent, after: LinearState, now: real)
    requires Sim(m, s) && name in m.agents
    ensures var read := Read(s, name, now).value;
            && Read(s, name, now).Some?
            && ScorerFor(s, read, now) == m.scorers[name]
            && Sim(Rescored(m, name, event, after, now).0, SqlRescored(s, read, event, after, now).0)
            && Rescored(m, name, event, after, now).1 == SqlRescored(s, read, event, after, now).1
  {
    ReadAgrees(m, s, name, now);
    var r, read := m.agents[name], Read(s, name, now).value;
    assert r.name == name && name in m.scorers && m.scorers == s.scorers && m.log == s.events;
    var entry := Rescored(m, name, event, after, now).0.log[|m.log|..];
    var m1, s1 := m.(scorers := m.scorers[name := after]), s.(scorers := s.scorers[name := after]);
    ScorersSim(m, s, m.scorers[name := after], m.log);
    SyncedSame(r, after, now);
    SyncedSame(read, after, now);
    hide Sim, Read, SyncTrust, Reading, TierFor;
    assert m.(scorers := m.scorers[name := after], log := m.log) == m1;
    assert s.(scorers := m.scorers[name := after], events := m.log) == s1;
    WriteSim(m1, s1, Touched(Synced(r, after, now), now), Synced(read, after, now), now);
    RescoredTail(m, s, name, event, after, read, now);
  }

  /** The log entry appended last is the same on both sides and no reading depends on it. */
  lemma RescoredTail(m: Memory, s: Sql, name: string, event: TrustEvent, after: LinearState, read: AgentRecord, now: real)
    requires name in m.agents && name in m.scorers && m.scorers == s.scorers && m.log == s.events
    requires read.name == name && read.agentId == m.agents[name].agentId && m.agents[name].name == name
    requires var r := Touched(Synced(m.agents[name], after, now), now);
             var s1 := Save(s.(scorers := s.scorers[name := after]), Synced(read, after, now), now);
             && Sim(Put(m.(scorers := m.scorers[name := after]), r), s1)
             && ReadOrRaise(s1, name, now) == Ok(Synced(r, after, now))
    ensures Sim(Rescored(m, name, event, after, now).0, SqlRescored(s, read, event, after, now).0)
    ensures Rescored(m, name, event, after, now).1 == SqlRescored(s, read, event, after, now).1
  {
    var r := Touched(Synced(m.agents[name], after, now), now);
    var m1 := Put(m.(scorers := m.scorers[name := after]), r);
    var s1 := Save(s.(scorers := s.scorers[name := after]), Synced(read, after, now), now);
    hide Reading, TierFor, RowToRecord, RecordToRow, Sim;
    ScorersSim(m1, s1, m1.scorers, Rescored(m, name, event, after, now).0.log);
  }

  /** Dropping an agent keeps the registry well formed and its ids unique. */
  lemma DropWellFormed(m: Memory, name: string)
    requires WellFormed(m) && UniqueIds(m) && name in m.agents
    ensures WellFormed(Deregister(m, name).0) && UniqueIds(Deregister(m, name).0)
  {
    WithoutIs(m.order, name);
    hide Without;
  }

  lemma DropSim(m: Memory, s: Sql, name: string)
    requires Sim(m, s) && name in m.agents
    ensures Sim(Deregister(m, name).0, s.(rows := s.rows - {name}, scorers := s.scorers - {name}))
  {
    DropWellFormed(m, name);
    hide RowAgrees, Without, WellFormed, UniqueIds;
  }

  lemma DeregisterSim(m: Memory, s: Sql, name: string, now: real)
    requires Sim(m, s)
    ensures Sim(Deregister(m, name).0, SqlDeregister(s, name, now).0)
    ensures Deregister(m, name).1 == SqlDeregister(s, name, now).1
  {
    hide Sim, Read, Without;
    ReadFacts(m, s, name, now);
    if name in m.agents {
      DropSim(m, s, name);
    }
  }

  // ---- Listings ----

  lemma SyncRowAgrees(r: AgentRecord, row: Row, st: LinearState, now: real)
    requires RowAgrees(r, row)
    ensures RowAgrees(r, SyncRow(row, st, now))
  {
    hide Reading, TierFor, DictsToGrants, StatusName, StatusNamed;
    NamesRoundTrip(TierFor(Reading(st, now)), Registered);
    hide TierName, TierNamed;
  }

  lemma PreparedSim(m: Memory, s: Sql, f: Filter, now: real)
    requires Sim(m, s)
    ensures Sim(m, ListPrepared(s, f, now))
  {
    hide SyncRow, RowAgrees, WellFormed, UniqueIds;
    SimParts(m, s);
    if f.tier.Some? {
      forall n | n in m.agents ensures RowAgrees(m.agents[n], SyncRow(s.rows[n], s.scorers[n], now)) {
        SyncRowAgrees(m.agents[n], s.rows[n], s.scorers[n], now);
      }
    }
  }

  lemma SyncAllSim(m: Memory, s: Sql, now: real)
    requires Sim(m, s)
    ensures Sim(SyncAll(m, now), s)
  {
    SyncAllWellFormed(m, now);
    forall n | n in m.agents
      ensures var r := Synced(m.agents[n], m.scorers[n], now);
              SyncTrust(m.scorers, m.agents[n], now) == r && RowAgrees(r, s.rows[n]) && r.agentId == m.agents[n].agentId
    {
      SyncedSame(m.agents[n], m.scorers[n], now);
      AgreesStill(m.agents[n], Synced(m.agents[n], m.scorers[n], now), s.rows[n]);
    }
    hide RowAgrees, Synced, SyncTrust;
  }

  lemma StatusNamesDiffer(a: AgentStatus, b: AgentStatus, t: TrustTier, u: TrustTier)
    ensures StatusName(a) == StatusName(b) <==> a == b
    ensures TierName(t) == TierName(u) <==> t == u
  {
    NamesRoundTrip(t, a);
    NamesRoundTrip(u, b);
  }

  lemma DecodedNames(row: Row)
    requires RowToRecord(row).Some?
    ensures var r := RowToRecord(row).value;
            row.status == StatusName(r.status) && row.trustTier == TierName(r.trustTier) && row.owner == r.owner
  {
    hide DictsToGrants;
  }

  /** The columns of a row match a filter exactly when the synced record does. */
  lemma RowMatchesIff(r: AgentRecord, row: Row, f: Filter)
    requires RowAgrees(r, row)
    requires f.tier.Some? ==> row.trustTier == TierName(r.trustTier)
    ensures RowMatches(f, row) <==> Matches(f, r)
  {
    DecodedNames(row);
    if f.status.Some? { StatusNamesDiffer(r.status, f.status.value, Trusted, Trusted); }
    if f.tier.Some? { StatusNamesDiffer(Registered, Registered, r.trustTier, f.tier.value); }
    hide StatusName, TierName, RowToRecord;
  }

  lemma ListSim(m: Memory, s: Sql, f: Filter, now: real)
    requires Sim(m, s)
    ensures Sim(ListAgents(m, f, now).0, SqlList(s, f, now).0)
    ensures (set r | r in ListAgents(m, f, now).1) == SqlList(s, f, now).1
  {
    var m1, s1 := SyncAll(m, now), ListPrepared(s, f, now);
    PreparedSim(m, s, f, now);
    SyncAllSim(m, s1, now);
    SelectIs(m1.order, m1.agents, f);
    hide Select, ListPrepared, SyncAll, SyncTrust;
    forall n | n in m1.agents
      ensures Read(s1, n, now) == Some(m1.agents[n])
      ensures RowMatches(f, s1.rows[n]) <==> Matches(f, m1.agents[n])
    {
      ListedAlike(m, s, f, n, now);
    }
    ListedSets(m1, s1, f, now);
  }

  lemma ListedAlike(m: Memory, s: Sql, f: Filter, n: string, now: real)
    requires Sim(m, s) && n in m.agents
    ensures var m1, s1 := SyncAll(m, now), ListPrepared(s, f, now);
            && n in m1.agents && n in s1.rows
            && Read(s1, n, now) == Some(m1.agents[n])
            && (RowMatches(f, s1.rows[n]) <==> Matches(f, m1.agents[n]))
  {
    var m1, s1 := SyncAll(m, now), ListPrepared(s, f, now);
    PreparedSim(m, s, f, now);
    SyncAllSim(m, s1, now);
    ReadAgrees(m, s1, n, now);
    assert n in m.order && m.agents[n].name == n;
    assert m1.agents[n] == Synced(m.agents[n], m.scorers[n], now);
    hide RowAgrees, Read, RowMatches, Matches, Reading, TierFor;
    RowMatchesIff(m1.agents[n], s1.rows[n], f);
  }

  lemma ListedSets(m1: Memory, s1: Sql, f: Filter, now: real)
    requires s1.rows.Keys == m1.agents.Keys && forall n :: n in m1.order <==> n in m1.agents
    requires forall n :: n in m1.agents ==>
               Read(s1, n, now) == Some(m1.agents[n]) && (RowMatches(f, s1.rows[n]) <==> Matches(f, m1.agents[n]))
    requires forall r :: r in Select(m1.order, m1.agents, f) <==> Selected(m1.order, m1.agents, f, r)
    ensures (set r | r in Select(m1.order, m1.agents, f)) == SqlListed(s1, f, {}, now)
  {
    hide Select, Read, RowMatches, Matches;
    forall r
      ensures Selected(m1.order, m1.agents, f, r) <==> r in SqlListed(s1, f, {}, now)
    {
      if Selected(m1.order, m1.agents, f, r) {
        var n :| n in m1.order && n in m1.agents && Matches(f, m1.agents[n]) && m1.agents[n] == r;
        assert Read(s1, n, now).value == r;
      }
    }
  }

  // ---- Every call, and every run ----

  lemma StepSim(m: Memory, s: Sql, op: Op, now: real)
    requires Sim(m, s) && FreshCall(m, op)
    ensures Sim(Step(m, op, now).0, SqlStep(s, op, now).0)
    ensures SameAnswer(op, Step(m, op, now).1, SqlStep(s, op, now).1)
  {
    hide Sim, Register, SqlRegister, AddGrant, SqlAddGrant, RemoveGrant, SqlRemoveGrant, UpdateStatus, SqlStatus,
         UpdateIdentity, SqlIdentity, Lookup, LookupById, Read, ReadById, ListAgents, SqlList, Rescored, SqlRescored,
         Deregister, SqlDeregister, Pairs, AfterEvent, AfterSet, ScorerFor, Bare;
    match op
    case OpRegister(r) => RegisterSim(m, s, r, now);
    case OpDeregister(n) => DeregisterSim(m, s, n, now);
    case OpLookup(n) => ReadAgrees(m, s, n, now); LookupSim(m, s, n, now);
    case OpLookupById(id) => ReadByIdAgrees(m, s, id, now); LookupByIdSim(m, s, id, now);
    case OpList(f) => ListSim(m, s, f, now);
    case OpAddGrant(n, g) => AddGrantSim(m, s, n, g, now);
    case OpRemoveGrant(n, g) => RemoveGrantSim(m, s, n, g, now);
    case OpHasGrant(n, r, a) => ReadFacts(m, s, n, now);
    case OpTrustEvent(n, e) => TrustEventSim(m, s, n, e, now);
    case OpSetTrust(n, v) => SetTrustSim(m, s, n, v, now);
    case OpStatus(n, st) => StatusSim(m, s, n, st, now);
    case OpIdentity(n, k, a) => IdentitySim(m, s, n, k, a, now);
  }

  lemma TrustEventSim(m: Memory, s: Sql, n: string, e: TrustEvent, now: real)
    requires Sim(m, s)
    ensures Sim(RecordTrustEvent(m, n, e, now).0, SqlTrustEvent(s, n, e, now).0)
    ensures RecordTrustEvent(m, n, e, now).1 == SqlTrustEvent(s, n, e, now).1
  {
    assert n in m.agents ==> n in m.scorers;
    ReadFacts(m, s, n, now);
    hide Sim, Read, Rescored, SqlRescored, AfterEvent, ScorerFor, SameButTrust;
    if n in m.agents {
      RescoredSim(m, s, n, e, AfterEvent(m.scorers[n], e, now), now);
    }
  }

  lemma SetTrustSim(m: Memory, s: Sql, n: string, v: real, now: real)
    requires Sim(m, s)
    ensures Sim(SetTrust(m, n, v, now).0, SqlSetTrust(s, n, v, now).0)
    ensures SetTrust(m, n, v, now).1 == SqlSetTrust(s, n, v, now).1
  {
    assert n in m.agents ==> n in m.scorers;
    ReadFacts(m, s, n, now);
    hide Sim, Read, Rescored, SqlRescored, AfterSet, ScorerFor, SameButTrust;
    if n in m.agents {
      RescoredSim(m, s, n, HumanOverride, AfterSet(m.scorers[n], v, now), now);
    }
  }

  /** The states both backends go through on the same calls. */
  ghost function MemoryAfter(m: Memory, ops: seq<(Op, real)>): Memory {
    if ops == [] then m
    else var before := MemoryAfter(m, ops[..|ops| - 1]); Step(before, ops[|ops| - 1].0, ops[|ops| - 1].1).0
  }

  ghost function SqlAfter(s: Sql, ops: seq<(Op, real)>): Sql {
    if ops == [] then s
    else var before := SqlAfter(s, ops[..|ops| - 1]); SqlStep(before, ops[|ops| - 1].0, ops[|ops| - 1].1).0
  }

  /** No call of the run registers a name or an id that is registered when it is made. */
  ghost predicate FreshRun(m: Memory, ops: seq<(Op, real)>) {
    forall i :: 0 <= i < |ops| ==> FreshCall(MemoryAfter(m, ops[..i]), ops[i].0)
  }

  lemma {:induction false} RunSim(m: Memory, s: Sql, ops: seq<(Op, real)>)
    requires Sim(m, s) && FreshRun(m, ops)
    ensures Sim(MemoryAfter(m, ops), SqlAfter(s, ops))
  {
    hide Sim, Step, SqlStep, FreshCall;
    if ops != [] {
      var n := |ops| - 1;
      var before := ops[..n];
      forall i | 0 <= i < n ensures FreshCall(MemoryAfter(m, before[..i]), before[i].0) {
        assert before[..i] == ops[..i];
      }
      RunSim(m, s, before);
      StepSim(MemoryAfter(m, before), SqlAfter(s, before), ops[n].0, ops[n].1);
    }
  }

  /** From empty registries, every call of a fresh run raises in both backends or in neither, and answers alike. */
  lemma BackendsAnswerAlike(maxDepth: int, ops: seq<(Op, real)>, i: nat)
    requires i < |ops| && FreshRun(EmptyMemory(maxDepth), ops)
    ensures var m, s := MemoryAfter(EmptyMemory(maxDepth), ops[..i]), SqlAfter(EmptySql(maxDepth), ops[..i]);
            SameAnswer(ops[i].0, Step(m, ops[i].0, ops[i].1).1, SqlStep(s, ops[i].0, ops[i].1).1)
  {
    var e := EmptyMemory(maxDepth);
    assert Sim(e, EmptySql(maxDepth));
    hide Sim, Step, SqlStep, FreshCall;
    assert FreshRun(e, ops[..i]) by {
      forall k | 0 <= k < i ensures FreshCall(MemoryAfter(e, ops[..i][..k]), ops[..i][k].0) {
        assert ops[..i][..k] == ops[..k];
      }
    }
    RunSim(e, EmptySql(maxDepth), ops[..i]);
    StepSim(MemoryAfter(e, ops[..i]), SqlAfter(EmptySql(maxDepth), ops[..i]), ops[i].0, ops[i].1);
  }

  // ---- Where the backends part ----

  /** No other registered agent has the record's id. */
  ghost predicate IdFree(m: Memory, r: AgentRecord) {
    forall n :: n in m.agents && n != r.name ==> m.agents[n].agentId != r.agentId
  }

  /** The name is new, or its scorer is what a new scorer for the record would be. */
  predicate ScorerAsNew(m: Memory, r: AgentRecord, now: real) {
    r.name in m.scorers ==>
      m.scorers[r.name] == Initial(r.trustValue, DEFAULT_DECAY_RATE, r.trustCeiling, now)
  }

  /** One record replaced by another of the same name, whose id nobody else has. */
  lemma UpsertSim(m: Memory, s: Sql, r: AgentRecord, row: Row)
    requires Sim(m, s) && r.name in m.agents && IdFree(m, r) && RowAgrees(r, row)
    ensures Sim(Put(m, r), s.(rows := s.rows[r.name := row]))
  {
    hide RowAgrees;
  }

  lemma InsertKeepsSim(m: Memory, s: Sql, r: AgentRecord, now: real)
    requires Sim(m, s) && IdFree(m, r) && ScorerAsNew(m, r, now)
    ensures Sim(Insert(m, r, now), SqlInsert(s, r, now))
  {
    hide Sim, RowAgrees, RecordToRow, RowToRecord, Initial, InsertOrReplace, IdFree;
    SimParts(m, s);
    if r.name in m.agents {
      var stored, row := Touched(r, now), RecordToRow(Touched(r, now));
      FreshRow(m, s, r, now);
      assert Insert(m, r, now).scorers == m.scorers;
      assert Insert(m, r, now) == Put(m, stored);
      IdFreeTouched(m, r, now);
      UpsertSim(m, s, stored, row);
    } else {
      FreshIfNew(m, r);
      InsertSim(m, s, r, now);
    }
  }

  lemma FreshIfNew(m: Memory, r: AgentRecord)
    requires r.name !in m.agents && IdFree(m, r)
    ensures FreshCall(m, OpRegister(r))
  {
  }

  lemma IdFreeTouched(m: Memory, r: AgentRecord, now: real)
    requires IdFree(m, r)
    ensures IdFree(m, Touched(r, now))
  {
  }

  /** The row inserted for a record whose id is free: it agrees with the record and displaces no other row. */
  lemma FreshRow(m: Memory, s: Sql, r: AgentRecord, now: real)
    requires Sim(m, s) && IdFree(m, r)
    ensures var row := RecordToRow(Touched(r, now));
            RowAgrees(Touched(r, now), row) && row.name == r.name
            && InsertOrReplace(s.rows, row) == s.rows[r.name := row]
  {
    var stored, row := Touched(r, now), RecordToRow(Touched(r, now));
    RowRoundTrip(stored);
    RowColumns(stored);
    forall n | n in s.rows && n != r.name ensures s.rows[n].agentId != row.agentId {
      assert RowAgrees(m.agents[n], s.rows[n]);
    }
    InsertRows(s.rows, row);
    hide RecordToRow, RowToRecord, InsertOrReplace, WellFormed, UniqueIds;
  }

  lemma InsertRows(rows: map<string, Row>, row: Row)
    requires forall n :: n in rows && n != row.name ==> rows[n].agentId != row.agentId
    ensures InsertOrReplace(rows, row) == rows[row.name := row]
  {
  }

  lemma SimParts(m: Memory, s: Sql)
    requires Sim(m, s)
    ensures m.scorers.Keys == m.agents.Keys && s.scorers == m.scorers && s.rows.Keys == m.agents.Keys
  {
    hide RowAgrees;
  }

  lemma InsertNeeds(m: Memory, s: Sql, r: AgentRecord, now: real)
    requires Sim(m, s) && Sim(Insert(m, r, now), SqlInsert(s, r, now))
    ensures IdFree(m, r) && ScorerAsNew(m, r, now)
  {
    hide RowAgrees, WellFormed, RecordToRow, Initial, InsertOrReplace;
    var m1 := Insert(m, r, now);
    forall n | n in m.agents && n != r.name ensures m.agents[n].agentId != r.agentId {
      assert m1.agents[n].agentId != m1.agents[r.name].agentId;
    }
  }

  lemma SyncedIds(m: Memory, r: AgentRecord, pid: string, now: real)
    requires WellFormed(m)
    ensures var m1 := LookupById(m, pid, now).0;
            && m1.scorers == m.scorers && (IdFree(m1, r) <==> IdFree(m, r))
  {
    hide Reading, TierFor;
    FirstWithIdFound(m.order, m.agents, pid);
    LookupByIdWellFormed(m, pid, now);
    forall n | n in m.agents ensures LookupById(m, pid, now).0.agents[n].agentId == m.agents[n].agentId {}
    hide LookupById, WellFormed;
  }

  /** A successful registration leaves the two backends related exactly when no other agent holds its id and the name
      is new or its scorer is already as new: SQLite keeps that scorer, and drops the row that holds the id. */
  lemma RegisterKeepsSimIff(m: Memory, s: Sql, r: AgentRecord, now: real)
    requires Sim(m, s) && Register(m, r, now).1.Ok?
    ensures Sim(Register(m, r, now).0, SqlRegister(s, r, now).0)
       <==> IdFree(m, r) && ScorerAsNew(m, Register(m, r, now).1.value, now)
  {
    SimDepth(m, s);
    SimWellFormed(m, s);
    hide Sim, LookupById, ReadById, DeriveChild, ReadOrRaise, Insert, SqlInsert, Initial, WellFormed, SameButTrust;
    var m1, stored := m, r;
    if r.parentAgentId.Some? {
      var pid := r.parentAgentId.value;
      ReadByIdAgrees(m, s, pid, now);
      LookupByIdSim(m, s, pid, now);
      SyncedIds(m, r, pid, now);
      m1 := LookupById(m, pid, now).0;
      stored := DeriveChild(LookupById(m, pid, now).1.value, r, m.maxDepth).value;
      ChildKeepsName(LookupById(m, pid, now).1.value, r, m.maxDepth);
    }
    if IdFree(m1, stored) && ScorerAsNew(m1, stored, now) {
      InsertKeepsSim(m1, s, stored, now);
    }
    if Sim(Insert(m1, stored, now), SqlInsert(s, stored, now)) {
      InsertNeeds(m1, s, stored, now);
    }
  }

  lemma SimWellFormed(m: Memory, s: Sql)
    requires Sim(m, s)
    ensures WellFormed(m)
  {
  }

  /** A value a new scorer reads back unchanged: in [0, 1] and within the ceiling, or a negative ceiling itself. */
  predicate Settled(value: real, ceiling: Option<real>) {
    || (0.0 <= value <= 1.0 && (ceiling.Some? ==> value <= ceiling.value))
    || (value < 0.0 && ceiling == Some(value))
  }

  /** The answers to a root's registration are equal exactly when its value is one a new scorer reads back,
      and is filed under its own tier. */
  lemma RegisterAnswersEqualIff(m: Memory, s: Sql, r: AgentRecord, now: real)
    requires Sim(m, s) && FreshCall(m, OpRegister(r)) && r.parentAgentId.None?
    ensures Register(m, r, now).1.Ok? && SqlRegister(s, r, now).1.Ok?
    ensures Register(m, r, now).1 == SqlRegister(s, r, now).1
       <==> Settled(r.trustValue, r.trustCeiling) && r.trustTier == TierFor(r.trustValue)
  {
    InsertSim(m, s, r, now);
    FreshReading(r, now);
    hide Sim, Initial, Reading, TierFor, Insert, SqlInsert, ReadOrRaise, FreshCall;
  }

  lemma FreshReading(r: AgentRecord, now: real)
    ensures var v := Reading(Initial(r.trustValue, DEFAULT_DECAY_RATE, r.trustCeiling, now), now);
            v == r.trustValue
            <==> Settled(r.trustValue, r.trustCeiling)
  {
  }

  /** The answers to a child's registration are equal when it fails, and when it succeeds exactly when its value, cut
      to the ceiling its parent leaves it, is in [0, 1]. */
  lemma ChildAnswersEqualIff(m: Memory, s: Sql, r: AgentRecord, pid: string, now: real)
    requires Sim(m, s) && FreshCall(m, OpRegister(r)) && r.parentAgentId == Some(pid)
    ensures Register(m, r, now).1.Ok? ==> LookupById(m, pid, now).1.Some?
    ensures Register(m, r, now).1 == SqlRegister(s, r, now).1
       <==> (Register(m, r, now).1.Ok? ==>
               0.0 <= r.trustValue
               && Min(r.trustValue, ChildCeiling(LookupById(m, pid, now).1.value, r.trustCeiling)) <= 1.0)
  {
    hide Sim, FreshCall, LookupById, ReadById, DeriveChild, ReadOrRaise, Touched, Insert, SqlInsert, SameButTrust, Synced,
         Initial;
    ReadByIdAgrees(m, s, pid, now);
    LookupByIdSim(m, s, pid, now);
    RegisterChildSim(m, s, r, pid, now);
    SimDepth(m, s);
    var (m1, parent) := LookupById(m, pid, now);
    if parent.Some? && DeriveChild(parent.value, r, m.maxDepth).Ok? {
      var child := DeriveChild(parent.value, r, m.maxDepth).value;
      ChildKeepsName(parent.value, r, m.maxDepth);
      FreshChild(m1, r, child);
      InsertSim(m1, s, child, now);
      ChildReading(parent.value, r, m.maxDepth, now);
      SyncedEqualIff(child, Initial(child.trustValue, DEFAULT_DECAY_RATE, child.trustCeiling, now), now);
    }
  }

  lemma SimDepth(m: Memory, s: Sql)
    requires Sim(m, s)
    ensures s.maxDepth == m.maxDepth
  {
  }

  /** A fresh child reads back its stored value and tier exactly when that value is in [0, 1]. */
  lemma ChildReading(parent: AgentRecord, r: AgentRecord, maxDepth: int, now: real)
    requires DeriveChild(parent, r, maxDepth).Ok?
    ensures var child := DeriveChild(parent, r, maxDepth).value;
            var c := ChildCeiling(parent, r.trustCeiling);
            var v := Reading(Initial(child.trustValue, DEFAULT_DECAY_RATE, child.trustCeiling, now), now);
            v == child.trustValue && TierFor(v) == child.trustTier
            <==> 0.0 <= r.trustValue && Min(r.trustValue, c) <= 1.0
  {
    hide ValidateNarrowing, TierFor, Reading, Initial;
    var child := DeriveChild(parent, r, maxDepth).value;
    FreshReading(child, now);
  }

  lemma SyncedEqualIff(r: AgentRecord, st: LinearState, now: real)
    ensures Synced(Touched(r, now), st, now) == Touched(r, now)
       <==> Reading(st, now) == r.trustValue && TierFor(Reading(st, now)) == r.trustTier
  {
    hide Reading, TierFor;
  }

  /** The answers to `update_identity` are equal exactly when the agent is unknown or its stored trust fields are what
      its scorer reads now. */
  lemma IdentityAnswersEqualIff(m: Memory, s: Sql, name: string, k: string, a: string, now: real)
    requires Sim(m, s)
    ensures name in m.agents ==> name in m.scorers
    ensures UpdateIdentity(m, name, k, a, now).1 == SqlIdentity(s, name, k, a, now).1
       <==> (name in m.agents ==>
               m.agents[name].trustValue == Reading(m.scorers[name], now)
               && m.agents[name].trustTier == TierFor(Reading(m.scorers[name], now)))
  {
    ReadFacts(m, s, name, now);
    assert name in m.agents ==> name in m.scorers;
    hide Sim, Read, SaveAndRead, Touched, Synced, Reading, TierFor, SameButTrust;
    if name in m.agents {
      var edited := m.agents[name].(publicKey := k, publicKeyAlgorithm := a);
      SameEdited(Read(s, name, now).value, m.agents[name], k, a);
      EditSim(m, s, edited, Read(s, name, now).value.(publicKey := k, publicKeyAlgorithm := a), now);
      SyncedEqualIff(edited, m.scorers[name], now);
      TouchedName(edited, now);
    }
  }

  lemma SameEdited(a: AgentRecord, b: AgentRecord, k: string, alg: string)
    requires SameButTrust(a, b)
    ensures SameButTrust(a.(publicKey := k, publicKeyAlgorithm := alg), b.(publicKey := k, publicKeyAlgorithm := alg))
  {
  }

  lemma TouchedName(r: AgentRecord, now: real)
    ensures Touched(r, now).name == r.name
  {
  }

  /** Registering a name again leaves SQLite with the scorer the name had, so the answer is within the new ceiling
      exactly when the old scorer has decayed to it or has a ceiling within it. */
  lemma ReRegisteredAnswerIff(s: Sql, r: AgentRecord, ceiling: real, now: real)
    requires r.name in s.scorers && Resolve(s, r, now).Ok?
    requires Resolve(s, r, now).value.trustCeiling == Some(ceiling) && Resolve(s, r, now).value.name == r.name
    ensures var (s1, answer) := SqlRegister(s, r, now);
            var kept := s.scorers[r.name];
            && s1.scorers == s.scorers
            && answer.Ok? && answer.value.trustCeiling == Some(ceiling)
            && (answer.value.trustValue <= ceiling
                <==> Decayed(kept, now) <= ceiling || (kept.ceiling.Some? && kept.ceiling.value <= ceiling))
  {
    RowRoundTrip(Touched(Resolve(s, r, now).value, now));
    RowColumns(Touched(Resolve(s, r, now).value, now));
    hide Decayed, TierFor, RecordToRow, RowToRecord, Resolve;
  }
}
