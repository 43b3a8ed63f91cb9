/** Trust ceilings in SqliteRegistry when a scorer is not the one its record was registered with: after a restart the
    scorer is rebuilt without a ceiling, and re-registration keeps the scorer the name had. */
module SqliteCeiling {
  import opened Common
  import opened Model
  import opened Lineage
  import opened LinearTrust
  import opened LinearTrustLaws
  import opened MemoryRegistry
  import opened SqliteRows
  import opened SqliteStore
  import opened BackendSimulation

  // ---- Runs that leave one agent registered ----

  /** A call that neither registers nor deregisters the agent's name or id; `overrides` admits `set_trust` on it. */
  predicate Spares(op: Op, name: string, id: string, overrides: bool) {
    match op
    case OpRegister(r) => r.name != name && r.agentId != id
    case OpDeregister(n) => n != name
    case OpSetTrust(n, _) => overrides || n != name
    case _ => true
  }

  /** A run of such calls between `from` and `at`, the clock never running backwards. */
  ghost predicate AgentRun(ops: seq<(Op, real)>, name: string, id: string, overrides: bool, from: real, at: real) {
    if ops == [] then from <= at
    else
      var n := |ops| - 1;
      && Spares(ops[n].0, name, id, overrides)
      && ops[n].1 <= at
      && AgentRun(ops[..n], name, id, overrides, from, ops[n].1)
  }

  /** A call that moves the agent's scorer. */
  predicate Moves(op: Op, name: string) {
    (op.OpTrustEvent? || op.OpSetTrust?) && op.name == name
  }

  /** The ceiling the agent's scorer has, or will be rebuilt with. */
  function ScorerCeiling(s: Sql, name: string): Option<real> {
    if name in s.scorers then s.scorers[name].ceiling else None
  }

  /** The highest value a scorer with this ceiling can read. */
  function Top(ceiling: Option<real>): real {
    Min(1.0, Cap(ceiling))
  }

  function RowValue(s: Sql, name: string): real
    requires name in s.rows && RowToRecord(s.rows[name]).Some?
  {
    RowToRecord(s.rows[name]).value.trustValue
  }

  /** The agent is stored, and its scorer, if there is one, is as every operation leaves it. */
  ghost predicate Sound(s: Sql, name: string, now: real) {
    && TableOk(s.rows) && name in s.rows
    && (name in s.scorers ==> Healthy(s.scorers[name], now))
  }

  /** Whatever else happens while the agent stays registered, every later lookup answers, with a value within the
      ceiling. */
  ghost predicate StaysWithin(s: Sql, name: string, ceiling: real, overrides: bool, from: real)
    requires name in s.rows
  {
    forall ops, at :: AgentRun(ops, name, s.rows[name].agentId, overrides, from, at) ==>
      var answer := Read(SqlAfter(s, ops), name, at);
      answer.Some? && answer.value.trustValue <= ceiling
  }

  /** The agent's row, ceiling and scorer are as they were, and without a scorer so is its value. */
  ghost predicate Spared(s: Sql, s1: Sql, name: string) {
    && name in s.rows && RowToRecord(s.rows[name]).Some?
    && TableOk(s1.rows) && name in s1.rows && s1.rows[name].agentId == s.rows[name].agentId
    && RowToRecord(s1.rows[name]).Some?
    && RowToRecord(s1.rows[name]).value.trustCeiling == RowToRecord(s.rows[name]).value.trustCeiling
    && (name in s.scorers <==> name in s1.scorers)
    && (if name in s.scorers then s1.scorers[name] == s.scorers[name] else RowValue(s1, name) == RowValue(s, name))
  }

  // ---- One call ----

  lemma EventHealthy(st: LinearState, e: TrustEvent, now: real, at: real)
    requires Healthy(st, now) && now <= at
    ensures Healthy(AfterEvent(st, e, at), at) && AfterEvent(st, e, at).ceiling == st.ceiling
  {
    ApplyHealthy(st, LinearTrustLaws.Event(e, at));
    hide AfterEvent;
  }

  /** The scorer that a trust call on the agent moves. */
  function Mover(s: Sql, name: string, now: real): LinearState
    requires name in s.rows && RowToRecord(s.rows[name]).Some?
  {
    if name in s.scorers then s.scorers[name] else Initial(RowValue(s, name), DEFAULT_DECAY_RATE, None, now)
  }

  lemma ReadIs(s: Sql, name: string, now: real)
    requires TableOk(s.rows) && name in s.rows
    ensures RowToRecord(s.rows[name]).Some? && Read(s, name, now).Some?
    ensures var r := Read(s, name, now).value;
            && r.name == name
            && r.trustValue == (if name in s.scorers then Reading(s.scorers[name], now) else RowValue(s, name))
            && r.trustCeiling == RowToRecord(s.rows[name]).value.trustCeiling
            && ScorerFor(s, r, now) == Mover(s, name, now)
  {
    assert RowOk(name, s.rows[name]);
    DecodedName(s.rows[name]);
    hide RowToRecord, Reading, TierFor, Initial;
  }

  lemma SpareTwice(s: Sql, s1: Sql, s2: Sql, name: string)
    requires Spared(s, s1, name) && Spared(s1, s2, name)
    ensures Spared(s, s2, name)
  {
    hide TableOk, RowToRecord;
  }

  lemma SaveSpares(s: Sql, r: AgentRecord, name: string, now: real)
    requires TableOk(s.rows) && name in s.rows && RowToRecord(s.rows[name]).Some?
    requires r.name == name ==>
               r.trustCeiling == RowToRecord(s.rows[name]).value.trustCeiling
               && (name !in s.scorers ==> r.trustValue == RowValue(s, name))
    ensures Spared(s, Save(s, r, now), name)
  {
    SaveTable(s, r, now);
    if r.name == name {
      UpdatedRow(s.rows[name], Touched(r, now));
    }
    hide TableOk, RowToRecord, RecordToRow, UpdateRow;
  }

  lemma ScorersSpare(s: Sql, scorers: map<string, LinearState>, name: string)
    requires TableOk(s.rows) && name in s.rows && RowToRecord(s.rows[name]).Some?
    requires (name in s.scorers <==> name in scorers) && (name in s.scorers ==> scorers[name] == s.scorers[name])
    ensures Spared(s, s.(scorers := scorers), name)
  {
    hide TableOk, RowToRecord;
  }

  /** Saving an edit of what was read changes neither trust nor ceiling of any agent. */
  lemma EditSpares(s: Sql, n: string, r: AgentRecord, name: string, now: real)
    requires TableOk(s.rows) && name in s.rows && Read(s, n, now).Some?
    requires var read := Read(s, n, now).value;
             r.name == read.name && r.trustCeiling == read.trustCeiling && r.trustValue == read.trustValue
    ensures Spared(s, Save(s, r, now), name)
  {
    ReadIs(s, name, now);
    ReadName(s, n, now);
    SaveSpares(s, r, name, now);
    hide Read, RowToRecord, TableOk, Reading;
  }

  lemma InsertSpares(s: Sql, r: AgentRecord, name: string, now: real)
    requires TableOk(s.rows) && name in s.rows && r.name != name && r.agentId != s.rows[name].agentId
    ensures Spared(s, SqlInsert(s, r, now), name)
  {
    assert RowOk(name, s.rows[name]);
    InsertTable(s.rows, Touched(r, now));
    RowColumns(Touched(r, now));
    hide TableOk, RowToRecord, RecordToRow, Initial;
  }

  lemma SyncSpares(s: Sql, name: string, now: real)
    requires TableOk(s.rows) && name in s.rows
    ensures Spared(s, SyncRows(s, now), name)
  {
    assert RowOk(name, s.rows[name]);
    SyncRowsTable(s, now);
    if name in s.scorers {
      SyncKeeps(s.rows[name], s.scorers[name], now);
    }
    hide TableOk, RowToRecord, SyncRow;
  }

  lemma SyncKeeps(row: Row, st: LinearState, now: real)
    requires RowToRecord(row).Some?
    ensures SyncRow(row, st, now).agentId == row.agentId && RowToRecord(SyncRow(row, st, now)).Some?
    ensures RowToRecord(SyncRow(row, st, now)).value.trustCeiling == RowToRecord(row).value.trustCeiling
  {
    DecodedName(row);
    SyncRowAgrees(RowToRecord(row).value, row, st, now);
    hide RowToRecord;
  }

  /** Another agent's rescoring. */
  lemma RescoredSpares(s: Sql, r: AgentRecord, event: TrustEvent, after: LinearState, name: string, now: real)
    requires TableOk(s.rows) && name in s.rows && r.name != name
    ensures Spared(s, SqlRescored(s, r, event, after, now).0, name)
  {
    assert RowOk(name, s.rows[name]);
    var s1 := s.(scorers := s.scorers[r.name := after]);
    ScorersSpare(s, s1.scorers, name);
    SaveSpares(s1, Synced(r, after, now), name, now);
    SpareTwice(s, s1, Save(s1, Synced(r, after, now), now), name);
    hide TableOk, RowToRecord, Save, Synced;
  }

  lemma DeleteSpares(s: Sql, n: string, name: string, now: real)
    requires TableOk(s.rows) && name in s.rows && n != name
    ensures Spared(s, SqlDeregister(s, n, now).0, name)
  {
    assert RowOk(name, s.rows[name]);
    TableDelete(s.rows, n);
    hide TableOk, RowToRecord, Read;
  }

  lemma SelfSpared(s: Sql, name: string)
    requires TableOk(s.rows) && name in s.rows
    ensures Spared(s, s, name)
  {
    assert RowOk(name, s.rows[name]);
    hide TableOk, RowToRecord;
  }

  lemma RegisterSpares(s: Sql, r: AgentRecord, name: string, now: real)
    requires TableOk(s.rows) && name in s.rows && r.name != name && r.agentId != s.rows[name].agentId
    ensures Spared(s, SqlRegister(s, r, now).0, name)
  {
    hide TableOk, SqlInsert, Spared, DeriveChild, ReadById, ReadOrRaise;
    SelfSpared(s, name);
    if Resolve(s, r, now).Ok? {
      if r.parentAgentId.Some? {
        ChildKeepsName(ReadById(s, r.parentAgentId.value, now).value, r, s.maxDepth);
      }
      InsertSpares(s, Resolve(s, r, now).value, name, now);
    }
  }

  /** A call that spares the agent and does not move its scorer. */
  lemma StepSpares(s: Sql, op: Op, name: string, now: real)
    requires TableOk(s.rows) && name in s.rows && Spares(op, name, s.rows[name].agentId, true) && !Moves(op, name)
    ensures Spared(s, SqlStep(s, op, now).0, name)
  {
    hide TableOk, Spared, Read, ReadById, SqlRegister, SqlDeregister, SqlRescored, GrantRefusal, Save, SyncRows, Remaining,
         AfterEvent, AfterSet, ScorerFor, SqlListed;
    SelfSpared(s, name);
    match op {
      case OpRegister(r) => RegisterSpares(s, r, name, now);
      case OpDeregister(n) => DeleteSpares(s, n, name, now);
      case OpList(_) => SyncSpares(s, name, now);
      case OpAddGrant(n, g) =>
        if Read(s, n, now).Some? {
          var r := Read(s, n, now).value;
          EditSpares(s, n, r.(grants := r.grants + [g]), name, now);
        }
      case OpRemoveGrant(n, id) =>
        if Read(s, n, now).Some? {
          var r := Read(s, n, now).value;
          EditSpares(s, n, r.(grants := Remaining(r.grants, id)), name, now);
        }
      case OpStatus(n, st) =>
        if Read(s, n, now).Some? {
          EditSpares(s, n, Read(s, n, now).value.(status := st), name, now);
        }
      case OpIdentity(n, k, a) =>
        if Read(s, n, now).Some? {
          EditSpares(s, n, Read(s, n, now).value.(publicKey := k, publicKeyAlgorithm := a), name, now);
        }
      case OpTrustEvent(n, e) =>
        if Read(s, n, now).Some? {
          var r := Read(s, n, now).value;
          ReadName(s, n, now);
          RescoredSpares(s, r, e, AfterEvent(ScorerFor(s, r, now), e, now), name, now);
        }
      case OpSetTrust(n, v) =>
        if Read(s, n, now).Some? {
          var r := Read(s, n, now).value;
          ReadName(s, n, now);
          RescoredSpares(s, r, HumanOverride, AfterSet(ScorerFor(s, r, now), v, now), name, now);
        }
      case _ =>
    }
  }

  /** A rescoring leaves a sound table, the new scorer, and the record's id and ceiling as they were. */
  lemma RescoredIs(s: Sql, name: string, event: TrustEvent, after: LinearState, now: real)
    requires TableOk(s.rows) && name in s.rows
    ensures Read(s, name, now).Some?
    ensures var s1 := SqlRescored(s, Read(s, name, now).value, event, after, now).0;
            && TableOk(s1.rows) && name in s1.rows
            && s1.rows[name].agentId == s.rows[name].agentId
            && s1.scorers == s.scorers[name := after]
            && RowToRecord(s1.rows[name]).Some?
            && RowToRecord(s1.rows[name]).value.trustCeiling == RowToRecord(s.rows[name]).value.trustCeiling
  {
    ReadIs(s, name, now);
    var r := Read(s, name, now).value;
    var saved := Synced(r, after, now);
    SaveTable(s.(scorers := s.scorers[name := after]), saved, now);
    UpdatedRow(s.rows[name], Touched(saved, now));
    hide TableOk, Read, RowToRecord, RecordToRow, UpdateRow, Reading, TierFor, ReadOrRaise;
  }

  /** What a trust call on the agent leaves: its scorer moved, its id and ceiling as they were. */
  lemma StepIs(s: Sql, op: Op, name: string, now: real, at: real)
    requires Sound(s, name, now) && now <= at && Moves(op, name)
    ensures var s1 := SqlStep(s, op, at).0;
            && Sound(s1, name, at) && name in s1.scorers
            && ScorerCeiling(s1, name) == ScorerCeiling(s, name)
            && s1.rows[name].agentId == s.rows[name].agentId
            && RowToRecord(s1.rows[name]).Some?
            && RowToRecord(s1.rows[name]).value.trustCeiling == RowToRecord(s.rows[name]).value.trustCeiling
            && match op
               case OpTrustEvent(_, e) => s1.scorers == s.scorers[name := AfterEvent(Mover(s, name, at), e, at)]
               case OpSetTrust(_, v) => s1.scorers == s.scorers[name := AfterSet(Mover(s, name, at), v, at)]
  {
    hide TableOk, Read, RowToRecord, SqlRescored, AfterEvent, AfterSet, Reading, Mover, ScorerFor, Healthy;
    ReadIs(s, name, at);
    MoverHealthy(s, name, now, at);
    var mover := Mover(s, name, at);
    match op {
      case OpTrustEvent(_, e) =>
        EventHealthy(mover, e, at, at);
        RescoredIs(s, name, e, AfterEvent(mover, e, at), at);
      case OpSetTrust(_, v) =>
        SetHealthy(mover, v, at);
        RescoredIs(s, name, HumanOverride, AfterSet(mover, v, at), at);
    }
  }

  lemma SetHealthy(st: LinearState, value: real, at: real)
    requires Healthy(st, at)
    ensures Healthy(AfterSet(st, value, at), at) && AfterSet(st, value, at).ceiling == st.ceiling
  {
  }

  lemma MoverHealthy(s: Sql, name: string, now: real, at: real)
    requires Sound(s, name, now) && now <= at && RowToRecord(s.rows[name]).Some?
    ensures Healthy(Mover(s, name, at), at) && Mover(s, name, at).ceiling == ScorerCeiling(s, name)
  {
    hide RowToRecord, TableOk;
  }

  // ---- Runs ----

  /** Through a run the agent stays sound under its id and its scorer's ceiling is what it was; without a scorer of its
      own it keeps the value in its row. */
  ghost predicate Kept(s: Sql, s1: Sql, name: string, at: real) {
    && Sound(s1, name, at)
    && name in s.rows && s1.rows[name].agentId == s.rows[name].agentId
    && ScorerCeiling(s1, name) == ScorerCeiling(s, name)
    && RowToRecord(s.rows[name]).Some? && RowToRecord(s1.rows[name]).Some?
    && RowToRecord(s1.rows[name]).value.trustCeiling == RowToRecord(s.rows[name]).value.trustCeiling
    && (name !in s1.scorers ==> name !in s.scorers && RowValue(s1, name) == RowValue(s, name))
  }

  lemma StepKeeps(s: Sql, s1: Sql, op: Op, name: string, at: real, overrides: bool)
    requires Kept(s, s1, name, at) && Spares(op, name, s.rows[name].agentId, overrides)
    ensures Kept(s, SqlStep(s1, op, at).0, name, at)
  {
    hide TableOk, RowToRecord, SqlStep, AfterEvent, AfterSet, Mover;
    if Moves(op, name) {
      StepIs(s1, op, name, at, at);
    } else {
      StepSpares(s1, op, name, at);
    }
  }

  lemma KeptLater(s: Sql, s1: Sql, name: string, now: real, at: real)
    requires Kept(s, s1, name, now) && now <= at
    ensures Kept(s, s1, name, at)
  {
    hide TableOk, RowToRecord;
  }

  lemma {:induction false} RunKeeps(s: Sql, ops: seq<(Op, real)>, name: string, overrides: bool, from: real, at: real)
    requires Sound(s, name, from) && AgentRun(ops, name, s.rows[name].agentId, overrides, from, at)
    ensures from <= at && Kept(s, SqlAfter(s, ops), name, at)
  {
    hide TableOk, RowToRecord, SqlStep, Kept;
    if ops == [] {
      KeptAtStart(s, name, from);
      KeptLater(s, s, name, from, at);
    } else {
      var n := |ops| - 1;
      RunKeeps(s, ops[..n], name, overrides, from, ops[n].1);
      StepKeeps(s, SqlAfter(s, ops[..n]), ops[n].0, name, ops[n].1, overrides);
      KeptLater(s, SqlAfter(s, ops), name, ops[n].1, at);
    }
  }

  lemma KeptAtStart(s: Sql, name: string, from: real)
    requires Sound(s, name, from)
    ensures Kept(s, s, name, from)
  {
    assert RowOk(name, s.rows[name]);
    hide TableOk, RowToRecord;
  }

  lemma ReadingBelowTop(st: LinearState, now: real)
    requires Healthy(st, now)
    ensures Reading(st, now) <= Top(st.ceiling)
  {
    hide DecayOver;
    ChargeNonNegative(st.decayRate, now - st.lastPositive);
  }

  /** The run of n SUCCESS events at one instant. */
  function Successes(name: string, n: nat, at: real): seq<(Op, real)> {
    if n == 0 then [] else Successes(name, n - 1, at) + [(OpTrustEvent(name, Success), at)]
  }

  lemma SuccessRaises(st: LinearState, at: real, k: real)
    requires Healthy(st, at) && k >= 0.0
    requires k > 0.0 ==> st.lastPositive == at && st.stored >= Min(1.0, k)
    ensures var st1 := AfterEvent(st, Success, at); st1.lastPositive == at && st1.stored >= Min(1.0, k + 0.02)
  {
    assert DecayOver(st.decayRate, at - at) == 0.0;
    hide DecayOver;
  }

  /** What n successes add up to. */
  function Gain(n: nat): real {
    0.02 * n as real
  }

  lemma GainStep(n: nat)
    requires n > 0
    ensures Gain(n) == Gain(n - 1) + 0.02 && Gain(n - 1) >= 0.0
    ensures Gain(n - 1) > 0.0 <==> n > 1
  {
  }

  lemma {:induction false} SuccessesRaise(s: Sql, name: string, n: nat, at: real)
    requires Sound(s, name, at)
    ensures AgentRun(Successes(name, n, at), name, s.rows[name].agentId, false, at, at)
    ensures n > 0 ==>
              var s1 := SqlAfter(s, Successes(name, n, at));
              && name in s1.scorers && s1.scorers[name].lastPositive == at
              && s1.scorers[name].stored >= Min(1.0, Gain(n))
  {
    hide Sound, RowToRecord, SqlStep, AfterEvent, Gain;
    if n > 0 {
      GainStep(n);
      var before := Successes(name, n - 1, at);
      SuccessesLength(name, n - 1, at);
      assert Successes(name, n, at)[..n - 1] == before;
      SuccessesRaise(s, name, n - 1, at);
      RunKeeps(s, before, name, false, at, at);
      OneSuccess(SqlAfter(s, before), name, at, Gain(n - 1));
    }
  }

  lemma OneSuccess(s: Sql, name: string, at: real, k: real)
    requires Sound(s, name, at) && k >= 0.0
    requires k > 0.0 ==>
               name in s.scorers && s.scorers[name].lastPositive == at && s.scorers[name].stored >= Min(1.0, k)
    ensures var s1 := SqlStep(s, OpTrustEvent(name, Success), at).0;
            && name in s1.scorers && s1.scorers[name].lastPositive == at
            && s1.scorers[name].stored >= Min(1.0, k + 0.02)
  {
    hide TableOk, RowToRecord, SqlStep, AfterEvent, Healthy;
    StepIs(s, OpTrustEvent(name, Success), name, at, at);
    ReadIs(s, name, at);
    MoverHealthy(s, name, at, at);
    SuccessRaises(Mover(s, name, at), at, k);
  }

  lemma {:induction false} SuccessesLength(name: string, n: nat, at: real)
    ensures |Successes(name, n, at)| == n
  {
    if n > 0 {
      SuccessesLength(name, n - 1, at);
    }
  }

  lemma FullReading(st: LinearState, at: real)
    requires st.lastPositive == at && 1.0 <= st.stored <= 1.0
    ensures Reading(st, at) == Top(st.ceiling)
  {
    assert DecayOver(st.decayRate, at - at) == 0.0;
  }

  /** Fifty successes take any scorer to the top of what it can read. */
  lemma TopIsReached(s: Sql, name: string, at: real)
    requires Sound(s, name, at)
    ensures AgentRun(Successes(name, 50, at), name, s.rows[name].agentId, false, at, at)
    ensures var answer := Read(SqlAfter(s, Successes(name, 50, at)), name, at);
            answer.Some? && answer.value.trustValue == Top(ScorerCeiling(s, name))
  {
    SuccessesRaise(s, name, 50, at);
    RunKeeps(s, Successes(name, 50, at), name, false, at, at);
    var s1 := SqlAfter(s, Successes(name, 50, at));
    ReadIs(s1, name, at);
    FullReading(s1.scorers[name], at);
    hide TableOk, RowToRecord, SqlAfter, Successes, Reading, Read, AgentRun;
  }

  lemma {:induction false} WithoutOverrides(ops: seq<(Op, real)>, name: string, id: string, from: real, at: real)
    requires AgentRun(ops, name, id, false, from, at)
    ensures AgentRun(ops, name, id, true, from, at)
  {
    if ops != [] {
      WithoutOverrides(ops[..|ops| - 1], name, id, from, ops[|ops| - 1].1);
    }
  }

  /** Over every run that leaves the agent registered, with overrides on it or without, the agent stays within a ceiling
      exactly when the top its scorer can reach is within it and so is the value it starts from. */
  lemma StaysWithinIff(s: Sql, name: string, ceiling: real, overrides: bool, from: real)
    requires Sound(s, name, from)
    ensures RowToRecord(s.rows[name]).Some?
    ensures StaysWithin(s, name, ceiling, overrides, from)
       <==> Top(ScorerCeiling(s, name)) <= ceiling && (name !in s.scorers ==> RowValue(s, name) <= ceiling)
  {
    hide TableOk, RowToRecord, Reading, Read, Top, Healthy, AgentRun;
    StartRead(s, name, from);
    if StaysWithin(s, name, ceiling, overrides, from) {
      TopIsReached(s, name, from);
      if overrides {
        WithoutOverrides(Successes(name, 50, from), name, s.rows[name].agentId, from, from);
      }
      assert Read(SqlAfter(s, Successes(name, 50, from)), name, from).value.trustValue <= ceiling;
      assert Read(SqlAfter(s, []), name, from).value.trustValue <= ceiling;
    }
    if Top(ScorerCeiling(s, name)) <= ceiling && (name !in s.scorers ==> RowValue(s, name) <= ceiling) {
      forall ops, at | AgentRun(ops, name, s.rows[name].agentId, overrides, from, at)
        ensures var answer := Read(SqlAfter(s, ops), name, at); answer.Some? && answer.value.trustValue <= ceiling
      {
        RunKeeps(s, ops, name, overrides, from, at);
        var s1 := SqlAfter(s, ops);
        ReadIs(s1, name, at);
        if name in s1.scorers {
          ReadingBelowTop(s1.scorers[name], at);
        }
      }
    }
  }

  lemma StartRead(s: Sql, name: string, from: real)
    requires Sound(s, name, from)
    ensures forall id, overrides :: AgentRun([], name, id, overrides, from, from)
    ensures RowToRecord(s.rows[name]).Some? && Read(SqlAfter(s, []), name, from).Some?
    ensures name !in s.scorers ==> Read(SqlAfter(s, []), name, from).value.trustValue == RowValue(s, name)
  {
    ReadIs(s, name, from);
    hide TableOk, RowToRecord, Read;
  }

  // ---- After a restart ----

  /** The same database opened by a new process. */
  function Restart(s: Sql): Sql {
    s.(scorers := map[])
  }

  /** A restarted registry keeps a capped agent within its ceiling through every later run, with overrides or without,
      exactly when the stored value is within it and the ceiling is no bound at all. */
  lemma RestartKeepsCeilingIff(s: Sql, name: string, ceiling: real, overrides: bool, from: real)
    requires TableOk(s.rows) && name in s.rows
    ensures RowToRecord(s.rows[name]).Some?
    ensures StaysWithin(Restart(s), name, ceiling, overrides, from) <==> RowValue(s, name) <= ceiling && 1.0 <= ceiling
  {
    StaysWithinIff(Restart(s), name, ceiling, overrides, from);
    hide StaysWithin, TableOk, RowToRecord;
  }

  /** The first trust event after a restart keeps the agent within its ceiling exactly when it is not a SUCCESS, or
      leaves room for the SUCCESS, or the ceiling is no bound at all. */
  lemma FirstEventAfterRestartIff(s: Sql, name: string, event: TrustEvent, ceiling: real, now: real)
    requires TableOk(s.rows) && name in s.rows && RowToRecord(s.rows[name]).Some?
    requires 0.0 <= RowValue(s, name) <= ceiling <= 1.0
    ensures var answer := Read(SqlTrustEvent(Restart(s), name, event, now).0, name, now);
            && answer.Some?
            && (answer.value.trustValue <= ceiling
                <==> event != Success || RowValue(s, name) + 0.02 <= ceiling || ceiling == 1.0)
  {
    hide TableOk, RowToRecord, Read, SqlTrustEvent, SqlStep, Reading, AfterEvent, Initial;
    TrustSteps(Restart(s), name, event, 0.0, now);
    StepIs(Restart(s), OpTrustEvent(name, event), name, now, now);
    ReadIs(SqlTrustEvent(Restart(s), name, event, now).0, name, now);
    RebuiltReading(RowValue(s, name), event, now);
  }

  lemma TrustSteps(s: Sql, name: string, event: TrustEvent, value: real, now: real)
    ensures SqlStep(s, OpTrustEvent(name, event), now).0 == SqlTrustEvent(s, name, event, now).0
    ensures SqlStep(s, OpSetTrust(name, value), now).0 == SqlSetTrust(s, name, value, now).0
  {
    hide SqlTrustEvent, SqlSetTrust;
  }

  lemma RebuiltReading(v: real, event: TrustEvent, now: real)
    requires 0.0 <= v <= 1.0
    ensures Reading(AfterEvent(Initial(v, DEFAULT_DECAY_RATE, None, now), event, now), now)
         == match event
            case Success => Min(1.0, v + 0.02)
            case Failure => Max(0.0, v - 0.05)
            case PolicyViolation => Max(0.0, v - 0.10)
            case HumanOverride => v
  {
  }

  /** The first override after a restart stays within the ceiling exactly when the value asked for does. */
  lemma FirstOverrideAfterRestartIff(s: Sql, name: string, value: real, ceiling: real, now: real)
    requires TableOk(s.rows) && name in s.rows && 0.0 <= ceiling <= 1.0
    ensures var answer := Read(SqlSetTrust(Restart(s), name, value, now).0, name, now);
            && answer.Some?
            && (answer.value.trustValue <= ceiling <==> value <= ceiling || ceiling == 1.0)
  {
    hide TableOk, RowToRecord, Read, SqlSetTrust, SqlStep, Reading, AfterSet;
    TrustSteps(Restart(s), name, Success, value, now);
    StepIs(Restart(s), OpSetTrust(name, value), name, now, now);
    ReadIs(Restart(s), name, now);
    ReadIs(SqlSetTrust(Restart(s), name, value, now).0, name, now);
    OverrideReading(Mover(Restart(s), name, now), value, now);
  }

  lemma OverrideReading(st: LinearState, value: real, now: real)
    requires st.ceiling.None?
    ensures Reading(AfterSet(st, value, now), now) == Clamp(value)
  {
    assert DecayOver(st.decayRate, now - now) == 0.0;
  }

  /** From 0.50 under a ceiling of 0.53, the first SUCCESS after a restart still answers 0.52, the second 0.54. */
  lemma SecondSuccessExceeds(s: Sql, name: string, now: real)
    requires TableOk(s.rows) && name in s.rows && RowToRecord(s.rows[name]).Some?
    requires RowValue(s, name) == 0.50 && RowToRecord(s.rows[name]).value.trustCeiling == Some(0.53)
    ensures var s1 := SqlStep(Restart(s), OpTrustEvent(name, Success), now).0;
            var s2 := SqlStep(s1, OpTrustEvent(name, Success), now).0;
            && Read(s1, name, now).Some? && Read(s1, name, now).value.trustValue == 0.52
            && Read(s2, name, now).Some? && Read(s2, name, now).value.trustValue == 0.54
            && Read(s2, name, now).value.trustCeiling == Some(0.53)
  {
    hide TableOk, RowToRecord, Read, SqlStep, Reading, AfterEvent, Initial;
    var op := OpTrustEvent(name, Success);
    var s1 := SqlStep(Restart(s), op, now).0;
    var s2 := SqlStep(s1, op, now).0;
    StepIs(Restart(s), op, name, now, now);
    ReadIs(s1, name, now);
    StepIs(s1, op, name, now, now);
    ReadIs(s2, name, now);
    TwoSuccesses(now);
  }

  lemma TwoSuccesses(now: real)
    ensures var st := AfterEvent(Initial(0.50, DEFAULT_DECAY_RATE, None, now), Success, now);
            Reading(st, now) == 0.52 && Reading(AfterEvent(st, Success, now), now) == 0.54
  {
  }

  // ---- After a re-registration ----

  /** A name registered again stays within its new ceiling through every later run, with overrides or without,
      exactly when the scorer it kept has a ceiling within the new one, or the new one is no bound at all. */
  lemma ReRegisteredKeepsCeilingIff(s: Sql, r: AgentRecord, ceiling: real, overrides: bool, now: real)
    requires TableOk(s.rows) && r.name in s.scorers && Healthy(s.scorers[r.name], now)
    requires Resolve(s, r, now).Ok? && Resolve(s, r, now).value.name == r.name
    ensures var s1 := SqlRegister(s, r, now).0;
            r.name in s1.rows
            && (StaysWithin(s1, r.name, ceiling, overrides, now)
                <==> Cap(s.scorers[r.name].ceiling) <= ceiling || 1.0 <= ceiling)
  {
    var s1 := SqlRegister(s, r, now).0;
    var stored := Touched(Resolve(s, r, now).value, now);
    InsertTable(s.rows, stored);
    RowColumns(stored);
    hide StaysWithin, TableOk, RowToRecord, RecordToRow, Resolve, Healthy;
    assert Sound(s1, r.name, now);
    StaysWithinIff(s1, r.name, ceiling, overrides, now);
  }
}
