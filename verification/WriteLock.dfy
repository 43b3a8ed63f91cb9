/** The mutators of SqliteRegistry as interleaved tasks: each await is a point where another task may run.
    `_write_lock` guards a call from its first read to its last answer, except that `register` resolves its
    parent before it takes the lock, and `list_agents` writes trust columns back without it. */
module WriteLock {
  import opened Common
  import opened Model
  import opened Lineage
  import opened LinearTrust
  import opened MemoryRegistry
  import opened SqliteRows
  import opened SqliteStore
  import opened BackendSimulation

  /** Where a call is. `Admitted` holds the derived record and the parent it was checked against; `Ready` the record to
      save and the instant at which it was computed and, by a trust call, the scorer moved. */
  datatype Pc =
    | Waiting
    | Admitted(record: AgentRecord, parent: Option<AgentRecord>)
    | Inside
    | Holding(read: AgentRecord)
    | Ready(record: AgentRecord, prepared: real)
    | Written
    | Finished(failure: Option<RegistryError>)

  datatype Task = Task(op: Op, admitted: Option<AgentRecord>, pc: Pc)

  /** A critical section that computed its effect at one instant, and wrote it, or failed, at another. */
  datatype Commit = Commit(task: nat, op: Op, admitted: Option<AgentRecord>, prepared: real, at: real)

  datatype Sys = Sys(
    store: Sql,
    tasks: map<nat, Task>,
    holder: Option<nat>,
    order: seq<nat>,
    log: seq<Commit>)

  datatype Move =
    | ResolveParent(task: nat)
    | Acquire(task: nat)
    | ReadRow(task: nat)
    | Prepare(task: nat)
    | Write(task: nat)
    | Release(task: nat)
    | WriteTrustBack

  predicate Mutator(op: Op) {
    op.OpRegister? || op.OpDeregister? || op.OpAddGrant? || op.OpRemoveGrant? || op.OpTrustEvent?
    || op.OpSetTrust? || op.OpStatus? || op.OpIdentity?
  }

  function Target(op: Op): string
    requires Mutator(op)
  {
    if op.OpRegister? then op.record.name else op.name
  }

  /** What a call computes from the row it read: the record to save, and the scorers it moved. */
  ghost function Prepared(s: Sql, op: Op, r: AgentRecord, at: real): (Sql, Result<AgentRecord, RegistryError>) {
    match op
    case OpAddGrant(_, g) =>
      (s, match GrantRefusal(s, r, g, at) case Some(e) => Err(e) case None => Ok(r.(grants := r.grants + [g])))
    case OpRemoveGrant(n, id) =>
      var i := GrantIndex(r.grants, id);
      (s, if i == |r.grants| then Err(GrantNotFound(n, id)) else Ok(r.(grants := Remaining(r.grants, id))))
    case OpTrustEvent(_, e) =>
      var after := AfterEvent(ScorerFor(s, r, at), e, at);
      (s.(scorers := s.scorers[r.name := after]), Ok(Synced(r, after, at)))
    case OpSetTrust(_, v) =>
      var after := AfterSet(ScorerFor(s, r, at), v, at);
      (s.(scorers := s.scorers[r.name := after]), Ok(Synced(r, after, at)))
    case OpStatus(_, st) => (s, Ok(r.(status := st)))
    case OpIdentity(_, k, a) => (s, Ok(r.(publicKey := k, publicKeyAlgorithm := a)))
    case _ => (s, Ok(r))
  }

  /** The write itself. */
  function Effect(s: Sql, op: Op, r: AgentRecord, at: real): Sql {
    match op
    case OpRegister(_) => SqlInsert(s, r, at)
    case OpDeregister(n) => s.(rows := s.rows - {n}, scorers := s.scorers - {n})
    case _ => Save(s, r, at)
  }

  function Moved(sys: Sys, t: nat, pc: Pc): Sys
    requires t in sys.tasks
  {
    sys.(tasks := sys.tasks[t := sys.tasks[t].(pc := pc)])
  }

  function Committed(sys: Sys, t: nat, prepared: real, at: real): Sys
    requires t in sys.tasks
  {
    sys.(log := sys.log + [Commit(t, sys.tasks[t].op, sys.tasks[t].admitted, prepared, at)])
  }

  /** A call that fails inside its critical section gives the lock back. */
  function Failed(sys: Sys, t: nat, e: RegistryError, at: real): Sys
    requires t in sys.tasks
  {
    Moved(Committed(sys, t, at, at), t, Finished(Some(e))).(holder := None)
  }

  ghost function ParentOf(s: Sql, record: AgentRecord, at: real): Option<AgentRecord> {
    if record.parentAgentId.None? then None else ReadById(s, record.parentAgentId.value, at)
  }

  /** One atomic step at the given instant; a move that is not enabled changes nothing. */
  ghost function Next(sys: Sys, move: Move, at: real): Sys {
    if move.WriteTrustBack? then sys.(store := SyncRows(sys.store, at))
    else if move.task !in sys.tasks || !Mutator(sys.tasks[move.task].op) then sys
    else
      var t, task := move.task, sys.tasks[move.task];
      match move
      case ResolveParent(_) =>
        if !task.pc.Waiting? || !task.op.OpRegister? then sys
        else
          (match Resolve(sys.store, task.op.record, at)
           case Err(e) => Moved(sys, t, Finished(Some(e)))
           case Ok(r) => Moved(sys, t, Admitted(r, ParentOf(sys.store, task.op.record, at))))
      case Acquire(_) =>
        if sys.holder.Some? then sys
        else if task.pc.Waiting? && !task.op.OpRegister? then
          Moved(sys, t, Inside).(holder := Some(t), order := sys.order + [t])
        else if task.pc.Admitted? then
          sys.(tasks := sys.tasks[t := Task(task.op, Some(task.pc.record), Ready(task.pc.record, at))],
               holder := Some(t), order := sys.order + [t])
        else sys
      case ReadRow(_) =>
        if !task.pc.Inside? then sys
        else
          (match Read(sys.store, Target(task.op), at)
           case None => Failed(sys, t, AgentNotFound(Target(task.op)), at)
           case Some(r) => Moved(sys, t, Holding(r)))
      case Prepare(_) =>
        if !task.pc.Holding? then sys
        else
          var (s1, out) := Prepared(sys.store, task.op, task.pc.read, at);
          (match out
           case Err(e) => Failed(sys, t, e, at)
           case Ok(r) => Moved(sys, t, Ready(r, at)).(store := s1))
      case Write(_) =>
        if !task.pc.Ready? then sys
        else
          Moved(Committed(sys, t, task.pc.prepared, at), t, Written)
            .(store := Effect(sys.store, task.op, task.pc.record, at))
      case Release(_) =>
        if !task.pc.Written? then sys else Moved(sys, t, Finished(None)).(holder := None)
      case WriteTrustBack => sys
  }

  ghost predicate AtStart(sys: Sys) {
    && TableOk(sys.store.rows)
    && (forall t :: t in sys.tasks ==> sys.tasks[t].pc == Waiting && sys.tasks[t].admitted.None?)
    && sys.holder.None? && sys.order == [] && sys.log == []
  }

  ghost function After(sys: Sys, moves: seq<(Move, real)>): Sys {
    if moves == [] then sys
    else var n := |moves| - 1; Next(After(sys, moves[..n]), moves[n].0, moves[n].1)
  }

  // ---- The same critical sections one at a time ----

  /** A whole critical section, run alone; a registration inserts the record it was admitted with. */
  ghost function SerialStep(s: Sql, c: Commit): Sql {
    if c.admitted.Some? then Effect(s, c.op, c.admitted.value, c.at)
    else if !Mutator(c.op) then s
    else
      match Read(s, Target(c.op), c.prepared)
      case None => s
      case Some(r) =>
        var (s1, out) := Prepared(s, c.op, r, c.prepared);
        match out case Err(_) => s case Ok(r1) => Effect(s1, c.op, r1, c.at)
  }

  ghost function Serial(s: Sql, log: seq<Commit>): Sql {
    if log == [] then s else SerialStep(Serial(s, log[..|log| - 1]), log[|log| - 1])
  }

  // ---- The columns that must not depend on the interleaving ----

  predicate SameCoreRow(a: Row, b: Row) {
    && a.agentId == b.agentId && a.name == b.name
    && RowToRecord(a).Some? && RowToRecord(b).Some?
    && SameButTrust(RowToRecord(a).value, RowToRecord(b).value)
  }

  /** Equal in every column but the two trust columns. */
  ghost predicate SameCore(s: Sql, u: Sql) {
    && TableOk(s.rows) && TableOk(u.rows)
    && s.rows.Keys == u.rows.Keys
    && (forall n :: n in s.rows ==> SameCoreRow(s.rows[n], u.rows[n]))
  }

  lemma CoreOfRows(s: Sql, s1: Sql, u: Sql)
    requires SameCore(s, u) && s1.rows == s.rows
    ensures SameCore(s1, u)
  {
    hide SameCoreRow, RowToRecord;
  }

  lemma SyncRowCore(row: Row, st: LinearState, at: real)
    requires RowToRecord(row).Some?
    ensures SameCoreRow(SyncRow(row, st, at), row)
  {
    hide Reading, TierFor, DictsToGrants, StatusName, StatusNamed;
    NamesRoundTrip(TierFor(Reading(st, at)), Registered);
    hide TierName, TierNamed;
  }

  lemma SameCoreRowTransitive(a: Row, b: Row, c: Row)
    requires SameCoreRow(a, b) && SameCoreRow(b, c)
    ensures SameCoreRow(a, c)
  {
    hide RowToRecord, Bare;
  }

  lemma CoreRowOk(a: Row, b: Row, n: string)
    requires SameCoreRow(a, b) && RowOk(n, b)
    ensures RowOk(n, a) && a.agentId == b.agentId
  {
    hide RowToRecord, SameButTrust;
  }

  lemma RowsCore(s: Sql, s1: Sql, u: Sql)
    requires SameCore(s, u) && s1.rows.Keys == s.rows.Keys
    requires forall n :: n in s.rows ==> SameCoreRow(s1.rows[n], s.rows[n])
    ensures SameCore(s1, u)
  {
    forall n | n in s1.rows
      ensures SameCoreRow(s1.rows[n], u.rows[n]) && RowOk(n, s1.rows[n]) && s1.rows[n].agentId == s.rows[n].agentId
    {
      SameCoreRowTransitive(s1.rows[n], s.rows[n], u.rows[n]);
      CoreRowOk(s1.rows[n], s.rows[n], n);
    }
    hide SameCoreRow, RowOk;
  }

  lemma TrustBackCore(s: Sql, u: Sql, at: real)
    requires SameCore(s, u)
    ensures SameCore(SyncRows(s, at), u)
  {
    hide SyncRow;
    forall n | n in s.rows ensures SameCoreRow(SyncRows(s, at).rows[n], s.rows[n]) {
      if n in s.scorers {
        SyncRowCore(s.rows[n], s.scorers[n], at);
      }
    }
    hide SameCoreRow, TableOk;
    RowsCore(s, SyncRows(s, at), u);
  }

  lemma SyncTrustCore(scorers: map<string, LinearState>, r: AgentRecord, at: real)
    ensures SameButTrust(SyncTrust(scorers, r, at), r)
  {
    if r.name in scorers {
      SyncedSame(r, scorers[r.name], at);
    }
    hide Synced;
  }

  /** A read gives the row's record, up to trust. */
  lemma ReadIsRow(s: Sql, n: string, at: real)
    requires TableOk(s.rows)
    ensures Read(s, n, at).Some? <==> n in s.rows
    ensures n in s.rows ==>
              && SameButTrust(Read(s, n, at).value, RowToRecord(s.rows[n]).value)
              && Read(s, n, at).value.name == n && Read(s, n, at).value.agentId == s.rows[n].agentId
  {
    if n in s.rows {
      assert RowOk(n, s.rows[n]);
      SyncTrustCore(s.scorers, RowToRecord(s.rows[n]).value, at);
      DecodedName(s.rows[n]);
    }
    hide RowToRecord, SyncTrust;
  }

  lemma ReadByIdCore(s: Sql, u: Sql, id: string, at: real, at1: real)
    requires SameCore(s, u)
    ensures var p, q := ReadById(s, id, at), ReadById(u, id, at1);
            (p.Some? <==> q.Some?) && (p.Some? ==> SameButTrust(p.value, q.value))
  {
    var f, g := RowWithId(s.rows, id), RowWithId(u.rows, id);
    assert f == g by {
      hide RowToRecord, SameButTrust;
      if f.Some? { assert SameCoreRow(s.rows[f.value], u.rows[f.value]); }
      if g.Some? { assert SameCoreRow(s.rows[g.value], u.rows[g.value]); }
    }
    if f.Some? {
      assert SameCoreRow(s.rows[f.value], u.rows[f.value]);
      ReadIsRow(s, f.value, at);
      ReadIsRow(u, f.value, at1);
    }
    hide RowToRecord, Read, TableOk, Bare;
  }

  /** What a call computes is the same up to trust from equal cores, whatever the scorers and the instant. */
  lemma PreparedCore(s: Sql, u: Sql, op: Op, r: AgentRecord, q: AgentRecord, at: real, at1: real)
    requires SameCore(s, u) && SameButTrust(r, q)
    ensures var a, b := Prepared(s, op, r, at).1, Prepared(u, op, q, at1).1;
            match a case Err(e) => b == Err(e) case Ok(x) => b.Ok? && SameButTrust(x, b.value)
    ensures Prepared(s, op, r, at).0.rows == s.rows
    ensures Prepared(s, op, r, at).1.Ok? ==>
              Prepared(s, op, r, at).1.value.name == r.name && Prepared(s, op, r, at).1.value.agentId == r.agentId
  {
    hide SameCore, Reading, TierFor, AfterEvent, AfterSet, ScorerFor, ReadById, GrantIndex, Pairs;
    if op.OpAddGrant? && r.parentAgentId.Some? {
      ReadByIdCore(s, u, r.parentAgentId.value, at, at1);
    }
  }

  /** One row replaced on both sides by rows of the same core and the same key. */
  lemma ReplaceCore(s: Sql, u: Sql, n: string, a: Row, b: Row)
    requires SameCore(s, u) && n in s.rows
    requires RowOk(n, a) && RowOk(n, b) && a.agentId == s.rows[n].agentId && SameCoreRow(a, b)
    ensures SameCore(s.(rows := s.rows[n := a]), u.(rows := u.rows[n := b]))
  {
    assert u.rows[n].agentId == s.rows[n].agentId && b.agentId == a.agentId by {
      assert SameCoreRow(s.rows[n], u.rows[n]);
    }
    TableReplace(s.rows, n, a);
    TableReplace(u.rows, n, b);
    hide SameCoreRow, RowOk, TableOk;
  }

  lemma SaveCore(s: Sql, u: Sql, r: AgentRecord, q: AgentRecord, at: real)
    requires SameCore(s, u) && SameButTrust(r, q)
    ensures SameCore(Save(s, r, at), Save(u, q, at))
  {
    assert r.name == q.name;
    if r.name in s.rows {
      var n := r.name;
      assert SameCoreRow(s.rows[n], u.rows[n]);
      assert RowOk(n, s.rows[n]) && RowOk(n, u.rows[n]);
      UpdatedRow(s.rows[n], Touched(r, at));
      UpdatedRow(u.rows[n], Touched(q, at));
      DecodedColumns(s.rows[n]);
      DecodedColumns(u.rows[n]);
      var a, b := UpdateRow(s.rows[n], RecordToRow(Touched(r, at))), UpdateRow(u.rows[n], RecordToRow(Touched(q, at)));
      hide RowToRecord, RecordToRow, UpdateRow, TableOk;
      assert SameCoreRow(a, b) && RowOk(n, a) && RowOk(n, b) && a.agentId == s.rows[n].agentId;
      ReplaceCore(s, u, n, a, b);
    }
  }

  lemma NewRowOk(r: AgentRecord)
    ensures var row := RecordToRow(r); row.name == r.name && RowOk(row.name, row) && SameCoreRow(row, row)
  {
    RowRoundTrip(r);
    RowColumns(r);
    hide RecordToRow, RowToRecord;
  }

  lemma InsertedKeys(s: Sql, u: Sql, row: Row)
    requires SameCore(s, u)
    ensures InsertOrReplace(s.rows, row).Keys == InsertOrReplace(u.rows, row).Keys
  {
    forall n | n in s.rows ensures s.rows[n].agentId == u.rows[n].agentId {
      assert SameCoreRow(s.rows[n], u.rows[n]);
    }
    hide SameCoreRow, TableOk;
  }

  lemma InsertCore(s: Sql, u: Sql, r: AgentRecord, at: real)
    requires SameCore(s, u)
    ensures SameCore(SqlInsert(s, r, at), SqlInsert(u, r, at))
  {
    hide RowOk, RecordToRow, SameCoreRow, Touched, EnsureScorer, TableOk;
    var row := RecordToRow(Touched(r, at));
    NewRowOk(Touched(r, at));
    InsertedKeys(s, u, row);
    TableInsert(s.rows, row);
    TableInsert(u.rows, row);
  }

  lemma DeleteCore(s: Sql, u: Sql, n: string, scorers: map<string, LinearState>, scorers1: map<string, LinearState>)
    requires SameCore(s, u)
    ensures SameCore(s.(rows := s.rows - {n}, scorers := scorers), u.(rows := u.rows - {n}, scorers := scorers1))
  {
    TableDelete(s.rows, n);
    TableDelete(u.rows, n);
    hide TableOk, SameCoreRow;
  }

  lemma EffectCore(s: Sql, u: Sql, op: Op, r: AgentRecord, q: AgentRecord, at: real)
    requires SameCore(s, u) && (if op.OpRegister? then r == q else SameButTrust(r, q))
    ensures SameCore(Effect(s, op, r, at), Effect(u, op, q, at))
  {
    hide SameCore, SqlInsert, Save, SameButTrust;
    match op
    case OpRegister(_) => InsertCore(s, u, r, at);
    case OpDeregister(n) => DeleteCore(s, u, n, s.scorers - {n}, u.scorers - {n});
    case _ => SaveCore(s, u, r, q, at);
  }

  // ---- The invariant of every interleaving ----

  ghost predicate HoldingOk(s: Sql, op: Op, read: AgentRecord) {
    && Mutator(op) && Target(op) in s.rows && read.name == Target(op)
    && RowToRecord(s.rows[Target(op)]).Some?
    && SameButTrust(read, RowToRecord(s.rows[Target(op)]).value)
  }

  /** The record about to be saved is, up to trust, what the call computes from the row as it is now. */
  ghost predicate ReadyOk(s: Sql, op: Op, r: AgentRecord) {
    && Mutator(op) && Target(op) in s.rows && RowToRecord(s.rows[Target(op)]).Some?
    && var out := Prepared(s, op, RowToRecord(s.rows[Target(op)]).value, 0.0).1;
       out.Ok? && SameButTrust(out.value, r)
  }

  ghost predicate PcOk(task: Task, holds: bool, ordered: bool, s: Sql) {
    match task.pc
    case Waiting => task.admitted.None? && !holds && !ordered
    case Admitted(r, _) => task.admitted.None? && !holds && !ordered && task.op.OpRegister?
    case Inside => task.admitted.None? && holds && ordered && Mutator(task.op) && !task.op.OpRegister?
    case Holding(read) => task.admitted.None? && holds && ordered && !task.op.OpRegister? && HoldingOk(s, task.op, read)
    case Ready(r, _) =>
      && holds && ordered
      && if task.op.OpRegister? then task.admitted == Some(r) else task.admitted.None? && ReadyOk(s, task.op, r)
    case Written => holds && ordered && Mutator(task.op)
    case Finished(_) => !holds
  }

  predicate Uncommitted(sys: Sys) {
    && sys.holder.Some? && sys.holder.value in sys.tasks
    && var pc := sys.tasks[sys.holder.value].pc; pc.Inside? || pc.Holding? || pc.Ready?
  }

  function LogTasks(log: seq<Commit>): seq<nat> {
    seq(|log|, i requires 0 <= i < |log| => log[i].task)
  }

  /** Critical sections take effect in the order their calls took the lock, each call once. */
  ghost predicate OrderOk(sys: Sys) {
    && Distinct(sys.order)
    && (forall t :: t in sys.order ==> t in sys.tasks)
    && (sys.holder.Some? ==> |sys.order| > 0 && sys.order[|sys.order| - 1] == sys.holder.value)
    && LogTasks(sys.log) == if Uncommitted(sys) then sys.order[..|sys.order| - 1] else sys.order
  }

  ghost predicate LockInv(sys: Sys, s0: Sql) {
    && SameCore(sys.store, Serial(s0, sys.log))
    && OrderOk(sys)
    && (forall t :: t in sys.tasks ==> TaskOk(sys, t))
  }

  ghost predicate TaskOk(sys: Sys, t: nat)
    requires t in sys.tasks
  {
    PcOk(sys.tasks[t], sys.holder == Some(t), t in sys.order, sys.store)
  }

  lemma SymmetricCore(s: Sql, u: Sql)
    requires SameCore(s, u)
    ensures SameCore(u, s)
  {
    forall n | n in s.rows ensures SameCoreRow(u.rows[n], s.rows[n]) {
      assert SameCoreRow(s.rows[n], u.rows[n]);
      SameSymmetric(RowToRecord(s.rows[n]).value, RowToRecord(u.rows[n]).value);
    }
    hide SameCoreRow, TableOk;
  }

  lemma ReflexiveCore(s: Sql)
    requires TableOk(s.rows)
    ensures SameCore(s, s)
  {
    forall n | n in s.rows ensures SameCoreRow(s.rows[n], s.rows[n]) {
      assert RowOk(n, s.rows[n]);
    }
    hide TableOk, SameCoreRow;
  }

  lemma SameTransitive(a: AgentRecord, b: AgentRecord, c: AgentRecord)
    requires SameButTrust(a, b) && SameButTrust(b, c)
    ensures SameButTrust(a, c)
  {
    hide Bare;
  }

  /** A change of trust columns or scorers disturbs no call in flight. */
  lemma PcStable(task: Task, holds: bool, ordered: bool, s: Sql, s1: Sql)
    requires PcOk(task, holds, ordered, s) && SameCore(s1, s)
    ensures PcOk(task, holds, ordered, s1)
  {
    if task.pc.Holding? {
      var n := Target(task.op);
      assert SameCoreRow(s1.rows[n], s.rows[n]);
      SameSymmetric(RowToRecord(s1.rows[n]).value, RowToRecord(s.rows[n]).value);
      SameTransitive(task.pc.read, RowToRecord(s.rows[n]).value, RowToRecord(s1.rows[n]).value);
    } else if task.pc.Ready? && !task.op.OpRegister? {
      var n := Target(task.op);
      assert SameCoreRow(s1.rows[n], s.rows[n]);
      PreparedCore(s1, s, task.op, RowToRecord(s1.rows[n]).value, RowToRecord(s.rows[n]).value, 0.0, 0.0);
      var a := Prepared(s1, task.op, RowToRecord(s1.rows[n]).value, 0.0).1;
      var b := Prepared(s, task.op, RowToRecord(s.rows[n]).value, 0.0).1;
      SameTransitive(a.value, b.value, task.pc.record);
    }
    hide *;
  }

  lemma IdleStable(task: Task, ordered: bool, s: Sql, s1: Sql)
    requires PcOk(task, false, ordered, s)
    ensures PcOk(task, false, ordered, s1)
  {
  }

  /** A step of one task leaves the others as they were. */
  lemma OthersOk(sys: Sys, sys1: Sys, t: nat)
    requires forall k :: k in sys.tasks ==> TaskOk(sys, k)
    requires t in sys1.tasks && sys1.tasks == sys.tasks[t := sys1.tasks[t]]
    requires forall k :: k in sys.tasks && k != t ==>
               (sys1.holder == Some(k) <==> sys.holder == Some(k)) && (k in sys1.order <==> k in sys.order)
    requires sys1.store == sys.store || sys.holder == Some(t)
    requires TaskOk(sys1, t)
    ensures forall k :: k in sys1.tasks ==> TaskOk(sys1, k)
  {
    hide PcOk;
    forall k | k in sys1.tasks && k != t ensures TaskOk(sys1, k) {
      assert TaskOk(sys, k);
      if sys.holder != Some(k) {
        IdleStable(sys.tasks[k], k in sys.order, sys.store, sys1.store);
      }
    }
  }

  lemma SerialSnoc(s0: Sql, log: seq<Commit>, c: Commit)
    ensures Serial(s0, log + [c]) == SerialStep(Serial(s0, log), c)
    ensures LogTasks(log + [c]) == LogTasks(log) + [c.task]
  {
    assert (log + [c])[..|log|] == log;
    hide SerialStep;
  }

  lemma CoreTables(s: Sql, u: Sql)
    requires SameCore(s, u)
    ensures TableOk(s.rows) && TableOk(u.rows)
  {
    hide TableOk, SameCoreRow;
  }

  lemma TrustBackKeeps(sys: Sys, s0: Sql, at: real)
    requires LockInv(sys, s0)
    ensures LockInv(Next(sys, WriteTrustBack, at), s0)
  {
    hide SameCore, PcOk, SyncRows, Serial, Distinct, LogTasks, TableOk;
    var sys1 := Next(sys, WriteTrustBack, at);
    TrustBackCore(sys.store, Serial(s0, sys.log), at);
    CoreTables(sys.store, Serial(s0, sys.log));
    ReflexiveCore(sys.store);
    TrustBackCore(sys.store, sys.store, at);
    forall k | k in sys1.tasks ensures TaskOk(sys1, k) {
      assert TaskOk(sys, k);
      PcStable(sys.tasks[k], sys.holder == Some(k), k in sys.order, sys.store, sys1.store);
    }
  }

  lemma ResolveKeeps(sys: Sys, s0: Sql, t: nat, at: real)
    requires LockInv(sys, s0)
    ensures LockInv(Next(sys, ResolveParent(t), at), s0)
  {
    hide SameCore, Serial, Resolve, HoldingOk, ReadyOk, Distinct, LogTasks, ParentOf;
    var sys1 := Next(sys, ResolveParent(t), at);
    if sys1 != sys {
      assert TaskOk(sys, t);
      OthersOk(sys, sys1, t);
    }
  }

  lemma AcquireKeeps(sys: Sys, s0: Sql, t: nat, at: real)
    requires LockInv(sys, s0)
    ensures LockInv(Next(sys, Acquire(t), at), s0)
  {
    hide SameCore, Serial, HoldingOk, ReadyOk, LogTasks;
    var sys1 := Next(sys, Acquire(t), at);
    if sys1 != sys {
      assert TaskOk(sys, t);
      assert sys1.order == sys.order + [t] && sys1.order[..|sys1.order| - 1] == sys.order;
      OthersOk(sys, sys1, t);
    }
  }

  lemma ReleaseKeeps(sys: Sys, s0: Sql, t: nat, at: real)
    requires LockInv(sys, s0)
    ensures LockInv(Next(sys, Release(t), at), s0)
  {
    hide SameCore, Serial, HoldingOk, ReadyOk, LogTasks, Distinct;
    var sys1 := Next(sys, Release(t), at);
    if sys1 != sys {
      assert TaskOk(sys, t);
      OthersOk(sys, sys1, t);
    }
  }

  /** The holder commits a section that changed nothing, and gives the lock back. */
  lemma FailKeeps(sys: Sys, s0: Sql, t: nat, e: RegistryError, at: real)
    requires LockInv(sys, s0) && t in sys.tasks && sys.holder == Some(t) && Uncommitted(sys)
    requires var c := Commit(t, sys.tasks[t].op, sys.tasks[t].admitted, at, at);
             SerialStep(Serial(s0, sys.log), c) == Serial(s0, sys.log)
    ensures LockInv(Failed(sys, t, e, at), s0)
  {
    hide SameCore, Serial, SerialStep, HoldingOk, ReadyOk, LogTasks, Distinct;
    var sys1 := Failed(sys, t, e, at);
    SerialSnoc(s0, sys.log, Commit(t, sys.tasks[t].op, sys.tasks[t].admitted, at, at));
    assert TaskOk(sys, t);
    assert sys.order == sys.order[..|sys.order| - 1] + [t];
    OthersOk(sys, sys1, t);
  }

  lemma ReadingFacts(s: Sql, u: Sql, c: Commit)
    requires SameCore(s, u) && Mutator(c.op) && c.admitted.None?
    ensures match Read(s, Target(c.op), c.prepared)
            case None => SerialStep(u, c) == u
            case Some(r) => HoldingOk(s, c.op, r)
  {
    var n := Target(c.op);
    ReadIsRow(s, n, c.prepared);
    ReadIsRow(u, n, c.prepared);
    if n in s.rows {
      assert RowOk(n, s.rows[n]);
    }
    hide SameCore, Read, SameButTrust, Prepared, Effect;
  }

  lemma ReadKeeps(sys: Sys, s0: Sql, t: nat, at: real)
    requires LockInv(sys, s0)
    ensures LockInv(Next(sys, ReadRow(t), at), s0)
  {
    hide SameCore, Serial, SerialStep, Read, HoldingOk, ReadyOk, LogTasks, Distinct;
    var sys1 := Next(sys, ReadRow(t), at);
    if sys1 != sys {
      var task := sys.tasks[t];
      assert TaskOk(sys, t);
      ReadingFacts(sys.store, Serial(s0, sys.log), Commit(t, task.op, task.admitted, at, at));
      if Read(sys.store, Target(task.op), at).None? {
        FailKeeps(sys, s0, t, AgentNotFound(Target(task.op)), at);
      } else {
        OthersOk(sys, sys1, t);
      }
    }
  }

  /** In the lock, what the serial run would compute now is what this call computes, up to trust. */
  lemma SerialComputes(s: Sql, u: Sql, op: Op, r: AgentRecord, at: real, at1: real)
    requires SameCore(s, u) && Mutator(op) && Target(op) in s.rows
    requires RowToRecord(s.rows[Target(op)]).Some? && SameButTrust(r, RowToRecord(s.rows[Target(op)]).value)
    ensures Read(u, Target(op), at1).Some?
    ensures var q := Read(u, Target(op), at1).value;
            var a, b := Prepared(s, op, r, at).1, Prepared(u, op, q, at1).1;
            match a case Err(e) => b == Err(e) case Ok(x) => b.Ok? && SameButTrust(x, b.value)
    ensures Prepared(u, op, Read(u, Target(op), at1).value, at1).0.rows == u.rows
  {
    var n := Target(op);
    ReadIsRow(u, n, at1);
    assert SameCoreRow(s.rows[n], u.rows[n]);
    var q := Read(u, n, at1).value;
    SameSymmetric(q, RowToRecord(u.rows[n]).value);
    SameTransitive(r, RowToRecord(s.rows[n]).value, RowToRecord(u.rows[n]).value);
    SameTransitive(r, RowToRecord(u.rows[n]).value, q);
    PreparedCore(s, u, op, r, q, at, at1);
    SymmetricCore(s, u);
    SameSymmetric(r, q);
    PreparedCore(u, s, op, q, r, at1, at);
    hide *;
  }

  lemma PreparedRows(s: Sql, op: Op, r: AgentRecord, at: real)
    ensures Prepared(s, op, r, at).0.rows == s.rows
  {
    hide Reading, TierFor, AfterEvent, AfterSet, ScorerFor, GrantIndex, GrantRefusal;
  }

  /** Preparing touches no core column, leaves a sound record to save, and fails only where the serial run fails. */
  lemma PrepareFacts(s: Sql, u: Sql, c: Commit, read: AgentRecord)
    requires SameCore(s, u) && HoldingOk(s, c.op, read) && c.admitted.None?
    ensures var (s1, out) := Prepared(s, c.op, read, c.prepared);
            && SameCore(s1, u)
            && (out.Ok? ==> ReadyOk(s1, c.op, out.value))
            && (out.Err? ==> SerialStep(u, c) == u)
  {
    var (s1, out) := Prepared(s, c.op, read, c.prepared);
    SerialComputes(s, u, c.op, read, c.prepared, c.prepared);
    PreparedRows(s, c.op, read, c.prepared);
    CoreOfRows(s, s1, u);
    if out.Ok? {
      ReadyNow(s, s1, c.op, read, c.prepared);
    }
    hide SameCore, Read, SameButTrust, Prepared, Effect, ReadyOk, HoldingOk;
  }

  lemma PrepareKeeps(sys: Sys, s0: Sql, t: nat, at: real)
    requires LockInv(sys, s0)
    ensures LockInv(Next(sys, Prepare(t), at), s0)
  {
    hide SameCore, Serial, SerialStep, LogTasks, Distinct, Prepared, Effect, ReadyOk, HoldingOk;
    var sys1 := Next(sys, Prepare(t), at);
    if sys1 != sys {
      var task := sys.tasks[t];
      assert TaskOk(sys, t);
      PrepareFacts(sys.store, Serial(s0, sys.log), Commit(t, task.op, task.admitted, at, at), task.pc.read);
      var (s1, out) := Prepared(sys.store, task.op, task.pc.read, at);
      if out.Err? {
        FailKeeps(sys, s0, t, out.error, at);
      } else {
        OthersOk(sys, sys1, t);
      }
    }
  }

  lemma ReadyNow(s: Sql, s1: Sql, op: Op, read: AgentRecord, at: real)
    requires TableOk(s.rows) && s1.rows == s.rows && HoldingOk(s, op, read) && Prepared(s, op, read, at).1.Ok?
    ensures ReadyOk(s1, op, Prepared(s, op, read, at).1.value)
  {
    var row := RowToRecord(s.rows[Target(op)]).value;
    ReflexiveCore(s);
    CoreOfRows(s, s1, s);
    SameSymmetric(read, row);
    SymmetricCore(s1, s);
    PreparedCore(s, s1, op, read, row, at, 0.0);
    var a, b := Prepared(s, op, read, at).1, Prepared(s1, op, row, 0.0).1;
    SameSymmetric(a.value, b.value);
    hide SameCore, Prepared, SameButTrust, RowToRecord;
  }

  lemma WriteKeeps(sys: Sys, s0: Sql, t: nat, at: real)
    requires LockInv(sys, s0)
    ensures LockInv(Next(sys, Write(t), at), s0)
  {
    hide SameCore, Serial, SerialStep, LogTasks, Distinct, Effect, ReadyOk, HoldingOk;
    var sys1 := Next(sys, Write(t), at);
    if sys1 != sys {
      var task, u := sys.tasks[t], Serial(s0, sys.log);
      assert TaskOk(sys, t);
      var c := Commit(t, task.op, task.admitted, task.pc.prepared, at);
      SerialSnoc(s0, sys.log, c);
      WriteCore(sys.store, u, c, task.pc.record);
      assert sys.order == sys.order[..|sys.order| - 1] + [t];
      OthersOk(sys, sys1, t);
    }
  }

  lemma WriteCore(s: Sql, u: Sql, c: Commit, r: AgentRecord)
    requires SameCore(s, u) && Mutator(c.op)
    requires if c.op.OpRegister? then c.admitted == Some(r) else c.admitted.None? && ReadyOk(s, c.op, r)
    ensures SameCore(Effect(s, c.op, r, c.at), SerialStep(u, c))
  {
    if c.op.OpRegister? {
      EffectCore(s, u, c.op, r, r, c.at);
    } else {
      var row := RowToRecord(s.rows[Target(c.op)]).value;
      SerialComputes(s, u, c.op, row, 0.0, c.prepared);
      var q := Read(u, Target(c.op), c.prepared).value;
      var (u1, out) := Prepared(u, c.op, q, c.prepared);
      var mine := Prepared(s, c.op, row, 0.0).1.value;
      SameSymmetric(mine, r);
      SameTransitive(r, mine, out.value);
      SymmetricCore(s, u);
      CoreOfRows(u, u1, s);
      SymmetricCore(u1, s);
      EffectCore(s, u1, c.op, r, out.value, c.at);
    }
    hide SameCore, Effect, Prepared, SameButTrust, Read, RowToRecord, ReadyOk;
  }

  lemma NextKeeps(sys: Sys, s0: Sql, move: Move, at: real)
    requires LockInv(sys, s0)
    ensures LockInv(Next(sys, move, at), s0)
  {
    hide LockInv, Next;
    match move
    case ResolveParent(t) => ResolveKeeps(sys, s0, t, at);
    case Acquire(t) => AcquireKeeps(sys, s0, t, at);
    case ReadRow(t) => ReadKeeps(sys, s0, t, at);
    case Prepare(t) => PrepareKeeps(sys, s0, t, at);
    case Write(t) => WriteKeeps(sys, s0, t, at);
    case Release(t) => ReleaseKeeps(sys, s0, t, at);
    case WriteTrustBack => TrustBackKeeps(sys, s0, at);
  }

  lemma StartInv(sys: Sys)
    requires AtStart(sys)
    ensures LockInv(sys, sys.store)
  {
    ReflexiveCore(sys.store);
    hide SameCore, TableOk;
  }

  lemma {:induction false} EveryInterleaving(sys: Sys, moves: seq<(Move, real)>)
    requires AtStart(sys)
    ensures LockInv(After(sys, moves), sys.store)
  {
    hide LockInv, Next;
    if moves == [] {
      StartInv(sys);
    } else {
      var n := |moves| - 1;
      EveryInterleaving(sys, moves[..n]);
      NextKeeps(After(sys, moves[..n]), sys.store, moves[n].0, moves[n].1);
    }
  }

  /** Whatever the interleaving, every column but the two trust columns is what the critical sections leave
      when they run whole, one after the other, in the order in which the calls took the lock; each call takes
      effect at most once, and at most the holder's own section is still outstanding. */
  lemma LockOrderSerialises(sys: Sys, moves: seq<(Move, real)>)
    requires AtStart(sys)
    ensures var end := After(sys, moves);
            && SameCore(end.store, Serial(sys.store, end.log))
            && Distinct(end.order)
            && (Uncommitted(end) ==> |end.order| > 0)
            && LogTasks(end.log) == if Uncommitted(end) then end.order[..|end.order| - 1] else end.order
  {
    EveryInterleaving(sys, moves);
    assert TableOk(sys.store.rows);
    hide SameCore, Serial, After, Uncommitted, LogTasks, Distinct, TaskOk;
  }

  /** A whole critical section at one instant leaves the rows and scorers of the call itself, as the simulation
      models it. */
  lemma SerialIsTheCall(s: Sql, c: Commit)
    requires Mutator(c.op) && TableOk(s.rows) && c.prepared == c.at
    requires if c.op.OpRegister? then c.admitted.Some? && Resolve(s, c.op.record, c.at) == Ok(c.admitted.value)
             else c.admitted.None?
    ensures SerialStep(s, c).rows == SqlStep(s, c.op, c.at).0.rows
    ensures SerialStep(s, c).scorers == SqlStep(s, c.op, c.at).0.scorers
  {
    hide TableOk, Read, Resolve, GrantIndex, GrantRefusal, SqlInsert, Save, Synced, AfterEvent, AfterSet, ScorerFor,
         RowToRecord, SqlTrustEvent, SqlSetTrust;
    if c.op.OpTrustEvent? || c.op.OpSetTrust? {
      SerialRescore(s, c);
    } else if !c.op.OpRegister? {
      ReadName(s, c.op.name, c.at);
    }
  }

  lemma SerialRescore(s: Sql, c: Commit)
    requires TableOk(s.rows) && c.admitted.None? && (c.op.OpTrustEvent? || c.op.OpSetTrust?) && c.prepared == c.at
    ensures SerialStep(s, c).rows == SqlStep(s, c.op, c.at).0.rows
    ensures SerialStep(s, c).scorers == SqlStep(s, c.op, c.at).0.scorers
  {
    hide TableOk, Read, AfterEvent, AfterSet, ScorerFor, UpdateRow, RecordToRow, Synced, Reading, TierFor;
    ReadName(s, c.op.name, c.at);
  }

  // ---- Registration: admitted by the parent as it was when it was resolved ----

  ghost predicate NarrowedBy(parent: Option<AgentRecord>, asked: AgentRecord, stored: AgentRecord) {
    && stored.name == asked.name && stored.agentId == asked.agentId && stored.grants == asked.grants
    && (asked.parentAgentId.Some? ==> parent.Some? && Pairs(stored.grants) <= Pairs(parent.value.grants))
  }

  lemma ResolveNarrows(s: Sql, asked: AgentRecord, at: real)
    requires Resolve(s, asked, at).Ok?
    ensures NarrowedBy(ParentOf(s, asked, at), asked, Resolve(s, asked, at).value)
  {
    hide ReadById, TierFor, ChildCeiling;
    if asked.parentAgentId.Some? {
      NarrowingIff(ReadById(s, asked.parentAgentId.value, at).value, asked.name, asked.grants);
    }
    hide Pairs, ValidateNarrowing;
  }

  /** Step j is the resolve step of call k, made while k still waits for the lock; what it derived is `stored`, and
      the parent it saw was registered and held every pair of it. */
  ghost predicate ResolvedAt(sys: Sys, moves: seq<(Move, real)>, j: nat, k: nat, op: Op, stored: AgentRecord) {
    && j < |moves| && moves[j].0 == ResolveParent(k) && op.OpRegister?
    && var before := After(sys, moves[..j]);
       && k in before.tasks && before.tasks[k].pc.Waiting?
       && Resolve(before.store, op.record, moves[j].1) == Ok(stored)
       && NarrowedBy(ParentOf(before.store, op.record, moves[j].1), op.record, stored)
  }

  ghost predicate Grounded(sys: Sys, moves: seq<(Move, real)>, k: nat, op: Op, stored: AgentRecord) {
    exists j: nat :: ResolvedAt(sys, moves, j, k, op, stored)
  }

  ghost predicate TaskGrounded(sys: Sys, moves: seq<(Move, real)>, k: nat, task: Task) {
    && (task.pc.Admitted? ==> Grounded(sys, moves, k, task.op, task.pc.record))
    && (task.admitted.Some? ==> Grounded(sys, moves, k, task.op, task.admitted.value))
  }

  lemma GroundedLater(sys: Sys, moves: seq<(Move, real)>, k: nat, op: Op, stored: AgentRecord)
    requires |moves| > 0 && Grounded(sys, moves[..|moves| - 1], k, op, stored)
    ensures Grounded(sys, moves, k, op, stored)
  {
    hide NarrowedBy, After, ParentOf, Resolve;
    var n := |moves| - 1;
    var j: nat :| ResolvedAt(sys, moves[..n], j, k, op, stored);
    assert moves[..n][..j] == moves[..j];
    assert ResolvedAt(sys, moves, j, k, op, stored);
  }

  lemma GroundedNow(sys: Sys, moves: seq<(Move, real)>, k: nat, op: Op, stored: AgentRecord)
    requires |moves| > 0 && ResolvedAt(sys, moves, |moves| - 1, k, op, stored)
    ensures Grounded(sys, moves, k, op, stored)
  {
    hide ResolvedAt;
  }

  /** How one step may change one task's admission. */
  lemma NextAdmission(sys: Sys, move: Move, at: real, k: nat)
    requires k in sys.tasks
    ensures k in Next(sys, move, at).tasks
    ensures var a, b := sys.tasks[k], Next(sys, move, at).tasks[k];
            && b.op == a.op
            && (b.pc.Admitted? ==>
                  || (a.pc.Admitted? && a.pc.record == b.pc.record)
                  || (move == ResolveParent(k) && a.pc.Waiting? && a.op.OpRegister?
                      && Resolve(sys.store, a.op.record, at) == Ok(b.pc.record)))
            && (b.admitted.Some? ==>
                  a.admitted == b.admitted || (a.pc.Admitted? && a.pc.record == b.admitted.value))
  {
    hide Resolve, ParentOf, Prepared, Read, Effect, SyncRows;
  }

  lemma StepGrounded(sys: Sys, moves: seq<(Move, real)>, k: nat)
    requires |moves| > 0
    requires var before := After(sys, moves[..|moves| - 1]);
             k in before.tasks && TaskGrounded(sys, moves[..|moves| - 1], k, before.tasks[k])
    ensures k in After(sys, moves).tasks && TaskGrounded(sys, moves, k, After(sys, moves).tasks[k])
  {
    hide Next, Grounded, Resolve, ParentOf, NarrowedBy;
    var n := |moves| - 1;
    var before, move, at := After(sys, moves[..n]), moves[n].0, moves[n].1;
    var task := before.tasks[k];
    NextAdmission(before, move, at, k);
    if task.pc.Admitted? { GroundedLater(sys, moves, k, task.op, task.pc.record); }
    if task.admitted.Some? { GroundedLater(sys, moves, k, task.op, task.admitted.value); }
    if move == ResolveParent(k) && task.pc.Waiting? && task.op.OpRegister? {
      var derived := Resolve(before.store, task.op.record, at);
      if derived.Ok? {
        ResolveNarrows(before.store, task.op.record, at);
        GroundedNow(sys, moves, k, task.op, derived.value);
      }
    }
  }

  lemma {:induction false} TasksGrounded(sys: Sys, moves: seq<(Move, real)>, k: nat)
    requires AtStart(sys) && k in sys.tasks
    ensures k in After(sys, moves).tasks && TaskGrounded(sys, moves, k, After(sys, moves).tasks[k])
    decreases |moves|
  {
    if moves != [] {
      TasksGrounded(sys, moves[..|moves| - 1], k);
      hide TaskGrounded, AtStart, Next;
      StepGrounded(sys, moves, k);
    }
  }

  lemma HolderAdmitted(sys: Sys, s0: Sql, t: nat, at: real)
    requires LockInv(sys, s0) && t in sys.tasks && sys.tasks[t].pc.Ready? && sys.tasks[t].op.OpRegister?
    ensures sys.tasks[t].admitted == Some(sys.tasks[t].pc.record)
    ensures Next(sys, Write(t), at).store == SqlInsert(sys.store, sys.tasks[t].pc.record, at)
  {
    hide SqlInsert, SameCore, Serial, OrderOk, ReadyOk, HoldingOk;
    assert TaskOk(sys, t);
  }

  /** What a registration inserts is what its own resolve step derived, before it took the lock, from a parent that
      held every pair of it then. */
  lemma RegistrationsNarrowed(sys: Sys, moves: seq<(Move, real)>, k: nat, at: real)
    requires AtStart(sys) && k in sys.tasks
    requires var end := After(sys, moves);
             k in end.tasks && end.tasks[k].op.OpRegister? && end.tasks[k].pc.Ready?
    ensures var end := After(sys, moves);
            && (exists j: nat :: ResolvedAt(sys, moves, j, k, end.tasks[k].op, end.tasks[k].pc.record)
                            && k !in After(sys, moves[..j]).order)
            && Next(end, Write(k), at).store == SqlInsert(end.store, end.tasks[k].pc.record, at)
  {
    hide SqlInsert, LockInv, AtStart, Next, After, NarrowedBy, ParentOf, Resolve;
    var end := After(sys, moves);
    TasksGrounded(sys, moves, k);
    EveryInterleaving(sys, moves);
    HolderAdmitted(end, sys.store, k, at);
    var j: nat :| ResolvedAt(sys, moves, j, k, end.tasks[k].op, end.tasks[k].pc.record);
    EveryInterleaving(sys, moves[..j]);
    WaitingUnordered(After(sys, moves[..j]), sys.store, k);
  }

  /** A call that waits has not had the lock. */
  lemma WaitingUnordered(sys: Sys, s0: Sql, k: nat)
    requires LockInv(sys, s0) && k in sys.tasks && sys.tasks[k].pc.Waiting?
    ensures k !in sys.order
  {
    hide SameCore, Serial, OrderOk, ReadyOk, HoldingOk;
    assert TaskOk(sys, k);
  }

  /** No call appears or disappears on the way. */
  lemma {:induction false} SameTasks(sys: Sys, moves: seq<(Move, real)>)
    ensures After(sys, moves).tasks.Keys == sys.tasks.Keys
  {
    if moves != [] {
      SameTasks(sys, moves[..|moves| - 1]);
      hide Resolve, ParentOf, Prepared, Read, Effect, SyncRows;
    }
  }

  // ---- No granted permission is lost ----

  ghost predicate GrantHeld(s: Sql, n: string, g: Grant) {
    n in s.rows && RowToRecord(s.rows[n]).Some? && g in RowToRecord(s.rows[n]).value.grants
  }

  /** A write that takes grant g away from the name: a registration under the name without the grant, or under
      another name with the row's id; its deregistration; a removal that leaves no such grant. */
  predicate Undoing(s: Sql, op: Op, n: string, g: Grant)
    requires n in s.rows && RowToRecord(s.rows[n]).Some?
  {
    match op
    case OpRegister(r) => if r.name == n then g !in r.grants else r.agentId == s.rows[n].agentId
    case OpDeregister(name) => name == n
    case OpRemoveGrant(name, id) => name == n && g !in Remaining(RowToRecord(s.rows[n]).value.grants, id)
    case _ => false
  }

  ghost predicate WritesUndoing(sys: Sys, move: Move, n: string, g: Grant)
    requires n in sys.store.rows && RowToRecord(sys.store.rows[n]).Some?
  {
    move.Write? && move.task in sys.tasks && sys.tasks[move.task].pc.Ready?
    && Undoing(sys.store, sys.tasks[move.task].op, n, g)
  }

  lemma GrantsOfSame(a: AgentRecord, b: AgentRecord)
    requires SameButTrust(a, b)
    ensures a.grants == b.grants
  {
  }

  lemma ComputedGrants(s: Sql, op: Op, r: AgentRecord)
    requires Prepared(s, op, r, 0.0).1.Ok?
    ensures var grants := Prepared(s, op, r, 0.0).1.value.grants;
            match op
            case OpAddGrant(_, g) => grants == r.grants + [g]
            case OpRemoveGrant(_, id) => grants == Remaining(r.grants, id)
            case _ => grants == r.grants
  {
    hide AfterEvent, AfterSet, ScorerFor, GrantRefusal, Reading, TierFor;
  }

  lemma SaveStores(s: Sql, r: AgentRecord, at: real)
    requires r.name in s.rows && RowToRecord(s.rows[r.name]).Some?
    ensures var row := Save(s, r, at).rows[r.name]; RowToRecord(row).Some? && RowToRecord(row).value.grants == r.grants
  {
    UpdatedRow(s.rows[r.name], Touched(r, at));
    hide RowToRecord, RecordToRow, UpdateRow;
  }

  /** A saving call leaves exactly the grants it computed from the row. */
  lemma WriteHolds(s: Sql, op: Op, r: AgentRecord, at: real)
    requires TableOk(s.rows) && Mutator(op) && !op.OpRegister? && !op.OpDeregister?
    requires ReadyOk(s, op, r)
    ensures r.name == Target(op)
    ensures var n := Target(op);
            var row := Save(s, r, at).rows[n];
            var grants := RowToRecord(s.rows[n]).value.grants;
            RowToRecord(row).Some?
            && RowToRecord(row).value.grants
               == match op
                  case OpAddGrant(_, g) => grants + [g]
                  case OpRemoveGrant(_, id) => Remaining(grants, id)
                  case _ => grants
  {
    var n := Target(op);
    var row := RowToRecord(s.rows[n]).value;
    DecodedName(s.rows[n]);
    assert RowOk(n, s.rows[n]);
    ReflexiveCore(s);
    SameAsItself(row);
    PreparedCore(s, s, op, row, row, 0.0, 0.0);
    ComputedGrants(s, op, row);
    var out := Prepared(s, op, row, 0.0).1.value;
    GrantsOfSame(out, r);
    assert r.name == n by { assert Bare(out).name == Bare(r).name; }
    SaveStores(s, r, at);
    hide *;
  }

  lemma SameAsItself(r: AgentRecord)
    ensures SameButTrust(r, r)
  {
  }

  lemma OtherRowHolds(s: Sql, r: AgentRecord, at: real, n: string, g: Grant)
    requires GrantHeld(s, n, g) && r.name != n
    ensures GrantHeld(Save(s, r, at), n, g)
  {
    hide RowToRecord, RecordToRow, UpdateRow;
  }

  lemma HolderReady(sys: Sys, s0: Sql, t: nat)
    requires LockInv(sys, s0) && t in sys.tasks && sys.tasks[t].pc.Ready? && !sys.tasks[t].op.OpRegister?
    ensures TableOk(sys.store.rows) && ReadyOk(sys.store, sys.tasks[t].op, sys.tasks[t].pc.record)
  {
    hide TableOk, ReadyOk, Serial, SameCoreRow, OrderOk;
    assert TaskOk(sys, t);
  }

  lemma TrustBackHolds(s: Sql, at: real, n: string, g: Grant)
    requires GrantHeld(s, n, g)
    ensures GrantHeld(SyncRows(s, at), n, g)
  {
    if n in s.scorers {
      SyncRowCore(s.rows[n], s.scorers[n], at);
      GrantsOfSame(RowToRecord(SyncRows(s, at).rows[n]).value, RowToRecord(s.rows[n]).value);
    }
    hide RowToRecord, SyncRow;
  }

  /** What inserting a record does to a grant held under a name. */
  lemma InsertHolds(s: Sql, r: AgentRecord, at: real, n: string, g: Grant)
    requires GrantHeld(s, n, g)
    ensures GrantHeld(SqlInsert(s, r, at), n, g)
       <==> if r.name == n then g in r.grants else r.agentId != s.rows[n].agentId
  {
    RowColumns(Touched(r, at));
    RowRoundTrip(Touched(r, at));
    hide RowToRecord, RecordToRow;
  }

  /** In every reachable state, a step takes a stored grant away exactly when it is a write that undoes it. */
  lemma GrantSurvivesIff(sys: Sys, moves: seq<(Move, real)>, move: Move, at: real, n: string, g: Grant)
    requires AtStart(sys) && GrantHeld(After(sys, moves).store, n, g)
    ensures GrantHeld(Next(After(sys, moves), move, at).store, n, g) <==> !WritesUndoing(After(sys, moves), move, n, g)
  {
    hide LockInv, AtStart, After, Prepared, Resolve, ParentOf, SyncRows, Effect, RowToRecord, Read, ReadyOk, TableOk,
         SqlInsert, GrantHeld, Undoing;
    EveryInterleaving(sys, moves);
    var now := After(sys, moves);
    HeldDecodes(now.store, n, g);
    if move.WriteTrustBack? {
      TrustBackHolds(now.store, at, n, g);
    } else if move.task in now.tasks {
      var task := now.tasks[move.task];
      if move.Write? && task.pc.Ready? {
        if task.op.OpRegister? {
          RegistrationHolds(sys, moves, move.task, at, n, g);
        } else {
          HolderReady(now, sys.store, move.task);
          WriteSurvivesIff(now.store, task.op, task.pc.record, at, n, g);
          ReadyTarget(now.store, task.op, task.pc.record);
        }
      } else if move.Prepare? && task.pc.Holding? {
        PreparedRows(now.store, task.op, task.pc.read, at);
        RowsHold(now.store, Prepared(now.store, task.op, task.pc.read, at).0, n, g);
      }
    }
  }

  lemma HeldDecodes(s: Sql, n: string, g: Grant)
    requires GrantHeld(s, n, g)
    ensures n in s.rows && RowToRecord(s.rows[n]).Some?
  {
  }

  lemma RowsHold(s: Sql, s1: Sql, n: string, g: Grant)
    requires GrantHeld(s, n, g) && s1.rows == s.rows
    ensures GrantHeld(s1, n, g)
  {
  }

  lemma RegistrationHolds(sys: Sys, moves: seq<(Move, real)>, k: nat, at: real, n: string, g: Grant)
    requires AtStart(sys) && GrantHeld(After(sys, moves).store, n, g)
    requires k in After(sys, moves).tasks && After(sys, moves).tasks[k].pc.Ready?
    requires After(sys, moves).tasks[k].op.OpRegister?
    ensures GrantHeld(Next(After(sys, moves), Write(k), at).store, n, g)
       <==> !Undoing(After(sys, moves).store, After(sys, moves).tasks[k].op, n, g)
  {
    hide AtStart, After, Next, SqlInsert, Resolve, ParentOf, RowToRecord;
    var end := After(sys, moves);
    SameTasks(sys, moves);
    RegistrationsNarrowed(sys, moves, k, at);
    InsertHolds(end.store, end.tasks[k].pc.record, at, n, g);
  }

  lemma WriteSurvivesIff(s: Sql, op: Op, r: AgentRecord, at: real, n: string, g: Grant)
    requires TableOk(s.rows) && !op.OpRegister? && ReadyOk(s, op, r)
    requires GrantHeld(s, n, g)
    ensures GrantHeld(Effect(s, op, r, at), n, g) <==> !Undoing(s, op, n, g)
  {
    hide Save, Prepared, TableOk, RowToRecord, Remaining, ReadyOk;
    if !op.OpDeregister? {
      ReadyTarget(s, op, r);
      WriteHolds(s, op, r, at);
      if Target(op) == n {
        SaveKeepsNames(s, r, at);
      } else {
        OtherRowHolds(s, r, at, n, g);
      }
    }
  }

  lemma ReadyTarget(s: Sql, op: Op, r: AgentRecord)
    requires ReadyOk(s, op, r)
    ensures Mutator(op) && Target(op) in s.rows
  {
  }

  lemma SaveKeepsNames(s: Sql, r: AgentRecord, at: real)
    ensures Save(s, r, at).rows.Keys == s.rows.Keys
  {
    hide UpdateRow, RecordToRow;
  }

  lemma WriteStores(sys: Sys, t: nat, at: real)
    requires t in sys.tasks && sys.tasks[t].op.OpAddGrant? && sys.tasks[t].pc.Ready?
    ensures Next(sys, Write(t), at).store == Save(sys.store, sys.tasks[t].pc.record, at)
  {
    hide Save;
  }

  /** The write of an `add_grant` puts its grant in the row. */
  lemma GrantWritten(sys: Sys, s0: Sql, t: nat, at: real)
    requires LockInv(sys, s0) && t in sys.tasks && sys.tasks[t].op.OpAddGrant? && sys.tasks[t].pc.Ready?
    ensures GrantHeld(Next(sys, Write(t), at).store, sys.tasks[t].op.name, sys.tasks[t].op.grant)
  {
    hide LockInv, Next, Save, ReadyOk, TableOk, RowToRecord;
    HolderReady(sys, s0, t);
    WriteStores(sys, t, at);
    ReadyTarget(sys.store, sys.tasks[t].op, sys.tasks[t].pc.record);
    WriteHolds(sys.store, sys.tasks[t].op, sys.tasks[t].pc.record, at);
    SaveKeepsNames(sys.store, sys.tasks[t].pc.record, at);
  }

  /** Step j is no write that undoes the grant, or finds it gone already. */
  ghost predicate Harmless(sys: Sys, moves: seq<(Move, real)>, j: nat, n: string, g: Grant)
    requires j < |moves|
  {
    var s := After(sys, moves[..j]);
    GrantHeld(s.store, n, g) ==> !WritesUndoing(s, moves[j].0, n, g)
  }

  /** Once an `add_grant` has written, its grant is in the row at the end of every interleaving in which no later
      write undoes it; and every write that does undo it, GrantSurvivesIff says, takes it away. */
  lemma {:induction false} NoGrantLost(sys: Sys, moves: seq<(Move, real)>, i: nat)
    requires AtStart(sys) && i < |moves| && moves[i].0.Write?
    requires var w := After(sys, moves[..i]);
             && moves[i].0.task in w.tasks
             && w.tasks[moves[i].0.task].op.OpAddGrant? && w.tasks[moves[i].0.task].pc.Ready?
    requires var op := After(sys, moves[..i]).tasks[moves[i].0.task].op;
             forall j :: i < j < |moves| ==> Harmless(sys, moves, j, op.name, op.grant)
    ensures var op := After(sys, moves[..i]).tasks[moves[i].0.task].op;
            GrantHeld(After(sys, moves).store, op.name, op.grant)
    decreases |moves|
  {
    hide LockInv, Next, GrantHeld, AtStart, WritesUndoing;
    var n := |moves| - 1;
    var before := After(sys, moves[..n]);
    var op := After(sys, moves[..i]).tasks[moves[i].0.task].op;
    EveryInterleaving(sys, moves[..n]);
    if n == i {
      GrantWritten(before, sys.store, moves[i].0.task, moves[i].1);
    } else {
      assert moves[..n][..i] == moves[..i];
      forall j | i < j < n ensures Harmless(sys, moves[..n], j, op.name, op.grant) {
        assert Harmless(sys, moves, j, op.name, op.grant);
        assert moves[..n][..j] == moves[..j];
      }
      NoGrantLost(sys, moves[..n], i);
      assert Harmless(sys, moves, n, op.name, op.grant);
      GrantSurvivesIff(sys, moves[..n], moves[n].0, moves[n].1, op.name, op.grant);
    }
  }
}
