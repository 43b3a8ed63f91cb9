/** Trust under the write lock: the scorers that SqliteRegistry keeps in memory, through every interleaving of its
    mutators. A trust call moves its scorer when it computes its effect, before the row is written. */
module TrustUnderLock {
  import opened Common
  import opened Model
  import opened LinearTrust
  import opened MemoryRegistry
  import opened SqliteRows
  import opened SqliteStore
  import opened BackendSimulation
  import opened WriteLock

  /** The value in the trust column of the name. */
  function StoredTrust(s: Sql, n: string): real {
    if n in s.rows && RowToRecord(s.rows[n]).Some? then RowToRecord(s.rows[n]).value.trustValue else 0.0
  }

  predicate TrustCall(op: Op) {
    op.OpTrustEvent? || op.OpSetTrust?
  }

  /** The scorer of the name, rebuilt from its row if need be, after the call. */
  function MovedScorer(s: Sql, op: Op, at: real): LinearState
    requires TrustCall(op)
  {
    var mover := if op.name in s.scorers then s.scorers[op.name]
                 else Initial(StoredTrust(s, op.name), DEFAULT_DECAY_RATE, None, at);
    match op
    case OpTrustEvent(_, e) => AfterEvent(mover, e, at)
    case OpSetTrust(_, v) => AfterSet(mover, v, at)
  }

  predicate HolderMoved(sys: Sys) {
    && sys.holder.Some? && sys.holder.value in sys.tasks
    && sys.tasks[sys.holder.value].pc.Ready? && TrustCall(sys.tasks[sys.holder.value].op)
  }

  /** The scorers of the serial run, with the move of a holder that has moved its scorer and not written yet. */
  function Due(sys: Sys, u: Sql): map<string, LinearState> {
    if HolderMoved(sys) then
      var task := sys.tasks[sys.holder.value];
      u.scorers[task.op.name := MovedScorer(u, task.op, task.pc.prepared)]
    else u.scorers
  }

  /** Where there is no scorer to overwrite it, the trust column is that of the serial run. */
  ghost predicate Level(s: Sql, u: Sql) {
    forall n :: n in s.rows && n !in s.scorers ==> StoredTrust(s, n) == StoredTrust(u, n)
  }

  /** So is the value of a record in a call's hand that will be written back. */
  predicate InHand(task: Task, u: Sql) {
    Mutator(task.op) && Target(task.op) !in u.scorers ==>
      match task.pc
      case Holding(read) => read.trustValue == StoredTrust(u, Target(task.op))
      case Ready(r, _) => task.op.OpRegister? || TrustCall(task.op) || r.trustValue == StoredTrust(u, Target(task.op))
      case _ => true
  }

  ghost predicate TrustInv(sys: Sys, s0: Sql) {
    var u := Serial(s0, sys.log);
    && sys.store.scorers == Due(sys, u)
    && Level(sys.store, u)
    && (sys.holder.Some? && sys.holder.value in sys.tasks ==> InHand(sys.tasks[sys.holder.value], u))
  }

  // ---- What the parts of a section do to trust ----

  lemma ReadTrust(s: Sql, n: string, at: real)
    requires TableOk(s.rows) && n in s.rows
    ensures Read(s, n, at).Some? && Read(s, n, at).value.name == n
    ensures n !in s.scorers ==> Read(s, n, at).value.trustValue == StoredTrust(s, n)
  {
    assert RowOk(n, s.rows[n]);
    DecodedName(s.rows[n]);
    hide RowToRecord, Reading, TierFor;
  }

  lemma PreparedTrust(s: Sql, op: Op, r: AgentRecord, at: real)
    requires Mutator(op) && !op.OpRegister? && r.name == Target(op)
    requires TrustCall(op) && op.name !in s.scorers ==> r.trustValue == StoredTrust(s, op.name)
    ensures var (s1, out) := Prepared(s, op, r, at);
            && s1.rows == s.rows
            && (if TrustCall(op) then out.Ok? && s1.scorers == s.scorers[op.name := MovedScorer(s, op, at)]
                else s1 == s && (out.Ok? ==> out.value.trustValue == r.trustValue))
  {
    hide StoredTrust, Reading, TierFor, AfterEvent, AfterSet, GrantRefusal, GrantIndex, Initial;
  }

  lemma SaveTrust(s: Sql, r: AgentRecord, at: real)
    requires TableOk(s.rows)
    ensures var s1 := Save(s, r, at);
            && s1.scorers == s.scorers && s1.rows.Keys == s.rows.Keys
            && forall n :: StoredTrust(s1, n) == if n == r.name && n in s.rows then r.trustValue else StoredTrust(s, n)
  {
    if r.name in s.rows {
      assert RowOk(r.name, s.rows[r.name]);
      UpdatedRow(s.rows[r.name], Touched(r, at));
    }
    hide RowToRecord, RecordToRow, UpdateRow, TableOk;
  }

  lemma SaveLevel(s: Sql, u: Sql, r: AgentRecord, q: AgentRecord, at: real)
    requires TableOk(s.rows) && TableOk(u.rows) && s.rows.Keys == u.rows.Keys && r.name == q.name
    requires forall n :: n in s.rows && n !in s.scorers && n != r.name ==> StoredTrust(s, n) == StoredTrust(u, n)
    requires r.name !in s.scorers ==> r.trustValue == q.trustValue
    ensures Level(Save(s, r, at), Save(u, q, at))
  {
    SaveTrust(s, r, at);
    SaveTrust(u, q, at);
    hide StoredTrust, Save, TableOk;
  }

  lemma InsertLevel(s: Sql, u: Sql, r: AgentRecord, at: real)
    requires SameCore(s, u) && s.scorers == u.scorers && Level(s, u)
    ensures SqlInsert(s, r, at).scorers == SqlInsert(u, r, at).scorers
    ensures Level(SqlInsert(s, r, at), SqlInsert(u, r, at))
  {
    forall n | n in s.rows ensures s.rows[n].agentId == u.rows[n].agentId {
      assert SameCoreRow(s.rows[n], u.rows[n]);
    }
    hide SameCoreRow, RowToRecord, RecordToRow, TableOk, Touched, Initial;
  }

  lemma DeleteLevel(s: Sql, u: Sql, n: string)
    requires Level(s, u) && s.scorers == u.scorers
    ensures Level(s.(rows := s.rows - {n}, scorers := s.scorers - {n}),
                  u.(rows := u.rows - {n}, scorers := u.scorers - {n}))
  {
    forall m | m in s.rows && m != n && m !in s.scorers ensures StoredTrust(s, m) == StoredTrust(u, m) {}
    hide RowToRecord;
  }

  lemma TrustBackLevel(s: Sql, u: Sql, at: real)
    requires Level(s, u)
    ensures Level(SyncRows(s, at), u)
  {
    forall n | n in s.rows && n !in s.scorers ensures StoredTrust(SyncRows(s, at), n) == StoredTrust(s, n) {
      hide RowToRecord, SyncRow;
    }
    hide StoredTrust, SyncRow;
  }

  lemma CoreParts(s: Sql, u: Sql)
    requires SameCore(s, u)
    ensures TableOk(s.rows) && TableOk(u.rows) && s.rows.Keys == u.rows.Keys
  {
    hide TableOk, SameCoreRow;
  }

  /** The write of a call that is no registration, against the same section of the serial run. */
  lemma WriteLevel(s: Sql, u: Sql, c: Commit, r: AgentRecord)
    requires SameCore(s, u) && Mutator(c.op) && !c.op.OpRegister? && c.admitted.None? && ReadyOk(s, c.op, r)
    requires Level(s, u)
    requires if TrustCall(c.op) then s.scorers == u.scorers[c.op.name := MovedScorer(u, c.op, c.prepared)]
             else s.scorers == u.scorers
                  && (Target(c.op) !in u.scorers ==> r.trustValue == StoredTrust(u, Target(c.op)))
    ensures Effect(s, c.op, r, c.at).scorers == SerialStep(u, c).scorers
    ensures Level(Effect(s, c.op, r, c.at), SerialStep(u, c))
  {
    hide SameCore, TableOk, RowToRecord, Read, Prepared, Save, MovedScorer, ReadyOk, SameButTrust, StoredTrust, Level;
    var n := Target(c.op);
    CoreParts(s, u);
    ReadyTarget(s, c.op, r);
    ReadyDecodes(s, c.op, r);
    SameAsItself(RowToRecord(s.rows[n]).value);
    SerialComputes(s, u, c.op, RowToRecord(s.rows[n]).value, 0.0, c.prepared);
    ReadyComputes(s, c.op, r);
    ReadTrust(u, n, c.prepared);
    var q := Read(u, n, c.prepared).value;
    PreparedTrust(u, c.op, q, c.prepared);
    var (u1, out) := Prepared(u, c.op, q, c.prepared);
    if c.op.OpDeregister? {
      DeleteLevel(s, u, n);
    } else {
      WriteHolds(s, c.op, r, c.at);
      PreparedName(u, c.op, q, c.prepared);
      SaveTrust(s, r, c.at);
      SaveTrust(u1, out.value, c.at);
      LevelButOne(s, u, u1, n);
      SaveLevel(s, u1, r, out.value, c.at);
    }
  }

  lemma LevelButOne(s: Sql, u: Sql, u1: Sql, n: string)
    requires Level(s, u) && u1.rows == u.rows
    ensures forall m :: m in s.rows && m !in s.scorers && m != n ==> StoredTrust(s, m) == StoredTrust(u1, m)
  {
    hide RowToRecord;
  }

  lemma PreparedName(s: Sql, op: Op, r: AgentRecord, at: real)
    ensures Prepared(s, op, r, at).1.Ok? ==> Prepared(s, op, r, at).1.value.name == r.name
  {
    hide Reading, TierFor, AfterEvent, AfterSet, ScorerFor, GrantRefusal, GrantIndex;
  }

  lemma ReadyDecodes(s: Sql, op: Op, r: AgentRecord)
    requires ReadyOk(s, op, r)
    ensures Mutator(op) && Target(op) in s.rows && RowToRecord(s.rows[Target(op)]).Some?
  {
    hide Prepared, SameButTrust;
  }

  lemma ReadyComputes(s: Sql, op: Op, r: AgentRecord)
    requires ReadyOk(s, op, r)
    ensures Mutator(op) && Target(op) in s.rows && RowToRecord(s.rows[Target(op)]).Some?
    ensures Prepared(s, op, RowToRecord(s.rows[Target(op)]).value, 0.0).1.Ok?
  {
    hide Prepared, SameButTrust;
  }

  // ---- Every interleaving ----

  lemma HolderIs(sys: Sys, s0: Sql, t: nat)
    requires LockInv(sys, s0) && t in sys.tasks
    ensures SameCore(sys.store, Serial(s0, sys.log))
    ensures var pc := sys.tasks[t].pc;
            && (sys.holder == Some(t) <==> pc.Inside? || pc.Holding? || pc.Ready? || pc.Written?)
            && (pc.Admitted? ==> sys.tasks[t].op.OpRegister?)
            && (pc.Inside? || pc.Holding? ==> sys.tasks[t].admitted.None? && !sys.tasks[t].op.OpRegister?)
            && (pc.Holding? ==> HoldingOk(sys.store, sys.tasks[t].op, pc.read))
            && (pc.Ready? ==> if sys.tasks[t].op.OpRegister? then sys.tasks[t].admitted == Some(pc.record)
                              else sys.tasks[t].admitted.None? && ReadyOk(sys.store, sys.tasks[t].op, pc.record))
  {
    hide SameCore, OrderOk, HoldingOk, ReadyOk, Serial;
    assert TaskOk(sys, t);
  }

  lemma FailTrust(sys: Sys, s0: Sql, t: nat, e: RegistryError, at: real)
    requires TrustInv(sys, s0) && t in sys.tasks && sys.holder == Some(t) && !HolderMoved(sys)
    requires var c := Commit(t, sys.tasks[t].op, sys.tasks[t].admitted, at, at);
             SerialStep(Serial(s0, sys.log), c) == Serial(s0, sys.log)
    ensures TrustInv(Failed(sys, t, e, at), s0)
  {
    SerialSnoc(s0, sys.log, Commit(t, sys.tasks[t].op, sys.tasks[t].admitted, at, at));
    hide Serial, SerialStep, Level, MovedScorer;
  }

  lemma ReadRowTrust(sys: Sys, s0: Sql, t: nat, at: real)
    requires LockInv(sys, s0) && TrustInv(sys, s0)
    ensures TrustInv(Next(sys, ReadRow(t), at), s0)
  {
    hide LockInv, SameCore, Serial, SerialStep, Level, MovedScorer, HoldingOk, ReadyOk, Read, StoredTrust, TableOk;
    if t in sys.tasks && Mutator(sys.tasks[t].op) && sys.tasks[t].pc.Inside? {
      var task, u := sys.tasks[t], Serial(s0, sys.log);
      HolderIs(sys, s0, t);
      CoreParts(sys.store, u);
      ReadingFacts(sys.store, u, Commit(t, task.op, task.admitted, at, at));
      var read := Read(sys.store, Target(task.op), at);
      if read.None? {
        FailTrust(sys, s0, t, AgentNotFound(Target(task.op)), at);
      } else {
        ReadFound(sys.store, Target(task.op), at);
        ReadTrust(sys.store, Target(task.op), at);
        LevelAt(sys.store, u, Target(task.op));
      }
    }
  }

  lemma ReadFound(s: Sql, n: string, at: real)
    requires Read(s, n, at).Some?
    ensures n in s.rows
  {
    hide RowToRecord;
  }

  lemma LevelAt(s: Sql, u: Sql, n: string)
    requires Level(s, u) && n in s.rows
    ensures n !in s.scorers ==> StoredTrust(s, n) == StoredTrust(u, n)
  {
    hide StoredTrust;
  }

  lemma PrepareTrust(sys: Sys, s0: Sql, t: nat, at: real)
    requires LockInv(sys, s0) && TrustInv(sys, s0)
    ensures TrustInv(Next(sys, Prepare(t), at), s0)
  {
    hide LockInv, SameCore, Serial, SerialStep, Level, MovedScorer, ReadyOk, Prepared, StoredTrust, TableOk, HoldingOk;
    if t in sys.tasks && Mutator(sys.tasks[t].op) && sys.tasks[t].pc.Holding? {
      var task, u, s := sys.tasks[t], Serial(s0, sys.log), sys.store;
      HolderIs(sys, s0, t);
      CoreParts(s, u);
      HoldingTarget(s, task.op, task.pc.read);
      LevelAt(s, u, Target(task.op));
      PrepareFacts(s, u, Commit(t, task.op, task.admitted, at, at), task.pc.read);
      PreparedTrust(s, task.op, task.pc.read, at);
      var (s1, out) := Prepared(s, task.op, task.pc.read, at);
      if out.Err? {
        FailTrust(sys, s0, t, out.error, at);
      } else {
        LevelMoved(s, s1, u);
        if TrustCall(task.op) {
          SameMove(s, u, task.op, at);
        }
      }
    }
  }

  lemma HoldingTarget(s: Sql, op: Op, read: AgentRecord)
    requires HoldingOk(s, op, read)
    ensures Mutator(op) && Target(op) in s.rows && read.name == Target(op)
  {
    hide RowToRecord, SameButTrust;
  }

  lemma LevelMoved(s: Sql, s1: Sql, u: Sql)
    requires Level(s, u) && s1.rows == s.rows && s.scorers.Keys <= s1.scorers.Keys
    ensures Level(s1, u)
  {
    hide RowToRecord;
  }

  lemma SameMove(s: Sql, u: Sql, op: Op, at: real)
    requires TrustCall(op) && s.scorers == u.scorers
    requires op.name !in s.scorers ==> StoredTrust(s, op.name) == StoredTrust(u, op.name)
    ensures MovedScorer(s, op, at) == MovedScorer(u, op, at)
  {
    hide StoredTrust, AfterEvent, AfterSet, Initial;
  }

  lemma WriteTrust(sys: Sys, s0: Sql, t: nat, at: real)
    requires LockInv(sys, s0) && TrustInv(sys, s0)
    ensures TrustInv(Next(sys, Write(t), at), s0)
  {
    hide LockInv, SameCore, Serial, SerialStep, Level, MovedScorer, ReadyOk, StoredTrust, TableOk, Effect;
    if t in sys.tasks && Mutator(sys.tasks[t].op) && sys.tasks[t].pc.Ready? {
      var task, u, s := sys.tasks[t], Serial(s0, sys.log), sys.store;
      HolderIs(sys, s0, t);
      var c := Commit(t, task.op, task.admitted, task.pc.prepared, at);
      SerialSnoc(s0, sys.log, c);
      if task.op.OpRegister? {
        RegisterLevel(s, u, c, task.pc.record);
      } else {
        WriteLevel(s, u, c, task.pc.record);
      }
    }
  }

  lemma RegisterLevel(s: Sql, u: Sql, c: Commit, r: AgentRecord)
    requires SameCore(s, u) && s.scorers == u.scorers && Level(s, u) && c.op.OpRegister? && c.admitted == Some(r)
    ensures Effect(s, c.op, r, c.at).scorers == SerialStep(u, c).scorers
    ensures Level(Effect(s, c.op, r, c.at), SerialStep(u, c))
  {
    InsertLevel(s, u, r, c.at);
    hide Level, SqlInsert, SameCore;
  }

  lemma QuietTrust(sys: Sys, s0: Sql, move: Move, at: real)
    requires LockInv(sys, s0) && TrustInv(sys, s0) && (move.ResolveParent? || move.Acquire? || move.Release?)
    ensures TrustInv(Next(sys, move, at), s0)
  {
    hide LockInv, SameCore, Serial, Level, MovedScorer, ReadyOk, HoldingOk, StoredTrust, Resolve, ParentOf;
    if move.task in sys.tasks {
      HolderIs(sys, s0, move.task);
    }
  }

  lemma NextTrust(sys: Sys, s0: Sql, move: Move, at: real)
    requires LockInv(sys, s0) && TrustInv(sys, s0)
    ensures TrustInv(Next(sys, move, at), s0)
  {
    hide LockInv, TrustInv, Next;
    match move
    case ReadRow(t) => ReadRowTrust(sys, s0, t, at);
    case Prepare(t) => PrepareTrust(sys, s0, t, at);
    case Write(t) => WriteTrust(sys, s0, t, at);
    case WriteTrustBack => BackTrust(sys, s0, at);
    case _ => QuietTrust(sys, s0, move, at);
  }

  lemma BackTrust(sys: Sys, s0: Sql, at: real)
    requires TrustInv(sys, s0)
    ensures TrustInv(Next(sys, WriteTrustBack, at), s0)
  {
    TrustBackLevel(sys.store, Serial(s0, sys.log), at);
    hide Serial, Level, MovedScorer, InHand;
  }

  lemma TrustAtStart(sys: Sys)
    requires AtStart(sys)
    ensures TrustInv(sys, sys.store)
  {
    hide TableOk, StoredTrust;
  }

  lemma {:induction false} EveryTrustMove(sys: Sys, moves: seq<(Move, real)>)
    requires AtStart(sys)
    ensures TrustInv(After(sys, moves), sys.store)
  {
    hide LockInv, TrustInv, Next, AtStart;
    if moves == [] {
      TrustAtStart(sys);
    } else {
      var n := |moves| - 1;
      EveryTrustMove(sys, moves[..n]);
      EveryInterleaving(sys, moves[..n]);
      NextTrust(After(sys, moves[..n]), sys.store, moves[n].0, moves[n].1);
    }
  }

  /** No concurrent trust event or override is lost: whatever the interleaving, the scorers are those the critical
      sections leave when they run one after the other in lock order, each computing at its own instant, with the one
      move of a call that holds the lock and has not yet written; and where there is no scorer the trust column is the
      serial run's. */
  lemma TrustSerialises(sys: Sys, moves: seq<(Move, real)>)
    requires AtStart(sys)
    ensures var end := After(sys, moves);
            var u := Serial(sys.store, end.log);
            && end.store.scorers == Due(end, u)
            && (!HolderMoved(end) ==> end.store.scorers == u.scorers)
            && forall n :: n in end.store.rows && n !in end.store.scorers ==>
                 StoredTrust(end.store, n) == StoredTrust(u, n)
  {
    EveryTrustMove(sys, moves);
    hide After, Serial, AtStart, StoredTrust, MovedScorer, InHand;
  }

  // ---- Progress ----

  /** How many moves of its own a call in its critical section has left. */
  function Left(pc: Pc): nat {
    match pc
    case Inside => 4
    case Holding(_) => 3
    case Ready(_, _) => 2
    case Written => 1
    case _ => 0
  }

  function NextMove(pc: Pc, t: nat): Move {
    match pc
    case Inside => ReadRow(t)
    case Holding(_) => Prepare(t)
    case Ready(_, _) => Write(t)
    case _ => Release(t)
  }

  /** While a call holds the lock, its own next move is enabled and takes it nearer to giving the lock back, at which
      it has none left; no move of another call takes the lock from it or sets it back. */
  lemma HolderProgresses(sys: Sys, moves: seq<(Move, real)>, move: Move, at: real)
    requires AtStart(sys) && After(sys, moves).holder.Some?
    ensures var now := After(sys, moves);
            var t := now.holder.value;
            && t in now.tasks && Left(now.tasks[t].pc) > 0
            && (var then_ := Next(now, NextMove(now.tasks[t].pc, t), at);
                && t in then_.tasks && Left(then_.tasks[t].pc) < Left(now.tasks[t].pc)
                && (then_.holder == Some(t) <==> Left(then_.tasks[t].pc) > 0)
                && (then_.holder == Some(t) || then_.holder == None))
            && (var other := Next(now, move, at);
                move.WriteTrustBack? || move.task != t ==>
                  other.holder == Some(t) && t in other.tasks && other.tasks[t] == now.tasks[t])
  {
    hide LockInv, Next, After, AtStart, Left, NextMove;
    EveryInterleaving(sys, moves);
    var now := After(sys, moves);
    HolderMutates(now, sys.store);
    OwnMove(now, now.holder.value, at);
    if move.WriteTrustBack? || move.task != now.holder.value {
      OtherMove(now, sys.store, now.holder.value, move, at);
    }
  }

  lemma OwnMove(sys: Sys, t: nat, at: real)
    requires sys.holder == Some(t) && t in sys.tasks && Mutator(sys.tasks[t].op)
    requires var pc := sys.tasks[t].pc; pc.Inside? || pc.Holding? || pc.Ready? || pc.Written?
    ensures Left(sys.tasks[t].pc) > 0
    ensures var then_ := Next(sys, NextMove(sys.tasks[t].pc, t), at);
            && t in then_.tasks && Left(then_.tasks[t].pc) < Left(sys.tasks[t].pc)
            && (then_.holder == Some(t) <==> Left(then_.tasks[t].pc) > 0)
            && (then_.holder == Some(t) || then_.holder == None)
  {
    hide Prepared, Effect, Read, Resolve, ParentOf, SyncRows;
  }

  lemma OtherMove(sys: Sys, s0: Sql, t: nat, move: Move, at: real)
    requires LockInv(sys, s0) && sys.holder == Some(t) && t in sys.tasks
    requires move.WriteTrustBack? || move.task != t
    ensures var other := Next(sys, move, at);
            other.holder == Some(t) && t in other.tasks && other.tasks[t] == sys.tasks[t]
  {
    hide LockInv, Prepared, Effect, Read, Resolve, ParentOf, SyncRows, SameCore, Serial, HoldingOk, ReadyOk;
    if !move.WriteTrustBack? && move.task in sys.tasks {
      HolderIs(sys, s0, move.task);
    }
  }

  lemma HolderMutates(sys: Sys, s0: Sql)
    requires LockInv(sys, s0) && sys.holder.Some?
    ensures var t := sys.holder.value;
            && t in sys.tasks
            && (sys.tasks[t].pc.Inside? || sys.tasks[t].pc.Holding? || sys.tasks[t].pc.Ready? || sys.tasks[t].pc.Written?)
            && Mutator(sys.tasks[t].op)
  {
    hide SameCore, Serial, LogTasks, Distinct, HoldingOk, ReadyOk;
    var t := sys.holder.value;
    assert sys.order[|sys.order| - 1] == t;
    assert TaskOk(sys, t);
    var task := sys.tasks[t];
    if task.pc.Holding? {
      HoldingTarget(sys.store, task.op, task.pc.read);
    } else if task.pc.Ready? && !task.op.OpRegister? {
      ReadyDecodes(sys.store, task.op, task.pc.record);
    }
  }
}
