/** The interleaved model run by one task: what its moves do when no other task comes between them. */
module CallAlone {
  import opened Common
  import opened Model
  import opened LinearTrust
  import opened MemoryRegistry
  import opened SqliteRows
  import opened SqliteStore
  import opened WriteLock

  /** The moves of one call, in program order. */
  function MovesOf(t: nat): seq<Move> {
    [ResolveParent(t), Acquire(t), ReadRow(t), Prepare(t), Write(t), Release(t)]
  }

  /** The moves one after the other at one instant; those that do not concern the call change nothing. */
  ghost function Played(sys: Sys, moves: seq<Move>, at: real): Sys
    decreases |moves|
  {
    if moves == [] then sys else Played(Next(sys, moves[0], at), moves[1..], at)
  }

  lemma PlayedNext(sys: Sys, move: Move, rest: seq<Move>, at: real)
    ensures Played(sys, [move] + rest, at) == Played(Next(sys, move, at), rest, at)
  {
    hide Next;
    assert ([move] + rest)[1..] == rest;
  }

  lemma PlayedAll(sys: Sys, t: nat, at: real)
    ensures Played(sys, MovesOf(t), at)
         == Next(Next(Next(Next(Next(Next(sys, ResolveParent(t), at), Acquire(t), at), ReadRow(t), at), Prepare(t), at),
                      Write(t), at), Release(t), at)
  {
    hide Next;
    var s1 := Next(sys, ResolveParent(t), at);
    var s2 := Next(s1, Acquire(t), at);
    var s3 := Next(s2, ReadRow(t), at);
    var s4 := Next(s3, Prepare(t), at);
    var s5 := Next(s4, Write(t), at);
    assert MovesOf(t) == [ResolveParent(t)] + MovesOf(t)[1..];
    PlayedNext(sys, ResolveParent(t), MovesOf(t)[1..], at);
    assert MovesOf(t)[1..] == [Acquire(t)] + MovesOf(t)[2..];
    PlayedNext(s1, Acquire(t), MovesOf(t)[2..], at);
    assert MovesOf(t)[2..] == [ReadRow(t)] + MovesOf(t)[3..];
    PlayedNext(s2, ReadRow(t), MovesOf(t)[3..], at);
    assert MovesOf(t)[3..] == [Prepare(t)] + MovesOf(t)[4..];
    PlayedNext(s3, Prepare(t), MovesOf(t)[4..], at);
    assert MovesOf(t)[4..] == [Write(t)] + MovesOf(t)[5..];
    PlayedNext(s4, Write(t), MovesOf(t)[5..], at);
    assert MovesOf(t)[5..] == [Release(t)] + [];
    PlayedNext(s5, Release(t), [], at);
  }

  /** A call that has not begun, with the lock free. */
  ghost predicate Fresh(sys: Sys, t: nat) {
    && sys.holder.None? && t in sys.tasks && Mutator(sys.tasks[t].op)
    && sys.tasks[t].pc == Waiting && sys.tasks[t].admitted.None?
  }

  /** What is left when the call has ended: the lock free, no other task moved. */
  ghost predicate Ended(sys: Sys, t: nat, after: Sys, store: Sql, failure: Option<RegistryError>) {
    && after.holder.None? && after.tasks.Keys == sys.tasks.Keys
    && (forall u :: u in sys.tasks && u != t ==> after.tasks[u] == sys.tasks[u])
    && t in after.tasks && after.tasks[t].pc == Finished(failure)
    && after.store == store
  }

  lemma RegistrationAlone(sys: Sys, t: nat, at: real)
    requires Fresh(sys, t) && sys.tasks[t].op.OpRegister?
    ensures var s := sys.store;
            var after := Played(sys, MovesOf(t), at);
            var resolved := Resolve(s, sys.tasks[t].op.record, at);
            && (resolved.Err? ==> Ended(sys, t, after, s, Some(resolved.error)))
            && (resolved.Ok? ==> Ended(sys, t, after, SqlInsert(s, resolved.value, at), None))
  {
    PlayedAll(sys, t, at);
    hide Resolve, Read, SqlInsert, Prepared, ParentOf, SyncRows, Save, Played, MovesOf;
  }

  /** The rows, the scorers and the failure of a section that reads its row. */
  ghost function SectionOf(s: Sql, op: Op, at: real): (Sql, Option<RegistryError>)
    requires Mutator(op) && !op.OpRegister?
  {
    match Read(s, op.name, at)
    case None => (s, Some(AgentNotFound(op.name)))
    case Some(r) =>
      var (s1, out) := Prepared(s, op, r, at);
      match out case Err(e) => (s, Some(e)) case Ok(r1) => (Effect(s1, op, r1, at), None)
  }

  lemma SectionAlone(sys: Sys, t: nat, at: real)
    requires Fresh(sys, t) && !sys.tasks[t].op.OpRegister?
    ensures var (s1, failure) := SectionOf(sys.store, sys.tasks[t].op, at);
            Ended(sys, t, Played(sys, MovesOf(t), at), s1, failure)
  {
    PlayedAll(sys, t, at);
    hide Resolve, Read, Effect, Prepared, ParentOf, SyncRows, Played, MovesOf;
  }

  lemma PreparedRows(s: Sql, op: Op, r: AgentRecord, at: real)
    ensures var (s1, out) := Prepared(s, op, r, at);
            s1.rows == s.rows && (out.Ok? ==> out.value.name == r.name)
  {
    hide GrantIndex, GrantRefusal, AfterEvent, AfterSet, ScorerFor, Reading, TierFor;
  }

  lemma SavedReads(s: Sql, q: Sql, r: AgentRecord, at: real)
    requires TableOk(s.rows) && q.rows == s.rows && r.name in s.rows
    ensures Read(Save(q, r, at), r.name, at).Some?
  {
    SaveTable(q, r, at);
    assert RowOk(r.name, Save(q, r, at).rows[r.name]);
    hide RowToRecord, TableOk;
  }

  /** What the call raises is what its section fails with. */
  lemma SectionFails(s: Sql, op: Op, at: real)
    requires TableOk(s.rows) && Mutator(op) && !op.OpRegister?
    ensures var out, failure := SqlStep(s, op, at).1, SectionOf(s, op, at).1;
            (failure.Some? ==> out == Raised(failure.value)) && (failure.None? ==> !out.Raised?)
  {
    if Read(s, op.name, at).Some? {
      var r := Read(s, op.name, at).value;
      ReadName(s, op.name, at);
      PreparedRows(s, op, r, at);
      var (s1, out) := Prepared(s, op, r, at);
      if out.Ok? {
        SavedReads(s, s1, out.value, at);
      }
    }
    hide TableOk, Read, GrantIndex, GrantRefusal, Synced, AfterEvent, AfterSet, ScorerFor, Save, Reading, TierFor;
  }

  lemma SectionIsTheCall(s: Sql, op: Op, at: real)
    requires TableOk(s.rows) && Mutator(op) && !op.OpRegister?
    ensures var s1 := SectionOf(s, op, at).0;
            s1.rows == SqlStep(s, op, at).0.rows && s1.scorers == SqlStep(s, op, at).0.scorers
  {
    SerialIsTheCall(s, Commit(0, op, None, at, at));
    hide Read, Prepared, Effect, SqlStep, TableOk;
  }

  lemma RegistrationIsTheCall(s: Sql, record: AgentRecord, at: real)
    requires TableOk(s.rows)
    ensures var (s1, out) := SqlStep(s, OpRegister(record), at);
            var resolved := Resolve(s, record, at);
            && (resolved.Err? ==> s1 == s && out == Raised(resolved.error))
            && (resolved.Ok? ==> s1 == SqlInsert(s, resolved.value, at) && !out.Raised?)
  {
    hide TableOk, Resolve, RowToRecord, RecordToRow, SyncTrust;
    var resolved := Resolve(s, record, at);
    if resolved.Ok? {
      var r := resolved.value;
      InsertTable(s.rows, Touched(r, at));
      InsertedRow(s, r, at);
    }
  }

  lemma InsertedRow(s: Sql, r: AgentRecord, at: real)
    requires TableOk(SqlInsert(s, r, at).rows)
    ensures Read(SqlInsert(s, r, at), r.name, at).Some?
  {
    RowColumns(Touched(r, at));
    assert RowOk(r.name, SqlInsert(s, r, at).rows[r.name]);
    hide RowToRecord, RecordToRow, TableOk;
  }

  /** A call that finds the lock free and runs without interruption leaves the rows and scorers of the sequential call,
      ends with its error or without one, gives the lock back and touches no other task. */
  lemma AloneIsTheCall(sys: Sys, t: nat, at: real)
    requires TableOk(sys.store.rows) && Fresh(sys, t)
    ensures var after := Played(sys, MovesOf(t), at);
            var (s1, out) := SqlStep(sys.store, sys.tasks[t].op, at);
            && after.store.rows == s1.rows && after.store.scorers == s1.scorers
            && Ended(sys, t, after, after.store, if out.Raised? then Some(out.error) else None)
  {
    var op := sys.tasks[t].op;
    hide Played, MovesOf, SqlStep, TableOk, SectionOf, SqlInsert, Resolve, Ended;
    if op.OpRegister? {
      RegistrationAlone(sys, t, at);
      RegistrationIsTheCall(sys.store, op.record, at);
      var resolved := Resolve(sys.store, op.record, at);
      EndedStore(sys, t, Played(sys, MovesOf(t), at),
                 if resolved.Ok? then SqlInsert(sys.store, resolved.value, at) else sys.store,
                 if resolved.Ok? then None else Some(resolved.error));
    } else {
      SectionAlone(sys, t, at);
      SectionFails(sys.store, op, at);
      SectionIsTheCall(sys.store, op, at);
      EndedStore(sys, t, Played(sys, MovesOf(t), at), SectionOf(sys.store, op, at).0, SectionOf(sys.store, op, at).1);
    }
  }

  lemma EndedStore(sys: Sys, t: nat, after: Sys, store: Sql, failure: Option<RegistryError>)
    requires Ended(sys, t, after, store, failure)
    ensures after.store == store
  {
  }

  /** The write-back of a listing by tier is the one move that needs no lock, and moves nothing else. */
  lemma TrustBackIsTheListing(sys: Sys, f: Filter, at: real)
    requires f.tier.Some?
    ensures Next(sys, WriteTrustBack, at) == sys.(store := SqlList(sys.store, f, at).0)
  {
    hide SyncRows, SqlListed;
  }
}
