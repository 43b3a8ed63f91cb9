/** What each call of packages/presidium/src/presidium/registry/sqlite.py does to the row, the scorer and the log it
    touches, column by column. */
module SqliteLaws {
  import opened Common
  import opened Model
  import opened Lineage
  import opened LinearTrust
  import opened MemoryRegistry
  import opened RegistryLaws
  import opened SqliteRows
  import opened SqliteStore
  import BackendSimulation

  /** The record as read: the decoded row, with the trust of the scorer when there is one. */
  lemma ReadIs(s: Sql, n: string, now: real)
    requires TableOk(s.rows)
    ensures var found := Read(s, n, now);
            && (found.Some? <==> n in s.rows)
            && (found.Some? ==>
                  && RowToRecord(s.rows[n]).Some?
                  && var stored := RowToRecord(s.rows[n]).value;
                     && (n !in s.scorers ==> found.value == stored)
                     && (n in s.scorers ==>
                           && Shows(found.value, s.scorers[n], now)
                           && found.value == stored.(trustValue := found.value.trustValue,
                                                     trustTier := found.value.trustTier)))
  {
    if n in s.rows {
      assert RowOk(n, s.rows[n]);
      DecodedName(s.rows[n]);
    }
    hide RowToRecord, Reading, TableOk;
  }

  // ---- Registering ----

  /** The row for the record replaces any row with its id or its name, and a scorer is made unless one is kept. */
  ghost predicate Inserted(s: Sql, r: AgentRecord, s1: Sql, now: real) {
    var n := r.name;
    && n in s1.rows
    && RowToRecord(s1.rows[n]) == Some(r.(revision := r.revision + 1, updatedAt := now))
    && (forall k :: k in s1.rows && k != n ==>
          k in s.rows && s1.rows[k] == s.rows[k] && s.rows[k].agentId != r.agentId)
    && (forall k :: k in s.rows && k !in s1.rows ==> s.rows[k].agentId == r.agentId)
    && n in s1.scorers
    && (if n in s.scorers then s1.scorers[n] == s.scorers[n]
        else NewScorer(s1.scorers[n], r.trustValue, r.trustCeiling, now))
    && s1 == s.(rows := s1.rows, scorers := s.scorers[n := s1.scorers[n]])
  }

  lemma InsertIs(s: Sql, r: AgentRecord, now: real)
    ensures Inserted(s, r, SqlInsert(s, r, now), now)
  {
    RowRoundTrip(Touched(r, now));
    RowColumns(Touched(r, now));
    hide RecordToRow, RowToRecord;
    var s1 := SqlInsert(s, r, now);
    assert s1.scorers == s.scorers[r.name := s1.scorers[r.name]];
  }

  /** A root's row holds the record as given. */
  lemma SqlRegisterRoot(s: Sql, record: AgentRecord, now: real)
    requires record.parentAgentId.None?
    ensures var (s1, answer) := SqlRegister(s, record, now);
            Inserted(s, record, s1, now) && answer == ReadOrRaise(s1, record.name, now)
  {
    InsertIs(s, record, now);
    hide SqlInsert, ReadOrRaise, Inserted;
  }

  /** A child is stored exactly when the parent resolves, holds every pair asked for and leaves room for the depth.
      Its row holds the greatest ceiling and value it may have; a refusal says what is missing and stores nothing. */
  lemma SqlRegisterChild(s: Sql, record: AgentRecord, now: real)
    requires record.parentAgentId.Some?
    ensures var parent := ReadById(s, record.parentAgentId.value, now);
            var (s1, answer) := SqlRegister(s, record, now);
            var fits := parent.Some? && Pairs(record.grants) <= Pairs(parent.value.grants)
                        && parent.value.depth + 1 <= s.maxDepth;
            && (fits ==>
                  && answer == ReadOrRaise(s1, record.name, now)
                  && exists child: AgentRecord ::
                       && Inserted(s, child, s1, now)
                       && Narrowed(parent.value, record, child)
                       && child == record.(trustCeiling := child.trustCeiling, trustValue := child.trustValue,
                                           trustTier := child.trustTier, depth := child.depth))
            && (!fits ==>
                  && s1 == s
                  && answer
                     == Err(if parent.None? then UnresolvableParent(record.parentAgentId.value)
                            else if Pairs(record.grants) <= Pairs(parent.value.grants)
                            then DelegationDepthExceeded(record.name, parent.value.depth + 1, s.maxDepth)
                            else GrantEscalation(record.name, parent.value.name,
                                                 Pairs(record.grants) - Pairs(parent.value.grants))))
  {
    var parent := ReadById(s, record.parentAgentId.value, now);
    hide ReadById, DeriveChild, Pairs, Narrowed, Inserted, SqlInsert, ReadOrRaise;
    if parent.Some? {
      DerivedIff(parent.value, record, s.maxDepth);
      var derived := DeriveChild(parent.value, record, s.maxDepth);
      if derived.Ok? {
        InsertIs(s, derived.value, now);
      }
    }
  }

  // ---- Changing a record ----

  /** The row under the name now holds the record as read, edited, and is what the call answers from; no other row has
      changed. */
  ghost predicate RowEdited(s: Sql, op: Op, s1: Sql, answer: Answer, now: real)
    requires EditsRecord(op)
  {
    var n := op.name;
    && Read(s, n, now).Some? && n in s.rows && n in s1.rows && s1.rows == s.rows[n := s1.rows[n]]
    && RowToRecord(s1.rows[n]).Some?
    && Edited(op, Read(s, n, now).value, RowToRecord(s1.rows[n]).value, now)
    && s1.maxDepth == s.maxDepth
    && answer == ReadOrRaise(s1, n, now)
  }

  lemma ReadRow(s: Sql, n: string, now: real)
    requires TableOk(s.rows) && n in s.rows
    ensures RowToRecord(s.rows[n]).Some? && Read(s, n, now).Some?
    ensures var r := Read(s, n, now).value;
            r.name == n && r.agentId == s.rows[n].agentId && r.createdAt == TimeOf(s.rows[n].createdAt)
    ensures s.rows[n].name == n
  {
    assert RowOk(n, s.rows[n]);
    hide DictsToGrants, TierNamed, StatusNamed, Reading, TierFor;
  }

  /** A record read from its row, changed in other fields and saved, is what the row then holds. */
  lemma SavedIs(s: Sql, s0: Sql, r: AgentRecord, now: real)
    requires TableOk(s.rows) && r.name in s.rows && s0.rows == s.rows
    requires var was := Read(s, r.name, now);
             was.Some? ==> r.agentId == was.value.agentId && r.createdAt == was.value.createdAt
    ensures var s1 := Save(s0, r, now);
            && r.name in s1.rows && s1 == s0.(rows := s.rows[r.name := s1.rows[r.name]])
            && RowToRecord(s1.rows[r.name]) == Some(r.(revision := r.revision + 1, updatedAt := now))
  {
    ReadRow(s, r.name, now);
    hide RowToRecord, RecordToRow, UpdateRow, Read;
    UpdateStores(s.rows[r.name], Touched(r, now));
  }

  lemma EditSaved(s: Sql, op: Op, r1: AgentRecord, now: real)
    requires TableOk(s.rows) && EditsRecord(op) && op.name in s.rows
    requires Read(s, op.name, now).Some? && Edited(op, Read(s, op.name, now).value, Touched(r1, now), now)
    ensures var (s1, answer) := SaveAndRead(s, r1, now);
            RowEdited(s, op, s1, answer, now) && s1 == s.(rows := s1.rows)
  {
    ReadRow(s, op.name, now);
    EditKeeps(op, Read(s, op.name, now).value, r1, now);
    SavedIs(s, s, r1, now);
    hide Read, Save, RowToRecord, Edited, ReadOrRaise;
  }

  lemma EditKeeps(op: Op, r: AgentRecord, r1: AgentRecord, now: real)
    requires EditsRecord(op) && Edited(op, r, Touched(r1, now), now)
    ensures r1.name == r.name && r1.agentId == r.agentId && r1.createdAt == r.createdAt
  {
    hide FirstRemoved;
    assert Touched(r1, now).name == r.name && Touched(r1, now).agentId == r.agentId;
    assert Touched(r1, now).createdAt == r.createdAt;
  }

  lemma SqlStatusIs(s: Sql, n: string, status: AgentStatus, now: real)
    requires TableOk(s.rows) && n in s.rows
    ensures var (s1, answer) := SqlStatus(s, n, status, now);
            RowEdited(s, OpStatus(n, status), s1, answer, now) && s1 == s.(rows := s1.rows)
  {
    ReadRow(s, n, now);
    var r := Read(s, n, now).value;
    EditSaved(s, OpStatus(n, status), r.(status := status), now);
    hide Read, SaveAndRead, RowEdited;
  }

  lemma SqlIdentityIs(s: Sql, n: string, key: string, algorithm: string, now: real)
    requires TableOk(s.rows) && n in s.rows
    ensures var (s1, answer) := SqlIdentity(s, n, key, algorithm, now);
            RowEdited(s, OpIdentity(n, key, algorithm), s1, answer, now) && s1 == s.(rows := s1.rows)
  {
    ReadRow(s, n, now);
    var r := Read(s, n, now).value;
    EditSaved(s, OpIdentity(n, key, algorithm), r.(publicKey := key, publicKeyAlgorithm := algorithm), now);
    hide Read, SaveAndRead, RowEdited;
  }

  lemma SqlRemoveGrantIs(s: Sql, n: string, id: string, now: real)
    requires TableOk(s.rows) && n in s.rows
    ensures var (s1, answer) := SqlRemoveGrant(s, n, id, now);
            var r := Read(s, n, now);
            r.Some? && if exists g :: g in r.value.grants && g.id == id
            then RowEdited(s, OpRemoveGrant(n, id), s1, answer, now) && s1 == s.(rows := s1.rows)
            else s1 == s && answer == Err(GrantNotFound(n, id))
  {
    ReadRow(s, n, now);
    var r := Read(s, n, now).value;
    if GrantIndex(r.grants, id) < |r.grants| {
      RemovedFirst(r.grants, id);
      EditSaved(s, OpRemoveGrant(n, id), r.(grants := Remaining(r.grants, id)), now);
    } else {
      NotThere(r.grants, id);
    }
    hide Read, SaveAndRead, RowEdited, Remaining, FirstRemoved;
  }

  /** The refusals and the grant are those of the dict-backed registry. */
  lemma SqlAddGrantIs(s: Sql, n: string, grant: Grant, now: real)
    requires TableOk(s.rows) && n in s.rows
    ensures var (s1, answer) := SqlAddGrant(s, n, grant, now);
            var r := Read(s, n, now);
            r.Some? &&
            var parent := if r.value.parentAgentId.Some? then ReadById(s, r.value.parentAgentId.value, now) else None;
            if r.value.parentAgentId.Some? && parent.None? then
              s1 == s && answer == Err(UnresolvableParent(r.value.parentAgentId.value))
            else if parent.Some? && !(Pairs([grant]) <= Pairs(parent.value.grants)) then
              && s1 == s
              && answer == Err(GrantEscalation(n, parent.value.name, Pairs([grant]) - Pairs(parent.value.grants)))
            else RowEdited(s, OpAddGrant(n, grant), s1, answer, now) && s1 == s.(rows := s1.rows)
  {
    ReadRow(s, n, now);
    var r := Read(s, n, now).value;
    EditSaved(s, OpAddGrant(n, grant), r.(grants := r.grants + [grant]), now);
    if r.parentAgentId.Some? && ReadById(s, r.parentAgentId.value, now).Some? {
      NarrowingIff(ReadById(s, r.parentAgentId.value, now).value, n, [grant]);
    }
    hide Read, SaveAndRead, RowEdited, Pairs, ReadById;
  }

  /** The scorer a trust change starts from: the one in memory, or a new one at the value read, without a ceiling. */
  predicate StartsFrom(before: LinearState, s: Sql, r: AgentRecord, now: real) {
    if r.name in s.scorers then before == s.scorers[r.name] else NewScorer(before, r.trustValue, None, now)
  }

  /** A trust change moves one scorer, saves a row that shows it, and logs the readings before and after. */
  ghost predicate TrustMoved(s: Sql, op: Op, event: TrustEvent, before: LinearState, s1: Sql, answer: Answer, now: real)
    requires EditsRecord(op)
  {
    var n := op.name;
    && RowEdited(s, op, s1, answer, now)
    && StartsFrom(before, s, Read(s, n, now).value, now)
    && n in s1.scorers && s1.scorers == s.scorers[n := s1.scorers[n]]
    && Shows(RowToRecord(s1.rows[n]).value, s1.scorers[n], now)
    && |s1.events| == |s.events| + 1 && s1.events[..|s.events|] == s.events
    && Logged(s1.events[|s.events|], Read(s, n, now).value, event, before, s1.scorers[n], now)
  }

  lemma SqlRescoredIs(s: Sql, op: Op, event: TrustEvent, after: LinearState, now: real)
    requires TableOk(s.rows) && (op.OpTrustEvent? || op.OpSetTrust?) && op.name in s.rows
    ensures Read(s, op.name, now).Some?
    ensures var r := Read(s, op.name, now).value;
            var (s1, answer) := SqlRescored(s, r, event, after, now);
            && TrustMoved(s, op, event, ScorerFor(s, r, now), s1, answer, now)
            && s1.scorers[op.name] == after
  {
    ReadRow(s, op.name, now);
    var r := Read(s, op.name, now).value;
    var (s1, answer) := SqlRescored(s, r, event, after, now);
    SqlRescoredRow(s, op, r, event, after, now);
    SqlRescoredLog(s, r, event, after, now);
    TouchedEdits(op, r, after, now);
    hide Read, RowToRecord, Reading, Edited, SqlRescored, ScorerFor, StartsFrom, Shows, Logged, Touched, Synced;
  }

  lemma SqlRescoredRow(s: Sql, op: Op, r: AgentRecord, event: TrustEvent, after: LinearState, now: real)
    requires TableOk(s.rows) && (op.OpTrustEvent? || op.OpSetTrust?) && op.name in s.rows
    requires Read(s, op.name, now) == Some(r)
    ensures var (s1, answer) := SqlRescored(s, r, event, after, now);
            var n := op.name;
            && n in s1.rows && s1.rows == s.rows[n := s1.rows[n]]
            && RowToRecord(s1.rows[n]) == Some(Touched(Synced(r, after, now), now))
            && s1.maxDepth == s.maxDepth && answer == ReadOrRaise(s1, n, now)
            && s1.scorers == s.scorers[n := after]
  {
    ReadRow(s, op.name, now);
    SavedIs(s, s.(scorers := s.scorers[r.name := after]), Synced(r, after, now), now);
    hide Read, Save, RowToRecord, Reading, TierFor, ScorerFor, ReadOrRaise;
  }

  lemma SqlRescoredLog(s: Sql, r: AgentRecord, event: TrustEvent, after: LinearState, now: real)
    ensures var before := ScorerFor(s, r, now);
            var s1 := SqlRescored(s, r, event, after, now).0;
            && StartsFrom(before, s, r, now)
            && |s1.events| == |s.events| + 1 && s1.events[..|s.events|] == s.events
            && Logged(s1.events[|s.events|], r, event, before, after, now)
  {
    hide Reading, RecordToRow, UpdateRow, Read;
  }

  lemma TouchedEdits(op: Op, r: AgentRecord, after: LinearState, now: real)
    requires op.OpTrustEvent? || op.OpSetTrust?
    ensures Edited(op, r, Touched(Synced(r, after, now), now), now)
    ensures Shows(Touched(Synced(r, after, now), now), after, now)
  {
    hide Reading;
  }

  lemma SqlTrustEventIs(s: Sql, n: string, event: TrustEvent, now: real)
    requires TableOk(s.rows) && n in s.rows
    ensures var (s1, answer) := SqlTrustEvent(s, n, event, now);
            exists before: LinearState ::
              && TrustMoved(s, OpTrustEvent(n, event), event, before, s1, answer, now)
              && s1.scorers[n] == AfterEvent(before, event, now)
  {
    ReadRow(s, n, now);
    var r := Read(s, n, now).value;
    var before := ScorerFor(s, r, now);
    SqlRescoredIs(s, OpTrustEvent(n, event), event, AfterEvent(before, event, now), now);
    hide Read, SqlRescored, TrustMoved, AfterEvent, ScorerFor;
  }

  lemma SqlSetTrustIs(s: Sql, n: string, value: real, now: real)
    requires TableOk(s.rows) && n in s.rows
    ensures var (s1, answer) := SqlSetTrust(s, n, value, now);
            exists before: LinearState ::
              && TrustMoved(s, OpSetTrust(n, value), HumanOverride, before, s1, answer, now)
              && s1.scorers[n] == AfterSet(before, value, now)
  {
    ReadRow(s, n, now);
    var r := Read(s, n, now).value;
    var before := ScorerFor(s, r, now);
    SqlRescoredIs(s, OpSetTrust(n, value), HumanOverride, AfterSet(before, value, now), now);
    hide Read, SqlRescored, TrustMoved, AfterSet, ScorerFor;
  }

  // ---- Listing ----

  lemma SyncedRowIs(row: Row, st: LinearState, now: real)
    requires RowToRecord(row).Some?
    ensures var r := RowToRecord(SyncRow(row, st, now));
            && r.Some? && Shows(r.value, st, now)
            && r.value == RowToRecord(row).value.(trustValue := r.value.trustValue, trustTier := r.value.trustTier)
    ensures SyncRow(row, st, now).trustTier == TierName(TierFor(Reading(st, now)))
  {
    hide Reading, DictsToGrants, StatusNamed;
    NamesRoundTrip(TierFor(Reading(st, now)), Registered);
    hide TierName, TierNamed;
  }

  /** When the tier is filtered a listing first writes every scorer's reading and tier into its row; it changes nothing
      otherwise, and nothing else. */
  lemma ListWritesBack(s: Sql, f: Filter, now: real)
    requires TableOk(s.rows)
    ensures var s1 := SqlList(s, f, now).0;
            && s1 == s.(rows := s1.rows) && s1.rows.Keys == s.rows.Keys
            && (f.tier.None? ==> s1 == s)
            && forall n :: n in s.rows ==>
                 if f.tier.Some? && n in s.scorers then
                   var was, r := RowToRecord(s.rows[n]), RowToRecord(s1.rows[n]);
                   && was.Some? && r.Some? && Shows(r.value, s.scorers[n], now)
                   && r.value == was.value.(trustValue := r.value.trustValue, trustTier := r.value.trustTier)
                 else s1.rows[n] == s.rows[n]
  {
    forall n | n in s.rows && n in s.scorers
      ensures RowToRecord(s.rows[n]).Some?
      ensures var was, r := RowToRecord(s.rows[n]), RowToRecord(SyncRow(s.rows[n], s.scorers[n], now));
              && r.Some? && Shows(r.value, s.scorers[n], now)
              && r.value == was.value.(trustValue := r.value.trustValue, trustTier := r.value.trustTier)
    {
      assert RowOk(n, s.rows[n]);
      SyncedRowIs(s.rows[n], s.scorers[n], now);
    }
    hide RowToRecord, SyncRow, Shows;
  }

  /** The write-back changes no record that is read. */
  lemma ReadBack(s: Sql, f: Filter, n: string, now: real)
    requires TableOk(s.rows) && n in s.rows
    ensures var s1 := ListPrepared(s, f, now);
            && n in s1.rows && RowToRecord(s1.rows[n]).Some? && Read(s, n, now).Some?
            && Read(s1, n, now) == Read(s, n, now)
            && BackendSimulation.RowAgrees(Read(s, n, now).value, s1.rows[n])
            && (f.tier.Some? ==> s1.rows[n].trustTier == TierName(Read(s, n, now).value.trustTier))
  {
    assert RowOk(n, s.rows[n]);
    DecodedName(s.rows[n]);
    if n in s.scorers {
      SyncedRowIs(s.rows[n], s.scorers[n], now);
    }
    BackendSimulation.DecodedNames(s.rows[n]);
    hide RowToRecord, SyncRow, Reading, TierFor, TierName;
  }

  /** A listing answers the records, as read, that pass every filter: `status` and `owner` by their columns, `tier` by
      the scorer's. */
  lemma SqlListIs(s: Sql, f: Filter, now: real, r: AgentRecord)
    requires TableOk(s.rows)
    ensures r in SqlList(s, f, now).1 <==> exists n :: n in s.rows && Read(s, n, now) == Some(r) && Passes(f, r)
  {
    forall n | n in s.rows
      ensures var s1 := ListPrepared(s, f, now);
              && n in s1.rows && Read(s1, n, now) == Read(s, n, now) && Read(s, n, now).Some?
              && (RowMatches(f, s1.rows[n]) <==> Passes(f, Read(s, n, now).value))
    {
      ReadBack(s, f, n, now);
      BackendSimulation.RowMatchesIff(Read(s, n, now).value, ListPrepared(s, f, now).rows[n], f);
      hide ListPrepared, Read, RowMatches;
    }
    ListWritesBack(s, f, now);
    hide Read, RowMatches, Passes, ListPrepared, RowToRecord, Shows;
  }

  // ---- The rest ----

  /** An unknown name is refused, and changes nothing. */
  lemma SqlUnknownName(s: Sql, op: Op, now: real)
    requires (EditsRecord(op) || op.OpDeregister? || op.OpHasGrant?) && op.name !in s.rows
    ensures SqlStep(s, op, now) == (s, Raised(AgentNotFound(op.name)))
  {
    hide RowToRecord, SyncTrust;
  }

  /** Deregistering takes the row and the scorer under the name out. */
  lemma SqlDeregisterIs(s: Sql, n: string, now: real)
    requires TableOk(s.rows) && n in s.rows
    ensures SqlDeregister(s, n, now) == (s.(rows := s.rows - {n}, scorers := s.scorers - {n}), None)
  {
    ReadRow(s, n, now);
    hide Read;
  }

  lemma SqlHasGrantIff(s: Sql, n: string, resource: string, action: string, now: real)
    requires TableOk(s.rows) && n in s.rows
    ensures var r := Read(s, n, now);
            r.Some? &&
            SqlHasGrant(s, n, resource, action, now)
            == Ok(exists i :: 0 <= i < |r.value.grants| && resource in r.value.grants[i].resources
                              && action in r.value.grants[i].actions)
  {
    ReadRow(s, n, now);
    PairsIff(Read(s, n, now).value.grants, resource, action);
    hide Read, Pairs;
  }
}
