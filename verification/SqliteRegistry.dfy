/** The registry class of packages/presidium/src/presidium/registry/sqlite.py: `rows` stands for the
    agent_records table, `events` for trust_events. Each method is proved to make exactly the state change
    and give exactly the answer of its function in SqliteStore, and to keep the table sound. The interleaving
    of its awaits is the subject of WriteLock. */
module SqliteRegistryClass {
  import opened Common
  import opened Model
  import opened Lineage
  import opened LinearTrust
  import Mem = MemoryRegistry
  import opened SqliteRows
  import Spec = SqliteStore

  class SqliteRegistry {
    var rows: map<string, Row>
    var scorers: map<string, LinearTrustScore>
    var events: seq<Mem.LogEntry>
    const maxDelegationDepth: int

    ghost function ScorerStates(): map<string, LinearState>
      reads this`scorers, scorers.Values
    {
      map n | n in scorers :: scorers[n].State()
    }

    ghost function Abs(): Spec.Sql
      reads this, scorers.Values
    {
      Spec.Sql(rows, ScorerStates(), events, maxDelegationDepth)
    }

    /** No two names share a scorer. */
    ghost predicate Separate()
      reads this`scorers
    {
      forall m, n :: m in scorers && n in scorers && m != n ==> scorers[m] != scorers[n]
    }

    ghost predicate Valid()
      reads this, scorers.Values
    {
      Spec.TableOk(rows) && Separate()
    }

    constructor (maxDelegationDepth: int)
      ensures Valid() && Abs() == Spec.EmptySql(maxDelegationDepth)
    {
      rows, scorers, events := map[], map[], [];
      this.maxDelegationDepth := maxDelegationDepth;
    }

    method SyncTrust(r: AgentRecord, now: real) returns (synced: AgentRecord)
      ensures synced == Mem.SyncTrust(ScorerStates(), r, now)
    {
      synced := r;
      if r.name in scorers {
        var v := scorers[r.name].Value(now);
        synced := r.(trustValue := v, trustTier := TierFor(v));
      }
    }

    /** SELECT by name: `lookup` and the start of every mutator. */
    method Lookup(name: string, now: real) returns (found: Option<AgentRecord>)
      ensures found == Spec.Read(Abs(), name, now)
    {
      hide Reading, TierFor, RowToRecord;
      found := None;
      if name in rows {
        var decoded := RowToRecord(rows[name]);
        if decoded.Some? {
          var r := SyncTrust(decoded.value, now);
          found := Some(r);
        }
      }
    }

    method LookupById(id: string, now: real) returns (found: Option<AgentRecord>)
      requires Spec.TableOk(rows)
      ensures found == Spec.ReadById(Abs(), id, now)
    {
      var names := rows.Keys;
      while names != {}
        invariant names <= rows.Keys
        invariant forall n :: n in rows && n !in names ==> rows[n].agentId != id
        decreases names
      {
        var n :| n in names;
        if rows[n].agentId == id {
          found := Lookup(n, now);
          assert Spec.RowWithId(rows, id) == Some(n);
          return;
        }
        names := names - {n};
      }
      found := None;
    }

    /** `_save`: one UPDATE of the row of that name. */
    method Save(r: AgentRecord, now: real)
      modifies this`rows
      ensures Abs() == Spec.Save(old(Abs()), r, now)
      ensures old(Spec.TableOk(rows)) ==> Spec.TableOk(rows)
    {
      Spec.SaveTable(Abs(), r, now);
      hide Spec.TableOk, ScorerStates, RecordToRow, UpdateRow, Mem.Touched;
      if r.name in rows {
        rows := rows[r.name := UpdateRow(rows[r.name], RecordToRow(Mem.Touched(r, now)))];
      }
    }

    method EnsureScorer(name: string, value: real, ceiling: Option<real>, now: real)
      requires Separate()
      modifies this`scorers
      ensures Separate() && name in scorers
      ensures ScorerStates() == Spec.EnsureScorer(old(ScorerStates()), name, value, ceiling, now)
      ensures name in old(scorers) ==> scorers == old(scorers)
      ensures name !in old(scorers) ==> fresh(scorers[name])
    {
      hide Initial;
      if name !in scorers {
        var scorer := new LinearTrustScore(value, DEFAULT_DECAY_RATE, ceiling, now);
        scorers := scorers[name := scorer];
      }
    }

    method Register(record: AgentRecord, now: real) returns (answer: Mem.Answer)
      requires Valid()
      modifies this`rows, this`scorers
      ensures Valid()
      ensures (Abs(), answer) == Spec.SqlRegister(old(Abs()), record, now)
    {
      hide Spec.TableOk, Separate, ScorerStates, DeriveChild, Spec.ReadById, Spec.Read, Spec.SqlInsert;
      var stored := record;
      if record.parentAgentId.Some? {
        var parent := LookupById(record.parentAgentId.value, now);
        if parent.None? {
          return Err(UnresolvableParent(record.parentAgentId.value));
        }
        var derived := DeriveChild(parent.value, record, maxDelegationDepth);
        if derived.Err? {
          return Err(derived.error);
        }
        stored := derived.value;
      }
      Insert(stored, now);
      var read := Lookup(stored.name, now);
      answer := if read.Some? then Ok(read.value) else Err(AgentNotFound(stored.name));
    }

    /** INSERT OR REPLACE, then `_ensure_scorer`. */
    method Insert(stored: AgentRecord, now: real)
      requires Valid()
      modifies this`rows, this`scorers
      ensures Valid()
      ensures Abs() == Spec.SqlInsert(old(Abs()), stored, now)
    {
      Spec.InsertTable(rows, Mem.Touched(stored, now));
      hide Spec.TableOk, Separate, ScorerStates, RecordToRow, Mem.Touched, Spec.InsertOrReplace, Spec.EnsureScorer;
      rows := Spec.InsertOrReplace(rows, RecordToRow(Mem.Touched(stored, now)));
      EnsureScorer(stored.name, stored.trustValue, stored.trustCeiling, now);
    }

    method Deregister(name: string, now: real) returns (error: Option<RegistryError>)
      requires Valid()
      modifies this`rows, this`scorers
      ensures Valid()
      ensures (Abs(), error) == Spec.SqlDeregister(old(Abs()), name, now)
    {
      Spec.TableDelete(rows, name);
      hide Spec.TableOk, Spec.Read;
      var r := Lookup(name, now);
      if r.None? {
        return Some(AgentNotFound(name));
      }
      rows := rows - {name};
      scorers := scorers - {name};
      assert ScorerStates() == old(ScorerStates()) - {name};
      error := None;
    }

    /** `_save` and the final `_lookup_or_raise_unlocked` of every mutator. */
    method SaveAndRead(r: AgentRecord, now: real) returns (answer: Mem.Answer)
      modifies this`rows
      ensures (Abs(), answer) == Spec.SaveAndRead(old(Abs()), r, now)
      ensures old(Spec.TableOk(rows)) ==> Spec.TableOk(rows)
    {
      hide Spec.TableOk, ScorerStates, Spec.Save, Spec.Read;
      Save(r, now);
      var read := Lookup(r.name, now);
      answer := if read.Some? then Ok(read.value) else Err(AgentNotFound(r.name));
    }

    /** The unlocked write-back of every scorer's reading into the trust columns. */
    method SyncAllTrustToDb(now: real)
      modifies this`rows
      ensures Abs() == Spec.SyncRows(old(Abs()), now)
      ensures old(Spec.TableOk(rows)) ==> Spec.TableOk(rows)
    {
      Spec.SyncRowsTable(Abs(), now);
      hide Spec.TableOk;
      ghost var s0 := Abs();
      hide Reading, TierFor;
      var names := scorers.Keys;
      while names != {}
        invariant names <= scorers.Keys
        invariant rows.Keys == s0.rows.Keys
        invariant forall n :: n in rows ==>
                    rows[n] == if n in scorers && n !in names then Spec.SyncRow(s0.rows[n], s0.scorers[n], now)
                    else s0.rows[n]
        decreases names
      {
        var n :| n in names;
        var v := scorers[n].Value(now);
        if n in rows {
          assert s0.scorers[n] == scorers[n].State();
          rows := rows[n := rows[n].(trustValue := v, trustTier := TierName(TierFor(v)))];
          assert rows[n] == Spec.SyncRow(s0.rows[n], s0.scorers[n], now);
        }
        names := names - {n};
      }
      assert rows == Spec.SyncRows(s0, now).rows;
    }

    /** The SELECT of a listing: every matching row once, decoded and synced. */
    method Scan(filter: Mem.Filter, now: real) returns (results: seq<AgentRecord>)
      requires Spec.TableOk(rows)
      ensures (set r | r in results) == Spec.SqlListed(Abs(), filter, {}, now)
      ensures Distinct(results)
    {
      results := [];
      var names := rows.Keys;
      Spec.SqlListedEnds(Abs(), filter, now);
      hide Reading, TierFor, RowToRecord, Spec.RowMatches, Spec.Read, Spec.SyncRows, ScorerStates, Spec.SqlListed,
           Spec.TableOk;
      while names != {}
        invariant names <= rows.Keys
        invariant (set r | r in results) == Spec.SqlListed(Abs(), filter, names, now)
        invariant Distinct(results) && forall r :: r in results ==> r.name !in names
        decreases names
      {
        var n :| n in names;
        var r := Lookup(n, now);
        Spec.SqlListedNext(Abs(), filter, names, n, now);
        Spec.ReadName(Abs(), n, now);
        if Spec.RowMatches(filter, rows[n]) && r.Some? {
          ghost var collected := set q | q in results;
          results := results + [r.value];
          assert (set q | q in results) == collected + {r.value};
        }
        names := names - {n};
      }
    }

    method ListAgents(filter: Mem.Filter, now: real) returns (results: seq<AgentRecord>)
      requires Valid()
      modifies this`rows
      ensures Valid()
      ensures Abs() == Spec.SqlList(old(Abs()), filter, now).0
      ensures (set r | r in results) == Spec.SqlList(old(Abs()), filter, now).1
      ensures Distinct(results)
    {
      hide Spec.SyncRows, ScorerStates, Spec.SqlListed, Spec.TableOk, Distinct;
      if filter.tier.Some? {
        SyncAllTrustToDb(now);
      }
      results := Scan(filter, now);
    }

    method AddGrant(name: string, grant: Grant, now: real) returns (answer: Mem.Answer)
      requires Valid()
      modifies this`rows
      ensures Valid()
      ensures (Abs(), answer) == Spec.SqlAddGrant(old(Abs()), name, grant, now)
    {
      assert Spec.Read(Abs(), name, now).Some? ==> Spec.Read(Abs(), name, now).value.name == name by {
        Spec.ReadName(Abs(), name, now);
      }
      hide Spec.TableOk, Separate, ScorerStates, Spec.Read, Spec.ReadById, Spec.SaveAndRead, ValidateNarrowing;
      var r := Lookup(name, now);
      if r.None? {
        return Err(AgentNotFound(name));
      }
      if r.value.parentAgentId.Some? {
        var parent := LookupById(r.value.parentAgentId.value, now);
        if parent.None? {
          return Err(UnresolvableParent(r.value.parentAgentId.value));
        }
        var escalation := ValidateNarrowing(parent.value, name, [grant]);
        if escalation.Some? {
          return Err(escalation.value);
        }
      }
      answer := SaveAndRead(r.value.(grants := r.value.grants + [grant]), now);
    }

    method RemoveGrant(name: string, grantId: string, now: real) returns (answer: Mem.Answer)
      requires Valid()
      modifies this`rows
      ensures Valid()
      ensures (Abs(), answer) == Spec.SqlRemoveGrant(old(Abs()), name, grantId, now)
    {
      hide Spec.TableOk, Separate, ScorerStates, Spec.Read, Spec.SaveAndRead;
      var r := Lookup(name, now);
      if r.None? {
        return Err(AgentNotFound(name));
      }
      var grants := r.value.grants;
      var i := 0;
      while i < |grants| && grants[i].id != grantId
        invariant i <= |grants|
        invariant Mem.GrantIndex(grants, grantId) == i + Mem.GrantIndex(grants[i..], grantId)
      {
        i := i + 1;
      }
      if i == |grants| {
        return Err(GrantNotFound(name, grantId));
      }
      answer := SaveAndRead(r.value.(grants := grants[..i] + grants[i + 1..]), now);
    }

    method HasGrant(name: string, resource: string, action: string, now: real)
        returns (held: Result<bool, RegistryError>)
      ensures held == Spec.SqlHasGrant(Abs(), name, resource, action, now)
    {
      hide Spec.Read, ScorerStates;
      var r := Lookup(name, now);
      if r.None? {
        return Err(AgentNotFound(name));
      }
      held := Ok(exists g :: g in r.value.grants && resource in g.resources && action in g.actions);
    }

    /** The scorer of a record that was read, rebuilt from the stored value when it is missing. */
    method ScorerOf(r: AgentRecord, now: real) returns (scorer: LinearTrustScore, valueBefore: real)
      requires Separate()
      modifies this`scorers
      ensures Separate() && r.name in scorers && scorers[r.name] == scorer
      ensures scorer.State() == Spec.ScorerFor(old(Abs()), r, now)
      ensures ScorerStates() == old(ScorerStates())[r.name := scorer.State()]
      ensures valueBefore == Reading(scorer.State(), now)
      ensures scorer in old(scorers.Values) || fresh(scorer)
    {
      hide Initial, Reading;
      EnsureScorer(r.name, r.trustValue, None, now);
      scorer := scorers[r.name];
      valueBefore := scorer.Value(now);
      assert scorer.State() == ScorerStates()[r.name];
      assert r.name in old(scorers) ==> scorer == old(scorers)[r.name];
    }

    method ApplyEvent(r: AgentRecord, event: TrustEvent, now: real) returns (valueBefore: real)
      requires Separate()
      modifies this`scorers, scorers.Values
      ensures Separate() && r.name in scorers
      ensures scorers[r.name].State() == AfterEvent(Spec.ScorerFor(old(Abs()), r, now), event, now)
      ensures ScorerStates() == old(ScorerStates())[r.name := scorers[r.name].State()]
      ensures valueBefore == Reading(Spec.ScorerFor(old(Abs()), r, now), now)
    {
      hide Spec.ScorerFor, AfterEvent, AfterSet, Reading;
      var scorer;
      scorer, valueBefore := ScorerOf(r, now);
      scorer.RecordEvent(event, now);
      assert ScorerStates() == old(ScorerStates())[r.name := scorer.State()];
    }

    method ApplyValue(r: AgentRecord, value: real, now: real) returns (valueBefore: real)
      requires Separate()
      modifies this`scorers, scorers.Values
      ensures Separate() && r.name in scorers
      ensures scorers[r.name].State() == AfterSet(Spec.ScorerFor(old(Abs()), r, now), value, now)
      ensures ScorerStates() == old(ScorerStates())[r.name := scorers[r.name].State()]
      ensures valueBefore == Reading(Spec.ScorerFor(old(Abs()), r, now), now)
    {
      hide Spec.ScorerFor, AfterEvent, AfterSet, Reading;
      var scorer;
      scorer, valueBefore := ScorerOf(r, now);
      scorer.SetValue(value, now);
      assert ScorerStates() == old(ScorerStates())[r.name := scorer.State()];
    }

    method RecordTrustEvent(name: string, event: TrustEvent, now: real) returns (answer: Mem.Answer)
      requires Valid()
      modifies this`rows, this`scorers, this`events, scorers.Values
      ensures Valid()
      ensures (Abs(), answer) == Spec.SqlTrustEvent(old(Abs()), name, event, now)
    {
      assert Spec.Read(Abs(), name, now).Some? ==> Spec.Read(Abs(), name, now).value.name == name by {
        Spec.ReadName(Abs(), name, now);
      }
      hide Spec.TableOk, Spec.Read, Spec.SqlRescored, Spec.ScorerFor, AfterEvent, AfterSet, Reading, Separate, ScorerStates;
      var r := Lookup(name, now);
      if r.None? {
        return Err(AgentNotFound(name));
      }
      var valueBefore := ApplyEvent(r.value, event, now);
      answer := Rescore(r.value, event, valueBefore, old(Abs()), now);
    }

    method SetTrust(name: string, value: real, now: real) returns (answer: Mem.Answer)
      requires Valid()
      modifies this`rows, this`scorers, this`events, scorers.Values
      ensures Valid()
      ensures (Abs(), answer) == Spec.SqlSetTrust(old(Abs()), name, value, now)
    {
      assert Spec.Read(Abs(), name, now).Some? ==> Spec.Read(Abs(), name, now).value.name == name by {
        Spec.ReadName(Abs(), name, now);
      }
      hide Spec.TableOk, Spec.Read, Spec.SqlRescored, Spec.ScorerFor, AfterEvent, AfterSet, Reading, Separate, ScorerStates;
      var r := Lookup(name, now);
      if r.None? {
        return Err(AgentNotFound(name));
      }
      var valueBefore := ApplyValue(r.value, value, now);
      answer := Rescore(r.value, HumanOverride, valueBefore, old(Abs()), now);
    }

    /** After the scorer moved: save the record, insert the event, read back. */
    method Rescore(r: AgentRecord, event: TrustEvent, valueBefore: real, ghost s0: Spec.Sql, now: real)
        returns (answer: Mem.Answer)
      requires Spec.TableOk(rows) && r.name in scorers
      requires Abs() == s0.(scorers := s0.scorers[r.name := scorers[r.name].State()])
      requires valueBefore == Reading(Spec.ScorerFor(s0, r, now), now)
      modifies this`rows, this`events
      ensures Spec.TableOk(rows)
      ensures (Abs(), answer) == Spec.SqlRescored(s0, r, event, scorers[r.name].State(), now)
    {
      hide Reading, TierFor, Spec.Read, Spec.TableOk, Spec.ScorerFor, Spec.Save, ScorerStates;
      var valueAfter := scorers[r.name].Value(now);
      Save(r.(trustValue := valueAfter, trustTier := TierFor(valueAfter)), now);
      events := events + [Mem.LogEntry(r.agentId, event, valueBefore, valueAfter, TierFor(valueBefore),
                                       TierFor(valueAfter), now)];
      var read := Lookup(r.name, now);
      answer := if read.Some? then Ok(read.value) else Err(AgentNotFound(r.name));
    }

    method UpdateStatus(name: string, status: AgentStatus, now: real) returns (answer: Mem.Answer)
      requires Valid()
      modifies this`rows
      ensures Valid()
      ensures (Abs(), answer) == Spec.SqlStatus(old(Abs()), name, status, now)
    {
      hide Spec.TableOk, Separate, ScorerStates, Spec.Read, Spec.SaveAndRead;
      var r := Lookup(name, now);
      if r.None? {
        return Err(AgentNotFound(name));
      }
      answer := SaveAndRead(r.value.(status := status), now);
    }

    method UpdateIdentity(name: string, key: string, algorithm: string, now: real) returns (answer: Mem.Answer)
      requires Valid()
      modifies this`rows
      ensures Valid()
      ensures (Abs(), answer) == Spec.SqlIdentity(old(Abs()), name, key, algorithm, now)
    {
      hide Spec.TableOk, Separate, ScorerStates, Spec.Read, Spec.SaveAndRead;
      var r := Lookup(name, now);
      if r.None? {
        return Err(AgentNotFound(name));
      }
      answer := SaveAndRead(r.value.(publicKey := key, publicKeyAlgorithm := algorithm), now);
    }
  }
}
