/** The SQLite-backed registry of packages/presidium/src/presidium/registry/sqlite.py, on values:
    the agent_records table, keyed by its UNIQUE name, beside the scorers held in memory. Each call is
    built from the steps the program takes: read a row, save a row, update a scorer. */
module SqliteStore {
  import opened Common
  import opened Model
  import opened Lineage
  import opened LinearTrust
  import opened MemoryRegistry
  import opened SqliteRows

  datatype Sql = Sql(
    rows: map<string, Row>,
    scorers: map<string, LinearState>,
    events: seq<LogEntry>,
    maxDepth: int)

  function EmptySql(maxDepth: int): Sql {
    Sql(map[], map[], [], maxDepth)
  }

  /** SELECT by name, decode, sync trust. */
  function Read(s: Sql, name: string, now: real): Option<AgentRecord> {
    if name !in s.rows then None
    else
      match RowToRecord(s.rows[name])
      case None => None
      case Some(r) => Some(SyncTrust(s.scorers, r, now))
  }

  function ReadOrRaise(s: Sql, name: string, now: real): Answer {
    match Read(s, name, now) case None => Err(AgentNotFound(name)) case Some(r) => Ok(r)
  }

  /** The name of the row with this primary key. */
  ghost function RowWithId(rows: map<string, Row>, id: string): (n: Option<string>)
    ensures n.Some? ==> n.value in rows && rows[n.value].agentId == id
    ensures n.None? ==> forall k :: k in rows ==> rows[k].agentId != id
  {
    if exists k :: k in rows && rows[k].agentId == id then
      var k :| k in rows && rows[k].agentId == id; Some(k)
    else None
  }

  ghost function ReadById(s: Sql, id: string, now: real): Option<AgentRecord> {
    match RowWithId(s.rows, id) case None => None case Some(n) => Read(s, n, now)
  }

  /** UPDATE ... WHERE name = record.name, after bumping the revision. */
  function Save(s: Sql, r: AgentRecord, now: real): Sql {
    if r.name in s.rows then
      s.(rows := s.rows[r.name := UpdateRow(s.rows[r.name], RecordToRow(Touched(r, now)))])
    else s
  }

  /** INSERT OR REPLACE: every row clashing on the primary key or on the unique name goes. */
  function InsertOrReplace(rows: map<string, Row>, row: Row): map<string, Row> {
    (map n | n in rows && rows[n].agentId != row.agentId :: rows[n])[row.name := row]
  }

  /** An existing scorer is kept as it is. */
  function EnsureScorer(scorers: map<string, LinearState>, name: string, value: real, ceiling: Option<real>, now: real)
    : map<string, LinearState>
  {
    if name in scorers then scorers else scorers[name := Initial(value, DEFAULT_DECAY_RATE, ceiling, now)]
  }

  function SqlInsert(s: Sql, r: AgentRecord, now: real): Sql {
    s.(rows := InsertOrReplace(s.rows, RecordToRow(Touched(r, now))),
       scorers := EnsureScorer(s.scorers, r.name, r.trustValue, r.trustCeiling, now))
  }

  predicate RowOk(n: string, row: Row) {
    row.name == n && RowToRecord(row).Some?
  }

  ghost predicate UniqueKeys(rows: map<string, Row>) {
    forall a, b :: a in rows && b in rows && a != b ==> rows[a].agentId != rows[b].agentId
  }

  /** Rows sit under their own name, decode, and no two share the primary key. */
  ghost predicate TableOk(rows: map<string, Row>) {
    UniqueKeys(rows) && forall n :: n in rows ==> RowOk(n, rows[n])
  }

  lemma TableReplace(rows: map<string, Row>, n: string, a: Row)
    requires TableOk(rows) && n in rows && RowOk(n, a) && a.agentId == rows[n].agentId
    ensures TableOk(rows[n := a])
  {
    hide RowOk;
  }

  lemma TableInsert(rows: map<string, Row>, row: Row)
    requires TableOk(rows) && RowOk(row.name, row)
    ensures TableOk(InsertOrReplace(rows, row))
  {
    hide RowOk;
  }

  lemma TableDelete(rows: map<string, Row>, n: string)
    requires TableOk(rows)
    ensures TableOk(rows - {n})
  {
    hide RowOk;
  }

  lemma RowColumns(r: AgentRecord)
    ensures RecordToRow(r).name == r.name && RecordToRow(r).agentId == r.agentId
  {
  }

  lemma InsertTable(rows: map<string, Row>, r: AgentRecord)
    requires TableOk(rows)
    ensures TableOk(InsertOrReplace(rows, RecordToRow(r)))
  {
    RowRoundTrip(r);
    RowColumns(r);
    TableInsert(rows, RecordToRow(r));
    hide TableOk, RecordToRow;
  }

  lemma SaveTable(s: Sql, r: AgentRecord, now: real)
    ensures TableOk(s.rows) ==> TableOk(Save(s, r, now).rows)
  {
    if TableOk(s.rows) && r.name in s.rows {
      assert RowOk(r.name, s.rows[r.name]);
      UpdatedRow(s.rows[r.name], Touched(r, now));
      TableReplace(s.rows, r.name, UpdateRow(s.rows[r.name], RecordToRow(Touched(r, now))));
    }
    hide TableOk, RecordToRow, UpdateRow;
  }

  lemma ReadName(s: Sql, n: string, now: real)
    requires TableOk(s.rows)
    ensures Read(s, n, now).Some? ==> Read(s, n, now).value.name == n
  {
    if n in s.rows {
      assert RowOk(n, s.rows[n]);
      DecodedName(s.rows[n]);
    }
    hide RowToRecord, Reading, TierFor;
  }

  /** What `register` decides before it takes the write lock. */
  ghost function Resolve(s: Sql, record: AgentRecord, now: real): Result<AgentRecord, RegistryError> {
    match record.parentAgentId
    case None => Ok(record)
    case Some(pid) =>
      match ReadById(s, pid, now)
      case None => Err(UnresolvableParent(pid))
      case Some(parent) => DeriveChild(parent, record, s.maxDepth)
  }

  ghost function SqlRegister(s: Sql, record: AgentRecord, now: real): (Sql, Answer) {
    match Resolve(s, record, now)
    case Err(e) => (s, Err(e))
    case Ok(r) => var s1 := SqlInsert(s, r, now); (s1, ReadOrRaise(s1, r.name, now))
  }

  function SqlDeregister(s: Sql, name: string, now: real): (Sql, Option<RegistryError>) {
    if Read(s, name, now).None? then (s, Some(AgentNotFound(name)))
    else (s.(rows := s.rows - {name}, scorers := s.scorers - {name}), None)
  }

  /** The refusal, if any, of one more grant for the record. */
  ghost function GrantRefusal(s: Sql, r: AgentRecord, grant: Grant, now: real): Option<RegistryError> {
    match r.parentAgentId
    case None => None
    case Some(pid) =>
      match ReadById(s, pid, now)
      case None => Some(UnresolvableParent(pid))
      case Some(parent) => ValidateNarrowing(parent, r.name, [grant])
  }

  /** Save the record, then answer with what is read back. */
  function SaveAndRead(s: Sql, r: AgentRecord, now: real): (Sql, Answer) {
    var s1 := Save(s, r, now);
    (s1, ReadOrRaise(s1, r.name, now))
  }

  ghost function SqlAddGrant(s: Sql, name: string, grant: Grant, now: real): (Sql, Answer) {
    match Read(s, name, now)
    case None => (s, Err(AgentNotFound(name)))
    case Some(r) =>
      match GrantRefusal(s, r, grant, now)
      case Some(e) => (s, Err(e))
      case None => SaveAndRead(s, r.(grants := r.grants + [grant]), now)
  }

  function SqlRemoveGrant(s: Sql, name: string, grantId: string, now: real): (Sql, Answer) {
    match Read(s, name, now)
    case None => (s, Err(AgentNotFound(name)))
    case Some(r) =>
      var i := GrantIndex(r.grants, grantId);
      if i == |r.grants| then (s, Err(GrantNotFound(name, grantId)))
      else SaveAndRead(s, r.(grants := Remaining(r.grants, grantId)), now)
  }

  function SqlHasGrant(s: Sql, name: string, resource: string, action: string, now: real): Result<bool, RegistryError> {
    match Read(s, name, now)
    case None => Err(AgentNotFound(name))
    case Some(r) => Ok((resource, action) in Pairs(r.grants))
  }

  /** A missing scorer is rebuilt from the stored value, without a ceiling. */
  function ScorerFor(s: Sql, r: AgentRecord, now: real): LinearState {
    if r.name in s.scorers then s.scorers[r.name] else Initial(r.trustValue, DEFAULT_DECAY_RATE, None, now)
  }

  function SqlRescored(s: Sql, r: AgentRecord, event: TrustEvent, after: LinearState, now: real): (Sql, Answer) {
    var before := ScorerFor(s, r, now);
    var entry := LogEntry(r.agentId, event, Reading(before, now), Reading(after, now),
                          TierFor(Reading(before, now)), TierFor(Reading(after, now)), now);
    var s1 := Save(s.(scorers := s.scorers[r.name := after]), Synced(r, after, now), now);
    var s2 := s1.(events := s1.events + [entry]);
    (s2, ReadOrRaise(s2, r.name, now))
  }

  function SqlTrustEvent(s: Sql, name: string, event: TrustEvent, now: real): (Sql, Answer) {
    match Read(s, name, now)
    case None => (s, Err(AgentNotFound(name)))
    case Some(r) => SqlRescored(s, r, event, AfterEvent(ScorerFor(s, r, now), event, now), now)
  }

  function SqlSetTrust(s: Sql, name: string, value: real, now: real): (Sql, Answer) {
    match Read(s, name, now)
    case None => (s, Err(AgentNotFound(name)))
    case Some(r) => SqlRescored(s, r, HumanOverride, AfterSet(ScorerFor(s, r, now), value, now), now)
  }

  function SqlStatus(s: Sql, name: string, status: AgentStatus, now: real): (Sql, Answer) {
    match Read(s, name, now)
    case None => (s, Err(AgentNotFound(name)))
    case Some(r) => SaveAndRead(s, r.(status := status), now)
  }

  function SqlIdentity(s: Sql, name: string, key: string, algorithm: string, now: real): (Sql, Answer) {
    match Read(s, name, now)
    case None => (s, Err(AgentNotFound(name)))
    case Some(r) => SaveAndRead(s, r.(publicKey := key, publicKeyAlgorithm := algorithm), now)
  }

  function SyncRow(row: Row, st: LinearState, now: real): Row {
    row.(trustValue := Reading(st, now), trustTier := TierName(TierFor(Reading(st, now))))
  }

  /** Write every scorer's reading into the trust columns of its row. */
  function SyncRows(s: Sql, now: real): Sql {
    s.(rows := map n | n in s.rows :: if n in s.scorers then SyncRow(s.rows[n], s.scorers[n], now) else s.rows[n])
  }

  lemma SyncRowOk(n: string, row: Row, st: LinearState, now: real)
    requires RowOk(n, row)
    ensures RowOk(n, SyncRow(row, st, now))
  {
    hide Reading, TierFor, DictsToGrants, StatusName, StatusNamed;
    NamesRoundTrip(TierFor(Reading(st, now)), Registered);
    hide TierName, TierNamed;
  }

  lemma SyncRowsTable(s: Sql, now: real)
    ensures TableOk(s.rows) ==> TableOk(SyncRows(s, now).rows)
  {
    if TableOk(s.rows) {
      forall n | n in s.rows && n in s.scorers
        ensures RowOk(n, SyncRow(s.rows[n], s.scorers[n], now))
        ensures SyncRow(s.rows[n], s.scorers[n], now).agentId == s.rows[n].agentId
      {
        SyncRowOk(n, s.rows[n], s.scorers[n], now);
      }
      hide RowOk, SyncRow;
    }
  }

  /** The WHERE clause, on columns. */
  predicate RowMatches(f: Filter, row: Row) {
    && (f.status.Some? ==> row.status == StatusName(f.status.value))
    && (f.tier.Some? ==> row.trustTier == TierName(f.tier.value))
    && (f.owner.Some? ==> row.owner == f.owner)
  }

  /** Trust is written back only when the tier column is part of the filter. */
  function ListPrepared(s: Sql, f: Filter, now: real): Sql {
    if f.tier.Some? then SyncRows(s, now) else s
  }

  /** The matching rows, decoded and synced, less those a scan still has `left` to visit. */
  function SqlListed(s: Sql, f: Filter, left: set<string>, now: real): set<AgentRecord> {
    set n | n in s.rows && n !in left && RowMatches(f, s.rows[n]) && Read(s, n, now).Some? :: Read(s, n, now).value
  }

  function SqlList(s: Sql, f: Filter, now: real): (Sql, set<AgentRecord>) {
    var s1 := ListPrepared(s, f, now);
    (s1, SqlListed(s1, f, {}, now))
  }

  lemma SqlListedEnds(s: Sql, f: Filter, now: real)
    ensures SqlListed(s, f, s.rows.Keys, now) == {}
  {
    hide Read, RowMatches;
  }

  lemma SqlListedNext(s: Sql, f: Filter, left: set<string>, n: string, now: real)
    requires n in left && n in s.rows
    ensures SqlListed(s, f, left - {n}, now)
         == SqlListed(s, f, left, now)
            + (if RowMatches(f, s.rows[n]) && Read(s, n, now).Some? then {Read(s, n, now).value} else {})
  {
    hide Read, RowMatches;
  }

  function SqlOutcome(p: (Sql, Answer)): (Sql, Outcome) {
    (p.0, match p.1 case Ok(r) => Returned(r) case Err(e) => Raised(e))
  }

  ghost function SqlStep(s: Sql, op: Op, now: real): (Sql, Outcome) {
    match op
    case OpRegister(r) => SqlOutcome(SqlRegister(s, r, now))
    case OpDeregister(n) =>
      var (s1, e) := SqlDeregister(s, n, now);
      (s1, if e.Some? then Raised(e.value) else Done)
    case OpLookup(n) => (s, Found(Read(s, n, now)))
    case OpLookupById(id) => (s, Found(ReadById(s, id, now)))
    case OpList(f) => var (s1, rs) := SqlList(s, f, now); (s1, Listed(rs))
    case OpAddGrant(n, g) => SqlOutcome(SqlAddGrant(s, n, g, now))
    case OpRemoveGrant(n, g) => SqlOutcome(SqlRemoveGrant(s, n, g, now))
    case OpHasGrant(n, r, a) =>
      (s, match SqlHasGrant(s, n, r, a, now) case Ok(b) => Held(b) case Err(e) => Raised(e))
    case OpTrustEvent(n, e) => SqlOutcome(SqlTrustEvent(s, n, e, now))
    case OpSetTrust(n, v) => SqlOutcome(SqlSetTrust(s, n, v, now))
    case OpStatus(n, st) => SqlOutcome(SqlStatus(s, n, st, now))
    case OpIdentity(n, k, a) => SqlOutcome(SqlIdentity(s, n, k, a, now))
  }
}
