/** The row encoding of packages/presidium/src/presidium/registry/sqlite.py. JSON text is modelled by the
    values it denotes and an ISO timestamp by the instant it denotes. */
module SqliteRows {
  import opened Common
  import opened Model

  datatype Json =
    | JText(text: string)
    | JTime(hours: real)
    | JList(items: seq<Json>)
    | JObject(fields: map<string, Json>)

  /** One row of agent_records. Enumerations are stored by their string value. */
  datatype Row = Row(
    agentId: string,
    name: string,
    publicKey: string,
    publicKeyAlgorithm: string,
    grants: Json,
    trustValue: real,
    trustTier: string,
    status: string,
    owner: Option<string>,
    parentAgentId: Option<string>,
    trustCeiling: Option<real>,
    depth: int,
    payload: string,
    revision: int,
    createdAt: Json,
    updatedAt: Json)

  function TierName(t: TrustTier): string {
    match t case Trusted => "trusted" case Standard => "standard" case Restricted => "restricted"
  }

  function TierNamed(s: string): Option<TrustTier> {
    if s == "trusted" then Some(Trusted)
    else if s == "standard" then Some(Standard)
    else if s == "restricted" then Some(Restricted)
    else None
  }

  function StatusName(s: AgentStatus): string {
    match s
    case Registered => "registered"
    case Starting => "starting"
    case Running => "running"
    case Stopping => "stopping"
    case Stopped => "stopped"
    case Suspended => "suspended"
  }

  function StatusNamed(s: string): Option<AgentStatus> {
    if s == "registered" then Some(Registered)
    else if s == "starting" then Some(Starting)
    else if s == "running" then Some(Running)
    else if s == "stopping" then Some(Stopping)
    else if s == "stopped" then Some(Stopped)
    else if s == "suspended" then Some(Suspended)
    else None
  }

  function Texts(ss: seq<string>): Json {
    JList(seq(|ss|, i requires 0 <= i < |ss| => JText(ss[i])))
  }

  function TextOf(j: Json): string {
    if j.JText? then j.text else ""
  }

  function TextsOf(j: Json): seq<string> {
    if j.JList? then seq(|j.items|, i requires 0 <= i < |j.items| => TextOf(j.items[i])) else []
  }

  function Scope(m: map<string, string>): Json {
    JObject(map k | k in m :: JText(m[k]))
  }

  function ScopeOf(j: Json): map<string, string> {
    if j.JObject? then map k | k in j.fields :: TextOf(j.fields[k]) else map[]
  }

  function TimeOf(j: Json): real {
    if j.JTime? then j.hours else 0.0
  }

  /** The optional fields are written only when they are present. */
  function GrantToDict(g: Grant): Json {
    var d := map["resources" := Texts(g.resources), "actions" := Texts(g.actions),
                 "scope" := Scope(g.scope), "id" := JText(g.id)];
    var d1 := if g.condition.Some? then d["condition" := JText(g.condition.value)] else d;
    var d2 := if g.expiresAt.Some? then d1["expires_at" := JTime(g.expiresAt.value)] else d1;
    JObject(d2)
  }

  /** None when a required key is missing: the KeyError of the program. */
  function DictToGrant(j: Json): Option<Grant> {
    if !j.JObject? || "resources" !in j.fields || "actions" !in j.fields || "id" !in j.fields then None
    else
      var d := j.fields;
      Some(Grant(
        TextsOf(d["resources"]),
        TextsOf(d["actions"]),
        if "scope" in d then ScopeOf(d["scope"]) else map[],
        if "condition" in d then Some(TextOf(d["condition"])) else None,
        if "expires_at" in d then Some(TimeOf(d["expires_at"])) else None,
        TextOf(d["id"])))
  }

  function GrantsToDicts(gs: seq<Grant>): seq<Json> {
    if gs == [] then [] else [GrantToDict(gs[0])] + GrantsToDicts(gs[1..])
  }

  function DictsToGrants(js: seq<Json>): Option<seq<Grant>> {
    if js == [] then Some([])
    else
      var g, rest := DictToGrant(js[0]), DictsToGrants(js[1..]);
      if g.None? || rest.None? then None else Some([g.value] + rest.value)
  }

  function RecordToRow(r: AgentRecord): Row {
    Row(r.agentId, r.name, r.publicKey, r.publicKeyAlgorithm, JList(GrantsToDicts(r.grants)),
        r.trustValue, TierName(r.trustTier), StatusName(r.status), r.owner, r.parentAgentId, r.trustCeiling,
        r.depth, r.payload, r.revision, JTime(r.createdAt), JTime(r.updatedAt))
  }

  function RowToRecord(row: Row): Option<AgentRecord> {
    var grants := if row.grants.JList? then DictsToGrants(row.grants.items) else None;
    var tier, status := TierNamed(row.trustTier), StatusNamed(row.status);
    if grants.None? || tier.None? || status.None? then None
    else
      Some(AgentRecord(row.agentId, row.name, row.publicKey, row.publicKeyAlgorithm, grants.value,
                       row.trustValue, tier.value, status.value, row.owner, row.parentAgentId, row.trustCeiling,
                       row.depth, row.payload, row.revision, TimeOf(row.createdAt), TimeOf(row.updatedAt)))
  }

  /** `_save` updates every column but agent_id, name and created_at. */
  function UpdateRow(row: Row, with: Row): Row {
    with.(agentId := row.agentId, name := row.name, createdAt := row.createdAt)
  }

  lemma ListRoundTrip(ss: seq<string>)
    ensures TextsOf(Texts(ss)) == ss
  {
  }

  lemma ScopeRoundTrip(m: map<string, string>)
    ensures ScopeOf(Scope(m)) == m
  {
  }

  lemma GrantRoundTrip(g: Grant)
    ensures DictToGrant(GrantToDict(g)) == Some(g)
  {
    ListRoundTrip(g.resources);
    ListRoundTrip(g.actions);
    ScopeRoundTrip(g.scope);
    hide TextsOf, Texts, ScopeOf, Scope;
  }

  lemma {:induction false} GrantsRoundTrip(gs: seq<Grant>)
    ensures DictsToGrants(GrantsToDicts(gs)) == Some(gs)
  {
    if gs != [] {
      GrantRoundTrip(gs[0]);
      GrantsRoundTrip(gs[1..]);
      hide GrantToDict, DictToGrant;
      assert GrantsToDicts(gs)[1..] == GrantsToDicts(gs[1..]);
      assert [gs[0]] + gs[1..] == gs;
    }
  }

  lemma NamesRoundTrip(t: TrustTier, s: AgentStatus)
    ensures TierNamed(TierName(t)) == Some(t)
    ensures StatusNamed(StatusName(s)) == Some(s)
  {
  }

  /** Every record survives being written to a row and read back. */
  lemma RowRoundTrip(r: AgentRecord)
    ensures RowToRecord(RecordToRow(r)) == Some(r)
  {
    hide GrantsToDicts, DictsToGrants, TierName, TierNamed, StatusName, StatusNamed;
    GrantsRoundTrip(r.grants);
    NamesRoundTrip(r.trustTier, r.status);
  }

  lemma DecodedName(row: Row)
    requires RowToRecord(row).Some?
    ensures RowToRecord(row).value.name == row.name && RowToRecord(row).value.agentId == row.agentId
  {
    hide DictsToGrants, TierNamed, StatusNamed;
  }

  lemma UpdatedRow(row: Row, r: AgentRecord)
    requires RowToRecord(row).Some?
    ensures RowToRecord(UpdateRow(row, RecordToRow(r)))
         == Some(r.(agentId := row.agentId, name := row.name, createdAt := TimeOf(row.createdAt)))
    ensures UpdateRow(row, RecordToRow(r)).agentId == row.agentId && UpdateRow(row, RecordToRow(r)).name == row.name
  {
    RowRoundTrip(r);
    hide GrantsToDicts, DictsToGrants, TierName, TierNamed, StatusName, StatusNamed;
  }

  /** An update of the row a record was read from stores exactly that record. */
  lemma UpdateStores(row: Row, r: AgentRecord)
    requires RowToRecord(row).Some?
    requires row.agentId == r.agentId && row.name == r.name && TimeOf(row.createdAt) == r.createdAt
    ensures RowToRecord(UpdateRow(row, RecordToRow(r))) == Some(r)
  {
    UpdatedRow(row, r);
    hide UpdateRow, RecordToRow, RowToRecord;
  }
}
