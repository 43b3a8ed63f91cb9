/** The shared enumerations and records of packages/presidium/src/presidium/model.py. */
module Model {
  import opened Common

  datatype AgentStatus = Registered | Starting | Running | Stopping | Stopped | Suspended

  datatype TrustTier = Trusted | Standard | Restricted

  datatype TrustEvent = Success | Failure | PolicyViolation | HumanOverride

  datatype Grant = Grant(
    resources: seq<string>,
    actions: seq<string>,
    scope: map<string, string>,
    condition: Option<string>,
    expiresAt: Option<real>,
    id: string)

  type Pair = (string, string)

  /** The fields without behaviour here (description, version, capabilities, metadata) are one payload. */
  datatype AgentRecord = AgentRecord(
    agentId: string,
    name: string,
    publicKey: string,
    publicKeyAlgorithm: string,
    grants: seq<Grant>,
    trustValue: real,
    trustTier: TrustTier,
    status: AgentStatus,
    owner: Option<string>,
    parentAgentId: Option<string>,
    trustCeiling: Option<real>,
    depth: int,
    payload: string,
    revision: int,
    createdAt: real,
    updatedAt: real)

  datatype RegistryError =
    | AgentNotFound(name: string)
    | GrantNotFound(name: string, grantId: string)
    | UnresolvableParent(parentAgentId: string)
    | GrantEscalation(name: string, parentName: string, excess: set<Pair>)
    | DelegationDepthExceeded(name: string, depth: int, maxDepth: int)

  const TIER_TRUSTED_THRESHOLD := 0.7
  const TIER_STANDARD_THRESHOLD := 0.3

  function TierFor(value: real): TrustTier {
    if value >= TIER_TRUSTED_THRESHOLD then Trusted
    else if value >= TIER_STANDARD_THRESHOLD then Standard
    else Restricted
  }

  lemma TierBands(value: real)
    ensures TierFor(value) == Trusted <==> value >= 0.7
    ensures TierFor(value) == Standard <==> 0.3 <= value < 0.7
    ensures TierFor(value) == Restricted <==> value < 0.3
  {
  }

  /** The string value of the enumeration member. */
  function EventName(e: TrustEvent): string {
    match e
    case Success => "success"
    case Failure => "failure"
    case PolicyViolation => "policy_violation"
    case HumanOverride => "human_override"
  }

  /** Every (resource, action) pair that some grant of the list covers. */
  function Pairs(grants: seq<Grant>): set<Pair> {
    set g, r, a | g in grants && r in g.resources && a in g.actions :: (r, a)
  }

  /** One grant has to cover both the resource and the action. */
  lemma PairsIff(grants: seq<Grant>, resource: string, action: string)
    ensures (resource, action) in Pairs(grants)
       <==> exists i :: 0 <= i < |grants| && resource in grants[i].resources && action in grants[i].actions
  {
    if (resource, action) in Pairs(grants) {
      var g :| g in grants && resource in g.resources && action in g.actions;
      var i :| 0 <= i < |grants| && grants[i] == g;
    }
  }

  lemma PairsOfConcat(xs: seq<Grant>, ys: seq<Grant>)
    ensures Pairs(xs + ys) == Pairs(xs) + Pairs(ys)
  {
  }
}
