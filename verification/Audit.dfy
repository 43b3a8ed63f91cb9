/** InProcessAuditEnricher of packages/presidium/src/presidium/audit.py: a time-limited cache in front of the
    registry, and the forwarding of each event to a sink that may raise. */
module Audit {
  import opened Common
  import opened Model

  /** A field of an audit event; `Other` stands for every value that is neither text nor a dict. */
  datatype Field = Text(text: string) | Dict(entries: map<string, Field>) | Other(code: int)

  type Event = map<string, Field>

  datatype Governance = Governance(agentId: string, trustValue: real, trustTier: TrustTier, owner: Option<string>)

  datatype Lookup = Found(data: Governance) | Missing | Failed

  /** What the registry answers about a name at an instant. */
  type Registry = (string, real) -> Lookup

  datatype CacheEntry = CacheEntry(data: Governance, expiresAt: real)

  type Cache = map<string, CacheEntry>

  /** The governance dict as a field; `encode` writes its four values. */
  type Encoder = Governance -> Field

  function Cached(cache: Cache, name: string, now: real): Option<Governance> {
    if name in cache && now < cache[name].expiresAt then Some(cache[name].data) else None
  }

  function DataOf(answer: Lookup): Option<Governance> {
    if answer.Found? then Some(answer.data) else None
  }

  function Stored(cache: Cache, name: string, now: real, ttl: real, answer: Lookup): Cache {
    if answer.Found? then cache[name := CacheEntry(answer.data, now + ttl)] else cache
  }

  /** The event already carries governance data. */
  predicate Governed(event: Event) {
    "details" in event && event["details"].Dict? && "governance" in event["details"].entries
  }

  function AgentOf(event: Event): string {
    if "agent" in event && event["agent"].Text? then event["agent"].text else ""
  }

  function BaseDetails(event: Event): map<string, Field> {
    if "details" in event && event["details"].Dict? then event["details"].entries else map[]
  }

  function Enriched(event: Event, governance: Field): Event {
    event["details" := Dict(BaseDetails(event)["governance" := governance])]
  }

  /** One attempt to hand an event to the sink. */
  datatype Attempt = Attempt(sent: Event, ok: bool)

  /** The attempts for an event: the enriched form when there is data, and the original when that one raised or
      there was nothing to add. */
  function Attempts(event: Event, governance: Option<Field>, enrichedFails: bool, originalFails: bool): seq<Attempt> {
    if governance.Some? then
      var enriched := Enriched(event, governance.value);
      if enrichedFails then [Attempt(enriched, false), Attempt(event, !originalFails)]
      else [Attempt(enriched, true)]
    else [Attempt(event, !originalFails)]
  }

  /** The data an emit works with: none when the event is governed already or names no agent. */
  function DataFor(cache: Cache, registry: Registry, event: Event, now: real, at: real): Option<Governance> {
    if Governed(event) || AgentOf(event) == "" then None
    else if Cached(cache, AgentOf(event), now).Some? then Cached(cache, AgentOf(event), now)
    else DataOf(registry(AgentOf(event), at))
  }

  function CacheAfter(cache: Cache, registry: Registry, ttl: real, event: Event, now: real, at: real): Cache {
    if Governed(event) || AgentOf(event) == "" || Cached(cache, AgentOf(event), now).Some? then cache
    else Stored(cache, AgentOf(event), now, ttl, registry(AgentOf(event), at))
  }

  function Written(data: Option<Governance>, encode: Encoder): Option<Field> {
    if data.Some? then Some(encode(data.value)) else None
  }

  class AuditSink {
    var attempts: seq<Attempt>

    constructor ()
      ensures attempts == []
    {
      attempts := [];
    }

    method Emit(event: Event, fails: bool) returns (raised: bool)
      modifies this
      ensures raised == fails && attempts == old(attempts) + [Attempt(event, !fails)]
    {
      attempts := attempts + [Attempt(event, !fails)];
      raised := fails;
    }
  }

  class InProcessAuditEnricher {
    const downstream: AuditSink
    const registry: Registry
    const encode: Encoder
    const cacheTtl: real
    var cache: Cache

    constructor (downstream: AuditSink, registry: Registry, encode: Encoder, cacheTtl: real)
      ensures this.downstream == downstream && this.registry == registry && this.encode == encode
      ensures this.cacheTtl == cacheTtl && cache == map[]
    {
      this.downstream, this.registry, this.encode, this.cacheTtl := downstream, registry, encode, cacheTtl;
      cache := map[];
    }

    /** The cache is checked at `now`, the registry asked, if at all, at `at`. */
    method GetGovernanceData(name: string, now: real, at: real) returns (data: Option<Governance>, failed: bool)
      modifies this`cache
      ensures var hit := Cached(old(cache), name, now);
              && data == (if hit.Some? then hit else DataOf(registry(name, at)))
              && failed == (hit.None? && registry(name, at).Failed?)
              && cache == if hit.Some? then old(cache) else Stored(old(cache), name, now, cacheTtl, registry(name, at))
    {
      if name in cache && now < cache[name].expiresAt {
        return Some(cache[name].data), false;
      }
      var answer := registry(name, at);
      if answer.Failed? {
        return None, true;
      }
      if answer.Missing? {
        return None, false;
      }
      cache := cache[name := CacheEntry(answer.data, now + cacheTtl)];
      data, failed := Some(answer.data), false;
    }

    method Emit(event: Event, now: real, at: real, enrichedFails: bool, originalFails: bool) returns (raised: bool)
      modifies this`cache, downstream
      ensures var data := DataFor(old(cache), registry, event, now, at);
              && downstream.attempts
                 == old(downstream.attempts) + Attempts(event, Written(data, encode), enrichedFails, originalFails)
              && raised == ((data.Some? ==> enrichedFails) && originalFails)
      ensures cache == CacheAfter(old(cache), registry, cacheTtl, event, now, at)
    {
      if Governed(event) {
        raised := downstream.Emit(event, originalFails);
        return;
      }
      var name := AgentOf(event);
      if name != "" {
        var data, failed := GetGovernanceData(name, now, at);
        if !failed && data.Some? {
          var failedToSend := downstream.Emit(Enriched(event, encode(data.value)), enrichedFails);
          if !failedToSend {
            return false;
          }
        }
      }
      raised := downstream.Emit(event, originalFails);
    }
  }
}
