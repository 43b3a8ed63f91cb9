/** Delegation lineage: packages/presidium/src/presidium/lineage.py. */
module Lineage {
  import opened Common
  import opened Model

  /** A missing ceiling bounds like 1.0. */
  function Cap(ceiling: Option<real>): real {
    if ceiling.Some? then ceiling.value else 1.0
  }

  function ChildCeiling(parent: AgentRecord, requested: Option<real>): real {
    Max(0.0, Min(Min(Cap(requested), Cap(parent.trustCeiling)), parent.trustValue))
  }

  /** The pairs asked for that the parent does not hold, if any, are the error. */
  function ValidateNarrowing(parent: AgentRecord, childName: string, childGrants: seq<Grant>)
    : Option<RegistryError>
  {
    var excess := Pairs(childGrants) - Pairs(parent.grants);
    if excess != {} then Some(GrantEscalation(childName, parent.name, excess)) else None
  }

  function ChildDepth(parent: AgentRecord, childName: string, maxDepth: int): Result<int, RegistryError> {
    var depth := parent.depth + 1;
    if depth > maxDepth then Err(DelegationDepthExceeded(childName, depth, maxDepth)) else Ok(depth)
  }

  /** The lineage part of `register`, the same in every backend: the record as it will be stored. */
  function DeriveChild(parent: AgentRecord, record: AgentRecord, maxDepth: int): Result<AgentRecord, RegistryError> {
    var ceiling := ChildCeiling(parent, record.trustCeiling);
    var value := Min(record.trustValue, ceiling);
    var narrowed := ValidateNarrowing(parent, record.name, record.grants);
    if narrowed.Some? then Err(narrowed.value)
    else
      match ChildDepth(parent, record.name, maxDepth)
      case Err(e) => Err(e)
      case Ok(depth) =>
        Ok(record.(trustCeiling := Some(ceiling), trustValue := value, trustTier := TierFor(value), depth := depth))
  }

  /** A child is never above its parent's ceiling exactly when that ceiling is not negative, never above
      its parent's current value exactly when that value is not negative, and never above its own request
      exactly when that is not negative. */
  lemma ChildCeilingBoundsIff(parent: AgentRecord, requested: Option<real>)
    ensures var c := ChildCeiling(parent, requested);
            && c >= 0.0
            && (c <= Cap(parent.trustCeiling) <==> Cap(parent.trustCeiling) >= 0.0)
            && (c <= parent.trustValue <==> parent.trustValue >= 0.0)
            && (c <= Cap(requested) <==> Cap(requested) >= 0.0)
  {
  }

  // ---- What a child is due, without the functions that compute it ----

  /** Within the request, the parent's ceiling and the parent's value; an absent bound is 1.0. */
  predicate Allowed(x: real, parent: AgentRecord, requested: Option<real>) {
    && (match requested case Some(r) => x <= r case None => x <= 1.0)
    && (match parent.trustCeiling case Some(c) => x <= c case None => x <= 1.0)
    && x <= parent.trustValue
  }

  /** The child's ceiling is the greatest real allowed, or zero when that is negative; its value is the greatest real
      within that ceiling and the value asked for; its tier is the value's; it is one deeper than its parent. */
  ghost predicate Narrowed(parent: AgentRecord, asked: AgentRecord, child: AgentRecord) {
    && child.trustCeiling.Some?
    && var c, v := child.trustCeiling.value, child.trustValue;
       && c >= 0.0 && (c > 0.0 ==> Allowed(c, parent, asked.trustCeiling))
       && (forall x :: Allowed(x, parent, asked.trustCeiling) ==> x <= c)
       && v <= c && v <= asked.trustValue && (v == c || v == asked.trustValue)
       && (child.trustTier == Trusted <==> v >= 0.7)
       && (child.trustTier == Standard <==> 0.3 <= v < 0.7)
       && child.depth == parent.depth + 1
  }

  lemma NarrowedUnique(parent: AgentRecord, asked: AgentRecord, a: AgentRecord, b: AgentRecord)
    requires Narrowed(parent, asked, a) && Narrowed(parent, asked, b)
    ensures a.trustCeiling == b.trustCeiling && a.trustValue == b.trustValue && a.trustTier == b.trustTier
    ensures a.depth == b.depth
  {
  }

  lemma GreatestAllowed(parent: AgentRecord, requested: Option<real>)
    ensures var c := ChildCeiling(parent, requested);
            && c >= 0.0 && (c > 0.0 ==> Allowed(c, parent, requested))
            && forall x :: Allowed(x, parent, requested) ==> x <= c
  {
  }

  /** A child is derived exactly when its parent holds every pair asked for and the depth is within the maximum;
      escalation is reported before depth; and nothing but ceiling, value, tier and depth is taken from the parent. */
  lemma DerivedIff(parent: AgentRecord, asked: AgentRecord, maxDepth: int)
    ensures var derived := DeriveChild(parent, asked, maxDepth);
            && (derived.Ok? <==> Pairs(asked.grants) <= Pairs(parent.grants) && parent.depth + 1 <= maxDepth)
            && (derived.Ok? ==>
                  var child := derived.value;
                  && Narrowed(parent, asked, child)
                  && child == asked.(trustCeiling := child.trustCeiling, trustValue := child.trustValue,
                                     trustTier := child.trustTier, depth := child.depth))
            && (derived.Err? ==>
                  derived.error == if Pairs(asked.grants) <= Pairs(parent.grants)
                                   then DelegationDepthExceeded(asked.name, parent.depth + 1, maxDepth)
                                   else GrantEscalation(asked.name, parent.name,
                                                        Pairs(asked.grants) - Pairs(parent.grants)))
  {
    GreatestAllowed(parent, asked.trustCeiling);
    NarrowingIff(parent, asked.name, asked.grants);
    hide Pairs, ChildCeiling, Allowed;
  }

  /** Narrowing succeeds exactly when every pair asked for is held by the parent, and an error names
      exactly the pairs that are not. */
  lemma NarrowingIff(parent: AgentRecord, childName: string, childGrants: seq<Grant>)
    ensures ValidateNarrowing(parent, childName, childGrants).None? <==> Pairs(childGrants) <= Pairs(parent.grants)
    ensures match ValidateNarrowing(parent, childName, childGrants)
            case None => true
            case Some(e) =>
              e.GrantEscalation? && e.excess != {} &&
              forall p :: p in e.excess <==> p in Pairs(childGrants) && p !in Pairs(parent.grants)
  {
    var excess := Pairs(childGrants) - Pairs(parent.grants);
    assert excess == {} <==> Pairs(childGrants) <= Pairs(parent.grants) by {
      if excess == {} {
        forall p | p in Pairs(childGrants) ensures p in Pairs(parent.grants) {
          assert p !in excess;
        }
      }
    }
  }
}
