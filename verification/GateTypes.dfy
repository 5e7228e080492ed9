/** Courses of action, sealed tokens and tier policy (`core/coa.py`,
    `core/schema.py`, `core/policy.py`). */
module GateTypes {
  import opened Json
  import opened Geofence

  datatype Tier = Tier0Autonomous | Tier1Hitl | Tier2DualKey

  datatype GateVerdict = APPROVED | REJECTED_FAST | REJECTED_OPERATOR | TIMED_OUT_FALLBACK

  /** A tasking proposal. `draft` and `altitude` are the two metadata entries the
      interlock reads, `pairedWith` the one the navy copy adds. */
  datatype Coa = Coa(
    id: string,
    tier: Tier,
    target: string,
    at: Point,
    intent: string,
    timeout: real,
    confidence: real,
    sources: nat,
    speedKt: Option<real>,
    draft: bool,
    altitude: Option<real>,
    pairedWith: Option<string>,
    fallbackOf: Option<string>)

  datatype Token = Token(
    tokenId: string,
    coaId: string,
    verdict: GateVerdict,
    issuedAt: string,
    operator: Option<string>,
    reason: Option<string>,
    digest: string)

  /** The sealed part of a token is everything but its digest. */
  function Unsealed(t: Token): Token {
    t.(digest := "")
  }

  type TokenHash = Token -> string

  function Seal(hash: TokenHash, t: Token): Token {
    t.(digest := hash(Unsealed(t)))
  }

  /** Anyone can recompute the digest from the other fields. */
  predicate IsSealed(hash: TokenHash, t: Token) {
    t.digest == hash(Unsealed(t))
  }

  // ---------------------------------------------------------------- tier policy

  datatype TierPolicy = TierPolicy(
    defaultTimeout: real,
    autoApproveMin: real,
    minSources: nat)

  const AUTO_INTENTS := {"OBSERVE_ONLY", "STATION_KEEP"}

  function ResolveTier(policy: TierPolicy, coa: Coa): Tier {
    if coa.tier == Tier2DualKey then Tier2DualKey
    else if coa.confidence >= policy.autoApproveMin && coa.sources >= policy.minSources && coa.intent in AUTO_INTENTS
    then Tier0Autonomous
    else if coa.tier == Tier0Autonomous then Tier0Autonomous
    else Tier1Hitl
  }

  function ApplyDefaults(policy: TierPolicy, coa: Coa): Coa {
    coa.(
      timeout := if coa.timeout <= 0.0 then policy.defaultTimeout else coa.timeout,
      tier := ResolveTier(policy, coa))
  }
}
