/** The values the idempotency components exchange. */
module Models {
  import opened Results
  import opened Json

  /** Microseconds; datetimes carry no finer resolution. */
  type Time = int

  /** 32-byte SHA-256 digests; digests of different material are different. */
  type Digest = nat

  /** Lease tokens: version 7 UUIDs, never issued twice. */
  type Token = nat

  /** Subject, operation and key digest together. */
  type Identity = nat

  const SECOND: Time := 1_000_000

  datatype StoredResult = StoredResult(
    resultType: string,
    payload: Option<map<string, Json>>,
    resultVersion: int,
    resourceType: Option<string>,
    resourceId: Option<string>,
    resourceVersion: Option<int>)
  {
    predicate IsCompletionOnly() {
      resultType == "completion"
    }

    /** A completion marker carries nothing; any other result has a payload or names a resource. */
    predicate Valid() {
      1 <= |resultType| <= 100 && resultVersion > 0
      && (resourceType.Some? ==> 1 <= |resourceType.value| <= 100)
      && (resourceVersion.Some? ==> resourceVersion.value > 0)
      && if IsCompletionOnly() then
           payload.None? && resourceType.None? && resourceId.None? && resourceVersion.None?
         else
           && (resourceType.Some? <==> resourceId.Some?)
           && (payload.Some? || resourceId.Some?)
           && (resourceVersion.Some? ==> resourceId.Some?)
    }
  }

  const COMPLETION := StoredResult("completion", None, 1, None, None, None)

  datatype Completed = Completed(result: StoredResult, expiresAt: Time, fingerprint: Digest)

  datatype Policy = Policy(leaseSeconds: nat, retentionSeconds: nat, hotCacheSeconds: nat)

  /** A HOT_DURABLE policy. */
  predicate ValidPolicy(p: Policy) {
    0 < p.leaseSeconds && 0 < p.hotCacheSeconds <= p.retentionSeconds
  }
}
