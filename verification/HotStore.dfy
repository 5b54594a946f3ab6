/**
 The Redis store of leases and cached results. Each Lua script is one atomic function of the key it is
 given; a key is gone once its deadline (in milliseconds, as Redis counts) has passed.
 */
module HotStore {
  import opened Results
  import opened Models

  datatype EntryState = Processing | Finished | Unknown

  /** The fields of one hash and its time to live; any field can be missing. */
  datatype Hash = Hash(
    formatVersion: Option<nat>,
    state: Option<EntryState>,
    fingerprint: Option<Digest>,
    leaseToken: Option<Token>,
    result: Option<Completed>,
    deadline: int)

  type Slot = Option<Hash>

  datatype Reply = Acquired | Replay(result: Completed) | Conflict | InProgress | Corrupted

  datatype HotError = Unavailable

  function Ms(now: Time): int {
    now / 1000
  }

  /** What a script sees of a key; an expired key is deleted before the script runs. */
  function Visible(slot: Slot, now: Time): Slot {
    if slot.Some? && Ms(now) <= slot.value.deadline then slot else None
  }

  function ClaimScript(slot: Slot, fingerprint: Digest, token: Token, leaseSeconds: nat, now: Time): (Slot, Reply) {
    var seen := Visible(slot, now);
    if seen.None? then
      (Some(Hash(Some(2), Some(Processing), Some(fingerprint), Some(token), None, Ms(now) + 1000 * leaseSeconds)), Acquired)
    else
      var h := seen.value;
      (seen,
       if h.state.None? then Corrupted
       else if h.formatVersion != Some(2) || h.fingerprint.None? then Corrupted
       else if h.state == Some(Processing) && (h.leaseToken.None? || h.result.Some?) then Corrupted
       else if h.state == Some(Finished) && (h.result.None? || h.leaseToken.Some?) then Corrupted
       else if h.fingerprint != Some(fingerprint) then Conflict
       else if h.state == Some(Finished) then Replay(h.result.value)
       else if h.state == Some(Processing) then InProgress
       else Corrupted)
  }

  /** The visible entry is a lease held by `token`. */
  predicate OwnedBy(seen: Slot, token: Token) {
    seen.Some? && seen.value.formatVersion == Some(2) && seen.value.state == Some(Processing)
    && seen.value.leaseToken == Some(token)
  }

  function RenewScript(slot: Slot, token: Token, leaseSeconds: nat, now: Time): (Slot, bool) {
    var seen := Visible(slot, now);
    if OwnedBy(seen, token) && seen.value.fingerprint.Some?
    then (Some(seen.value.(deadline := Ms(now) + 1000 * leaseSeconds)), true)
    else (seen, false)
  }

  function Min(a: int, b: int): int {
    if a <= b then a else b
  }

  function CompleteScript(slot: Slot, token: Token, completed: Completed, cacheMs: int, now: Time): (Slot, bool) {
    var seen := Visible(slot, now);
    if OwnedBy(seen, token) && seen.value.fingerprint == Some(completed.fingerprint) then
      var ttl := Min(cacheMs, Ms(completed.expiresAt) - Ms(now));
      if ttl <= 0 then (None, false)
      else (Some(seen.value.(state := Some(Finished), result := Some(completed), leaseToken := None, deadline := Ms(now) + ttl)), true)
    else (seen, false)
  }

  function ReleaseScript(slot: Slot, token: Token, now: Time): (Slot, bool) {
    var seen := Visible(slot, now);
    if OwnedBy(seen, token) then (None, true) else (seen, false)
  }

  /** Either a lease or a result, never both, and no result that outlives its own deadline. */
  predicate WellFormed(h: Hash) {
    && h.formatVersion == Some(2)
    && h.fingerprint.Some?
    && (h.state == Some(Processing) || h.state == Some(Finished))
    && (h.state == Some(Processing) <==> h.leaseToken.Some?)
    && (h.state == Some(Finished) <==> h.result.Some?)
    && (h.result.Some? ==> h.fingerprint == Some(h.result.value.fingerprint) && h.deadline <= Ms(h.result.value.expiresAt))
  }

  type Keyspace = map<Identity, Hash>

  function At(entries: Keyspace, key: Identity): Slot {
    if key in entries then Some(entries[key]) else None
  }

  function Put(entries: Keyspace, key: Identity, slot: Slot): Keyspace {
    if slot.Some? then entries[key := slot.value] else entries - {key}
  }

  datatype ClaimResult = ClaimAcquired | ClaimReplay(completed: Completed) | ClaimConflict | ClaimInProgress

  /** How the adapter reads the claim script's reply. */
  function DecodeReply(reply: Reply, fingerprint: Digest): Result<ClaimResult, HotError> {
    match reply
    case Acquired => Ok(ClaimAcquired)
    case Replay(c) => if c.fingerprint == fingerprint then Ok(ClaimReplay(c)) else Err(Unavailable)
    case Conflict => Ok(ClaimConflict)
    case InProgress => Ok(ClaimInProgress)
    case Corrupted => Err(Unavailable)
  }

  /** The store object: each method runs its script against one key and leaves the other keys alone. */
  class RedisHotStore {
    var entries: Keyspace

    constructor ()
      ensures entries == map[]
    {
      entries := map[];
    }

    /** Deletes a key whose time has run out, as Redis does before a script touches it. */
    method DropExpired(key: Identity, now: Time)
      modifies this
      ensures entries == Put(old(entries), key, Visible(At(old(entries), key), now))
    {
      if key in entries && entries[key].deadline < Ms(now) {
        entries := entries - {key};
      }
    }

    method Claim(key: Identity, fingerprint: Digest, token: Token, leaseSeconds: nat, now: Time)
      returns (r: Result<ClaimResult, HotError>)
      modifies this
      ensures var (slot, reply) := ClaimScript(At(old(entries), key), fingerprint, token, leaseSeconds, now);
              entries == Put(old(entries), key, slot) && r == DecodeReply(reply, fingerprint)
    {
      DropExpired(key, now);
      if key !in entries {
        entries := entries[key := Hash(Some(2), Some(Processing), Some(fingerprint), Some(token), None,
                                       Ms(now) + 1000 * leaseSeconds)];
        return Ok(ClaimAcquired);
      }
      var h := entries[key];
      if h.state.None? || h.formatVersion != Some(2) || h.fingerprint.None? {
        return Err(Unavailable);
      }
      if h.state == Some(Processing) && (h.leaseToken.None? || h.result.Some?) {
        return Err(Unavailable);
      }
      if h.state == Some(Finished) && (h.result.None? || h.leaseToken.Some?) {
        return Err(Unavailable);
      }
      if h.fingerprint != Some(fingerprint) {
        return Ok(ClaimConflict);
      }
      match h.state.value {
        case Finished =>
          if h.result.value.fingerprint != fingerprint {
            return Err(Unavailable);
          }
          return Ok(ClaimReplay(h.result.value));
        case Processing =>
          return Ok(ClaimInProgress);
        case Unknown =>
          return Err(Unavailable);
      }
    }

    method Renew(key: Identity, token: Token, leaseSeconds: nat, now: Time) returns (renewed: bool)
      modifies this
      ensures var (slot, ok) := RenewScript(At(old(entries), key), token, leaseSeconds, now);
              renewed == ok && entries == Put(old(entries), key, slot)
    {
      DropExpired(key, now);
      renewed := key in entries && OwnedBy(Some(entries[key]), token) && entries[key].fingerprint.Some?;
      if renewed {
        entries := entries[key := entries[key].(deadline := Ms(now) + 1000 * leaseSeconds)];
      }
    }

    method Complete(key: Identity, token: Token, completed: Completed, cacheSeconds: nat, now: Time) returns (published: bool)
      modifies this
      ensures var (slot, ok) := CompleteScript(At(old(entries), key), token, completed, 1000 * cacheSeconds, now);
              published == ok && entries == Put(old(entries), key, slot)
    {
      DropExpired(key, now);
      if key !in entries || !OwnedBy(Some(entries[key]), token) || entries[key].fingerprint != Some(completed.fingerprint) {
        return false;
      }
      var ttl := Min(1000 * cacheSeconds, Ms(completed.expiresAt) - Ms(now));
      if ttl <= 0 {
        entries := entries - {key};
        return false;
      }
      entries := entries[key := entries[key].(state := Some(Finished), result := Some(completed))];
      entries := entries[key := entries[key].(leaseToken := None)];
      entries := entries[key := entries[key].(deadline := Ms(now) + ttl)];
      published := true;
    }

    method Release(key: Identity, token: Token, now: Time) returns (released: bool)
      modifies this
      ensures var (slot, ok) := ReleaseScript(At(old(entries), key), token, now);
              released == ok && entries == Put(old(entries), key, slot)
    {
      DropExpired(key, now);
      released := key in entries && OwnedBy(Some(entries[key]), token);
      if released {
        entries := entries - {key};
      }
    }
  }
}
