/** What the hot store's scripts mean: one key is free, leased or holds a cached result. */
module LeaseSpec {
  import opened Results
  import opened Models
  import H = HotStore
  import L = LeaseRuns

  /** `until` is in milliseconds and inclusive. */
  datatype Key =
    | Free
    | Leased(owner: Token, fingerprint: Digest, until: int)
    | Cached(completed: Completed, until: int)

  function InForce(k: Key, now: Time): Key {
    if k.Free? || H.Ms(now) <= k.until then k else Free
  }

  function Claim(k: Key, fingerprint: Digest, token: Token, leaseSeconds: nat, now: Time): (Key, H.ClaimResult) {
    match InForce(k, now)
    case Free => (Leased(token, fingerprint, H.Ms(now) + 1000 * leaseSeconds), H.ClaimAcquired)
    case Leased(_, f, _) => (k, if f == fingerprint then H.ClaimInProgress else H.ClaimConflict)
    case Cached(c, _) => (k, if c.fingerprint == fingerprint then H.ClaimReplay(c) else H.ClaimConflict)
  }

  predicate Owns(k: Key, token: Token, now: Time) {
    InForce(k, now).Leased? && k.owner == token
  }

  function Renew(k: Key, token: Token, leaseSeconds: nat, now: Time): Key {
    if Owns(k, token, now) then k.(until := H.Ms(now) + 1000 * leaseSeconds) else InForce(k, now)
  }

  /** The owner publishes a result for this request, for as long as it may be replayed and at most `cacheMs`. */
  function Complete(k: Key, token: Token, c: Completed, cacheMs: int, now: Time): (Key, bool) {
    if !Owns(k, token, now) || k.fingerprint != c.fingerprint then (InForce(k, now), false)
    else
      var until := H.Min(H.Ms(now) + cacheMs, H.Ms(c.expiresAt));
      if until <= H.Ms(now) then (Free, false) else (Cached(c, until), true)
  }

  function Release(k: Key, token: Token, now: Time): Key {
    if Owns(k, token, now) then Free else InForce(k, now)
  }

  /** What a stored hash stands for. */
  function Meaning(slot: H.Slot): Key
    requires slot.Some? ==> H.WellFormed(slot.value)
  {
    if slot.None? then Free
    else if slot.value.leaseToken.Some?
    then Leased(slot.value.leaseToken.value, slot.value.fingerprint.value, slot.value.deadline)
    else Cached(slot.value.result.value, slot.value.deadline)
  }

  /** On well-formed hashes each script does and answers what the operation it implements does and answers. */
  lemma ScriptsMeanOperations(slot: H.Slot, f: Digest, t: Token, lease: nat, c: Completed, cacheMs: int, now: Time)
    requires slot.Some? ==> H.WellFormed(slot.value)
    ensures var (slot', reply) := H.ClaimScript(slot, f, t, lease, now);
            var (k, answer) := Claim(Meaning(slot), f, t, lease, now);
            (slot'.Some? ==> H.WellFormed(slot'.value)) && Meaning(slot') == k && H.DecodeReply(reply, f) == Ok(answer)
    ensures var (slot', ok) := H.RenewScript(slot, t, lease, now);
            (slot'.Some? ==> H.WellFormed(slot'.value)) && Meaning(slot') == Renew(Meaning(slot), t, lease, now)
            && (ok <==> Owns(Meaning(slot), t, now))
    ensures var (slot', ok) := H.CompleteScript(slot, t, c, cacheMs, now);
            (slot'.Some? ==> H.WellFormed(slot'.value)) && (Meaning(slot'), ok) == Complete(Meaning(slot), t, c, cacheMs, now)
    ensures var (slot', ok) := H.ReleaseScript(slot, t, now);
            (slot'.Some? ==> H.WellFormed(slot'.value)) && Meaning(slot') == Release(Meaning(slot), t, now)
            && (ok <==> Owns(Meaning(slot), t, now))
  {
  }

  /** A key over a history, told by the operations alone. */
  datatype Life = Life(key: Key, now: Time, used: set<Token>)

  function Next(s: Life, e: L.Event): Life {
    match e
    case Claim(f, t, lease) =>
      if t in s.used then s else s.(key := Claim(s.key, f, t, lease, s.now).0, used := s.used + {t})
    case Renew(t, lease) => s.(key := Renew(s.key, t, lease, s.now))
    case Complete(t, c, cacheMs) => s.(key := Complete(s.key, t, c, cacheMs, s.now).0)
    case Release(t) => s.(key := Release(s.key, t, s.now))
    case Wait(d) => s.(now := s.now + d)
    case Evict => s.(key := Free)
  }

  function Live(es: seq<L.Event>): Life {
    if es == [] then Life(Free, 0, {}) else Next(Live(es[..|es| - 1]), es[|es| - 1])
  }

  /** In every history the stored hash stands for the key the operations would leave. */
  lemma {:induction false} HistoriesMeanOperations(es: seq<L.Event>)
    ensures var s := L.Run(L.ABSENT, es);
            && (s.slot.Some? ==> H.WellFormed(s.slot.value))
            && Live(es) == Life(Meaning(s.slot), s.now, s.used)
  {
    if es != [] {
      var init, e := es[..|es| - 1], es[|es| - 1];
      HistoriesMeanOperations(init);
      var s := L.Run(L.ABSENT, init);
      match e {
        case Claim(f, t, lease) => ScriptsMeanOperations(s.slot, f, t, lease, ANY, 0, s.now);
        case Renew(t, lease) => ScriptsMeanOperations(s.slot, 0, t, lease, ANY, 0, s.now);
        case Complete(t, c, cacheMs) => ScriptsMeanOperations(s.slot, 0, t, 0, c, cacheMs, s.now);
        case Release(t) => ScriptsMeanOperations(s.slot, 0, t, 0, ANY, 0, s.now);
        case Wait(_) =>
        case Evict =>
      }
    }
  }

  const ANY := Completed(COMPLETION, 0, 0)

  /**
   After every history a claim is answered by what the key stands for: acquired if it is free, in progress or a
   replay of the cached result for the same request, a conflict for another one; never as corrupted.
   */
  lemma ClaimsAnswerFromHistory(es: seq<L.Event>, f: Digest, t: Token, lease: nat)
    ensures var s := L.Run(L.ABSENT, es);
            H.DecodeReply(H.ClaimScript(s.slot, f, t, lease, s.now).1, f) ==
            Ok(match InForce(Live(es).key, Live(es).now)
               case Free => H.ClaimAcquired
               case Leased(_, g, _) => if f == g then H.ClaimInProgress else H.ClaimConflict
               case Cached(c, _) => if c.fingerprint == f then H.ClaimReplay(c) else H.ClaimConflict)
  {
    HistoriesMeanOperations(es);
    var s := L.Run(L.ABSENT, es);
    ScriptsMeanOperations(s.slot, f, t, lease, ANY, 0, s.now);
  }
}
