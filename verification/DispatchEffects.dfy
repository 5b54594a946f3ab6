/** What the steps of a dispatch do to its key in the hot store, and what later claims of the key are told. */
module DispatchEffects {
  import opened Results
  import opened Models
  import H = HotStore
  import L = LeaseSpec
  import D = DurableProtocol
  import P = DispatchSafety
  import opened DispatchProtocol

  // ---- whose leases there are ----

  /** Every lease is held by a dispatch of its key and fingerprint. */
  predicate LeasesAreTheirs(w: World) {
    forall k :: k in w.hot && w.hot[k].leaseToken.Some? ==>
      var x := w.hot[k].leaseToken.value;
      x in w.dispatches && w.dispatches[x].request.key == k && w.hot[k].fingerprint == Some(w.dispatches[x].request.fingerprint)
  }

  lemma ScriptKeepsLease(slot: H.Slot, d: Dispatch, x: Worker, script: Script, sent: Option<Completed>, now: Time)
    requires script.CompleteScript? ==> sent.Some?
    ensures var slot' := NewSlot(slot, d, x, script, sent, now);
            slot'.Some? && slot'.value.leaseToken.Some? ==>
              || (slot.Some? && slot'.value.leaseToken == slot.value.leaseToken && slot'.value.fingerprint == slot.value.fingerprint)
              || (slot'.value.leaseToken == Some(x) && slot'.value.fingerprint == Some(d.request.fingerprint))
  {
  }

  lemma ActKeepsLeases(w: World, x: Worker, a: Action)
    requires LeasesAreTheirs(w) && x in w.dispatches && Allowed(w, x, a)
    ensures LeasesAreTheirs(ActStep(w, x, a))
  {
    var d := w.dispatches[x];
    if ScriptOf(a).Some? {
      ScriptKeepsLease(H.At(w.hot, d.request.key), d, x, ScriptOf(a).value, NextSent(w, x, a), w.now);
    }
  }

  lemma {:induction false} Reachable(es: seq<Event>)
    ensures LeasesAreTheirs(Run(INITIAL, es))
  {
    if es != [] {
      var w, e := Run(INITIAL, es[..|es| - 1]), es[|es| - 1];
      Reachable(es[..|es| - 1]);
      if e.Act? && e.worker in w.dispatches && Allowed(w, e.worker, e.action) {
        ActKeepsLeases(w, e.worker, e.action);
      }
    }
  }

  // ---- actions are operations on a key that is free, leased or holds a result ----

  /** What the hot store holds for a key. */
  function KeyIn(w: World, key: Identity): L.Key {
    KeyOf(H.At(w.hot, key))
  }

  function KeyOf(slot: H.Slot): L.Key {
    if slot.Some? && H.WellFormed(slot.value) then L.Meaning(slot) else L.Free
  }

  predicate SlotOk(slot: H.Slot) {
    slot.Some? ==> H.WellFormed(slot.value)
  }

  lemma {:induction false} EntriesAreWellFormed(es: seq<Event>, key: Identity)
    ensures SlotOk(H.At(Run(INITIAL, es).hot, key))
  {
    P.Reachable(es);
  }

  /** The operation on its key that an action of dispatch `d`, with token `x`, comes to. */
  function Operation(k: L.Key, d: Dispatch, x: Worker, a: Action, now: Time): L.Key
    requires a.Complete? ==> d.phase.Publishing? && CarriesResult(d.phase.outcome)
    requires a == Late(CompleteScript) ==> d.sent.Some?
  {
    var lease, cacheMs := d.policy.leaseSeconds, 1000 * d.policy.hotCacheSeconds;
    match a
    case Claim => L.Claim(k, d.request.fingerprint, x, lease, now).0
    case Renew => L.Renew(k, x, lease, now)
    case Complete => L.Complete(k, x, d.phase.outcome.completed, cacheMs, now).0
    case Release => L.Release(k, x, now)
    case GiveBack => L.Release(k, x, now)
    case Late(ClaimScript) => L.Claim(k, d.request.fingerprint, x, lease, now).0
    case Late(RenewScript) => L.Renew(k, x, lease, now)
    case Late(CompleteScript) => L.Complete(k, x, d.sent.value, cacheMs, now).0
    case Late(ReleaseScript) => L.Release(k, x, now)
    case _ => k
  }

  /** The same, script by script. */
  function ScriptOperation(k: L.Key, d: Dispatch, x: Worker, script: Script, sent: Option<Completed>, now: Time): L.Key
    requires script.CompleteScript? ==> sent.Some?
  {
    match script
    case ClaimScript => L.Claim(k, d.request.fingerprint, x, d.policy.leaseSeconds, now).0
    case RenewScript => L.Renew(k, x, d.policy.leaseSeconds, now)
    case CompleteScript => L.Complete(k, x, sent.value, 1000 * d.policy.hotCacheSeconds, now).0
    case ReleaseScript => L.Release(k, x, now)
  }

  lemma ScriptMeansOperation(slot: H.Slot, d: Dispatch, x: Worker, script: Script, sent: Option<Completed>, now: Time)
    requires SlotOk(slot) && (script.CompleteScript? ==> sent.Some?)
    ensures var slot' := NewSlot(slot, d, x, script, sent, now);
            SlotOk(slot') && KeyOf(slot') == ScriptOperation(KeyOf(slot), d, x, script, sent, now)
  {
    L.ScriptsMeanOperations(slot, d.request.fingerprint, x, d.policy.leaseSeconds,
                            if sent.Some? then sent.value else L.ANY, 1000 * d.policy.hotCacheSeconds, now);
  }

  lemma ActionRunsScript(w: World, x: Worker, a: Action)
    requires x in w.dispatches && Allowed(w, x, a)
    ensures var d := w.dispatches[x];
            var slot, slot' := H.At(w.hot, d.request.key), H.At(Step(w, Act(x, a)).hot, d.request.key);
            slot' == if ScriptOf(a).Some? then NewSlot(slot, d, x, ScriptOf(a).value, NextSent(w, x, a), w.now) else slot
    ensures forall other :: other != w.dispatches[x].request.key ==> H.At(Step(w, Act(x, a)).hot, other) == H.At(w.hot, other)
  {
  }

  lemma ActionNamesOperation(w: World, x: Worker, a: Action, k: L.Key)
    requires x in w.dispatches && Allowed(w, x, a)
    ensures Operation(k, w.dispatches[x], x, a, w.now) ==
            if ScriptOf(a).Some? then ScriptOperation(k, w.dispatches[x], x, ScriptOf(a).value, NextSent(w, x, a), w.now) else k
  {
  }

  /** In every run each action does to its key what its operation does, and leaves all other keys alone. */
  lemma {:induction false} ActionsAreOperations(es: seq<Event>, x: Worker, a: Action)
    requires var w := Run(INITIAL, es); x in w.dispatches && Allowed(w, x, a)
    ensures var w := Run(INITIAL, es);
            var d, w' := w.dispatches[x], Step(w, Act(x, a));
            var key := d.request.key;
            && KeyIn(w', key) == Operation(KeyIn(w, key), d, x, a, w.now)
            && SlotOk(H.At(w.hot, key)) && SlotOk(H.At(w'.hot, key))
            && (forall other :: other != key ==> H.At(w'.hot, other) == H.At(w.hot, other))
  {
    var w := Run(INITIAL, es);
    var d := w.dispatches[x];
    EntriesAreWellFormed(es, d.request.key);
    ActionRunsScript(w, x, a);
    ActionNamesOperation(w, x, a, KeyIn(w, d.request.key));
    if ScriptOf(a).Some? {
      ScriptMeansOperation(H.At(w.hot, d.request.key), d, x, ScriptOf(a).value, NextSent(w, x, a), w.now);
    }
  }

  /** What a claim leads to, given what its key holds. */
  function Claimed(k: L.Key, fingerprint: Digest, now: Time): Phase {
    match L.InForce(k, now)
    case Free => Leased(false)
    case Leased(_, f, _) => Busy(f != fingerprint)
    case Cached(c, _) => if c.fingerprint == fingerprint then Answering(Give(c)) else Busy(true)
  }

  predicate Has(w: World, x: Worker, phase: Phase) {
    x in w.dispatches && w.dispatches[x].phase == phase
  }

  lemma ClaimTells(w: World, y: Worker)
    requires y in w.dispatches && w.dispatches[y].phase.Claiming? && SlotOk(H.At(w.hot, w.dispatches[y].request.key))
    ensures var r := w.dispatches[y].request;
            Has(Step(w, Act(y, Claim)), y, Claimed(KeyIn(w, r.key), r.fingerprint, w.now))
  {
    var d := w.dispatches[y];
    L.ScriptsMeanOperations(H.At(w.hot, d.request.key), d.request.fingerprint, y, d.policy.leaseSeconds, L.ANY, 0, w.now);
  }

  /** In every run a claim acquires a free key, and is otherwise told about the lease or the result that is there. */
  lemma {:induction false} ClaimsAreToldTheKey(es: seq<Event>, y: Worker)
    requires var w := Run(INITIAL, es); y in w.dispatches && w.dispatches[y].phase.Claiming?
    ensures var w := Run(INITIAL, es);
            var r := w.dispatches[y].request;
            SlotOk(H.At(w.hot, r.key)) && Has(Step(w, Act(y, Claim)), y, Claimed(KeyIn(w, r.key), r.fingerprint, w.now))
  {
    EntriesAreWellFormed(es, Run(INITIAL, es).dispatches[y].request.key);
    ClaimTells(Run(INITIAL, es), y);
  }

  // ---- what that means for those who come later ----

  /** The key of `x` is leased to it. */
  predicate Holds(w: World, x: Worker) {
    x in w.dispatches && H.OwnedBy(H.Visible(H.At(w.hot, w.dispatches[x].request.key), w.now), x)
  }

  /** Dispatch `y` is about to claim the key of `x`. */
  predicate ClaimsAfter(w: World, x: Worker, y: Worker) {
    && x != y && x in w.dispatches && y in w.dispatches && w.dispatches[y].phase.Claiming?
    && w.dispatches[y].request.key == w.dispatches[x].request.key
  }

  /** `x` acts, `d` microseconds pass, and `y` claims. */
  function Later(w: World, x: Worker, a: Action, d: nat, y: Worker): World {
    Step(Step(Step(w, Act(x, a)), Tick(d)), Act(y, Claim))
  }

  lemma OthersKeepClaiming(w: World, x: Worker, a: Action, d: nat, y: Worker)
    requires ClaimsAfter(w, x, y) && Allowed(w, x, a)
    ensures var w2 := Step(Step(w, Act(x, a)), Tick(d));
            && y in w2.dispatches && w2.dispatches[y] == w.dispatches[y]
            && w2.hot == Step(w, Act(x, a)).hot && w2.now == w.now + d
  {
  }

  /** A later claim is told what the action has made of the key. */
  lemma {:induction false} LaterClaimIsTold(es: seq<Event>, x: Worker, a: Action, d: nat, y: Worker)
    requires var w := Run(INITIAL, es); ClaimsAfter(w, x, y) && Allowed(w, x, a)
    ensures var w := Run(INITIAL, es);
            var k := Operation(KeyIn(w, w.dispatches[x].request.key), w.dispatches[x], x, a, w.now);
            Has(Later(w, x, a, d, y), y, Claimed(k, w.dispatches[y].request.fingerprint, w.now + d))
  {
    var w := Run(INITIAL, es);
    ActionsAreOperations(es, x, a);
    OthersKeepClaiming(w, x, a, d, y);
    ClaimTells(Step(Step(w, Act(x, a)), Tick(d)), y);
  }

  /** The lease of `x`, as the operations know it. */
  lemma {:induction false} LeaseOf(es: seq<Event>, x: Worker)
    requires Holds(Run(INITIAL, es), x)
    ensures var w := Run(INITIAL, es);
            var k := KeyIn(w, w.dispatches[x].request.key);
            L.Owns(k, x, w.now) && k.fingerprint == w.dispatches[x].request.fingerprint
  {
    var w := Run(INITIAL, es);
    EntriesAreWellFormed(es, w.dispatches[x].request.key);
    Reachable(es);
  }

  /** A lease that is released or given back is gone at once: whoever claims the key next, with whatever request, gets it. */
  lemma {:induction false} ReleaseFreesTheKey(es: seq<Event>, x: Worker, a: Action, d: nat, y: Worker)
    requires a in {Release, GiveBack}
    requires var w := Run(INITIAL, es); Holds(w, x) && Allowed(w, x, a) && ClaimsAfter(w, x, y)
    ensures var w := Run(INITIAL, es);
            w.dispatches[x].request.key !in Step(w, Act(x, a)).hot && Has(Later(w, x, a, d, y), y, Leased(false))
  {
    var w := Run(INITIAL, es);
    LeaseOf(es, x);
    ActionsAreOperations(es, x, a);
    LaterClaimIsTold(es, x, a, d, y);
  }

  /** Until when, in milliseconds, a result can be read that is published now. */
  function ReadableUntil(d: Dispatch, c: Completed, now: Time): int {
    H.Min(H.Ms(now) + 1000 * d.policy.hotCacheSeconds, H.Ms(c.expiresAt))
  }

  lemma CachedIsTold(k: L.Key, d: Dispatch, x: Worker, c: Completed, now: Time, t: Time, fingerprint: Digest)
    requires L.Owns(k, x, now) && k.fingerprint == c.fingerprint && now <= t
    requires d.phase.Publishing? && CarriesResult(d.phase.outcome) && c == d.phase.outcome.completed
    ensures var k', until := Operation(k, d, x, Complete, now), ReadableUntil(d, c, now);
            && k' == (if until <= H.Ms(now) then L.Free else L.Cached(c, until))
            && Claimed(k', fingerprint, t) ==
               if until <= H.Ms(now) || until < H.Ms(t) then Leased(false)
               else if fingerprint == c.fingerprint then Answering(Give(c)) else Busy(true)
  {
  }

  lemma {:induction false} PublishesOwnResult(es: seq<Event>, x: Worker)
    requires var w := Run(INITIAL, es); Holds(w, x) && Allowed(w, x, Complete)
    ensures var w := Run(INITIAL, es);
            var k := KeyIn(w, w.dispatches[x].request.key);
            L.Owns(k, x, w.now) && k.fingerprint == w.dispatches[x].phase.outcome.completed.fingerprint
  {
    var w := Run(INITIAL, es);
    P.Reachable(es);
    assert P.DispatchOk(w.durable.db.log, w.now, w.dispatches[x]);
    LeaseOf(es, x);
  }

  /**
   A published result is what later claims of the same request are given, and what refuses those of another one, up to
   the end of the cache time or of its own life; a claim after that acquires the key, as does any if it has none left.
   */
  lemma {:induction false} PublishedResultIsRead(es: seq<Event>, x: Worker, d: nat, y: Worker)
    requires var w := Run(INITIAL, es); Holds(w, x) && Allowed(w, x, Complete) && ClaimsAfter(w, x, y)
    ensures var w := Run(INITIAL, es);
            var c := w.dispatches[x].phase.outcome.completed;
            var until := ReadableUntil(w.dispatches[x], c, w.now);
            Has(Later(w, x, Complete, d, y), y,
                if until <= H.Ms(w.now) || until < H.Ms(w.now + d) then Leased(false)
                else if w.dispatches[y].request.fingerprint == c.fingerprint then Answering(Give(c)) else Busy(true))
  {
    var w := Run(INITIAL, es);
    var d0, c := w.dispatches[x], w.dispatches[x].phase.outcome.completed;
    PublishesOwnResult(es, x);
    LaterClaimIsTold(es, x, Complete, d, y);
    CachedIsTold(KeyIn(w, d0.request.key), d0, x, c, w.now, w.now + d, w.dispatches[y].request.fingerprint);
  }

  /** The key of `x` after its release: free if `x` held it, and otherwise as it was. */
  predicate Freed(w: World, w': World, x: Worker)
    requires x in w.dispatches
  {
    var key := w.dispatches[x].request.key;
    H.At(w'.hot, key) == if Holds(w, x) then None else H.Visible(H.At(w.hot, key), w.now)
  }

  /** The key of `x` after its publication: if `x` held it, it has the result for as long as that may be read. */
  predicate Published(w: World, w': World, x: Worker, c: Completed)
    requires x in w.dispatches
  {
    var key, until := w.dispatches[x].request.key, ReadableUntil(w.dispatches[x], c, w.now);
    if !Holds(w, x) then H.At(w'.hot, key) == H.Visible(H.At(w.hot, key), w.now)
    else if until <= H.Ms(w.now) then key !in w'.hot
    else
      && key in w'.hot && w'.hot[key].result == Some(c) && w'.hot[key].deadline == until && w'.hot[key].leaseToken.None?
      && w'.hot[key].fingerprint == Some(c.fingerprint)
  }

  /** In every run a release frees the key, and a publication puts exactly the result there. */
  lemma {:induction false} PublicationsTakeEffect(es: seq<Event>, x: Worker, a: Action)
    requires a in {Complete, Release, GiveBack}
    requires var w := Run(INITIAL, es); x in w.dispatches && Allowed(w, x, a)
    ensures var w := Run(INITIAL, es);
            if a.Complete? then Published(w, Step(w, Act(x, a)), x, w.dispatches[x].phase.outcome.completed)
            else Freed(w, Step(w, Act(x, a)), x)
  {
    var w := Run(INITIAL, es);
    EntriesAreWellFormed(es, w.dispatches[x].request.key);
    ActionRunsScript(w, x, a);
    if a.Complete? && Holds(w, x) { PublishesOwnResult(es, x); }
  }

  /** A free key that is claimed is leased for the time of the policy: no other claim gets it before, and any does after. */
  lemma {:induction false} ClaimLeasesTheKey(es: seq<Event>, x: Worker, d: nat, y: Worker)
    requires var w := Run(INITIAL, es);
             && ClaimsAfter(w, x, y) && Allowed(w, x, Claim) && H.Visible(H.At(w.hot, w.dispatches[x].request.key), w.now).None?
    ensures var w := Run(INITIAL, es);
            && Has(Step(w, Act(x, Claim)), x, Leased(false)) && Holds(Step(w, Act(x, Claim)), x)
            && Has(Later(w, x, Claim, d, y), y,
                   if H.Ms(w.now + d) <= H.Ms(w.now) + 1000 * w.dispatches[x].policy.leaseSeconds
                   then Busy(w.dispatches[x].request.fingerprint != w.dispatches[y].request.fingerprint) else Leased(false))
  {
    var w := Run(INITIAL, es);
    EntriesAreWellFormed(es, w.dispatches[x].request.key);
    ClaimTells(w, x);
    LaterClaimIsTold(es, x, Claim, d, y);
  }

  /** A renewal tells the dispatch whether the key is still leased to it; one that fails counts as a lost lease. */
  lemma {:induction false} RenewalTellsTheLease(es: seq<Event>, x: Worker)
    requires var w := Run(INITIAL, es); x in w.dispatches && w.dispatches[x].phase.Leased?
    ensures var w := Run(INITIAL, es);
            && Has(Step(w, Act(x, Renew)), x, Leased(w.dispatches[x].phase.lost || !Holds(w, x)))
            && Has(Step(w, Act(x, RenewFails)), x, Leased(true))
  {
    EntriesAreWellFormed(es, Run(INITIAL, es).dispatches[x].request.key);
  }

  /** And if it is, it is leased anew from that moment on. */
  lemma {:induction false} RenewalLeasesTheKey(es: seq<Event>, x: Worker, d: nat, y: Worker)
    requires var w := Run(INITIAL, es); ClaimsAfter(w, x, y) && Allowed(w, x, Renew) && Holds(w, x)
    ensures var w := Run(INITIAL, es);
            Has(Later(w, x, Renew, d, y), y,
                if H.Ms(w.now + d) <= H.Ms(w.now) + 1000 * w.dispatches[x].policy.leaseSeconds
                then Busy(w.dispatches[x].request.fingerprint != w.dispatches[y].request.fingerprint) else Leased(false))
  {
    LaterClaimIsTold(es, x, Renew, d, y);
    LeaseOf(es, x);
  }
}
