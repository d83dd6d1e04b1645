/**
 Sticky sessions over a run of the pool (`Sticky` in `best_for`, `record_session`; `src/server.rs`).

 One client's leases and returns are interleaved with anything other clients, the importer, the
 re-checker or the control API do to the pool, as long as they leave this client's pin and the pinned
 proxy alone.
 */
module Pinning {
  import opened Wrappers
  import opened Proxies
  import opened Selection
  import opened Pools

  /** The pool, the pins, and what this client holds. */
  datatype View = View(pool: seq<Pooled>, pins: map<ClientKey, Address>, held: Option<Proxy>)

  datatype Event = Lease(position: nat, now: int, prefer: bool) | GiveBack | Other

  function StickyCtx(scheme: Scheme, pin: Option<Address>, now: int, prefer: bool): SelectCtx {
    SelectCtx(scheme, Sticky, pin, 0, now, prefer, 0)
  }

  function PinOf(v: View, key: ClientKey): Option<Address> {
    if key in v.pins then Some(v.pins[key]) else None
  }

  ghost predicate LeaseStep(v: View, w: View, e: Event, scheme: Scheme, key: ClientKey, maxSessions: nat)
    requires e.Lease?
  {
    && v.held.None? && e.position < |v.pool|
    && BestFor(v.pool, StickyCtx(scheme, PinOf(v, key), e.now, e.prefer)) == Some(e.position)
    && w.held == Some(v.pool[e.position].proxy)
    && w.pool == SwapRemove(v.pool, e.position)
    && PinRecorded(v.pins, w.pins, key, v.pool[e.position].proxy.addr, maxSessions)
  }

  /** The lease comes back healthy: the same proxy, charged, neither evicted nor benched. */
  ghost predicate GiveBackStep(v: View, w: View) {
    && v.held.Some? && w.held.None? && w.pins == v.pins
    && exists back: Proxy ::
         && back.addr == v.held.value.addr && back.types == v.held.value.types
         && w.pool == v.pool + [Pooled(back, None)]
  }

  /** Somebody else's lease, return, import or removal, with the pin left in the map. */
  ghost predicate OtherStep(v: View, w: View, key: ClientKey, addr: Address, maxSessions: nat) {
    && w.held == v.held && key in w.pins
    && (OtherLease(v, w, key, addr, maxSessions) || OtherPush(v, w) || OtherRemove(v, w, addr))
  }

  ghost predicate OtherLease(v: View, w: View, key: ClientKey, addr: Address, maxSessions: nat) {
    exists i: nat, other: ClientKey ::
      && i < |v.pool| && other != key && v.pool[i].proxy.addr != addr
      && w.pool == SwapRemove(v.pool, i)
      && PinRecorded(v.pins, w.pins, other, v.pool[i].proxy.addr, maxSessions)
  }

  ghost predicate OtherPush(v: View, w: View) {
    w.pins == v.pins && exists p: Pooled :: w.pool == v.pool + [p]
  }

  ghost predicate OtherRemove(v: View, w: View, addr: Address) {
    w.pins == v.pins && exists a: Address :: a != addr && w.pool == Without(v.pool, a)
  }

  // ----- The invariant -----

  ghost predicate ReadyAt(p: Pooled, scheme: Scheme, addr: Address) {
    p.proxy.addr == addr && p.proxy.Serves(scheme) && p.blockedUntil.None?
  }

  ghost predicate HasReady(pool: seq<Pooled>, scheme: Scheme, addr: Address) {
    exists i :: 0 <= i < |pool| && ReadyAt(pool[i], scheme, addr)
  }

  /** The pin stands, and the pinned proxy is either held by this client or waiting, ready. */
  ghost predicate Bound(v: View, scheme: Scheme, key: ClientKey, addr: Address) {
    && key in v.pins && v.pins[key] == addr
    && match v.held
       case Some(p) => p.addr == addr && p.Serves(scheme)
       case None => HasReady(v.pool, scheme, addr)
  }

  lemma PinnedLeaseIsReused(v: View, scheme: Scheme, key: ClientKey, addr: Address, e: Event)
    requires e.Lease? && Bound(v, scheme, key, addr) && v.held.None? && e.position < |v.pool|
    requires BestFor(v.pool, StickyCtx(scheme, PinOf(v, key), e.now, e.prefer)) == Some(e.position)
    ensures v.pool[e.position].proxy.addr == addr && v.pool[e.position].proxy.Serves(scheme)
  {
    var ctx := StickyCtx(scheme, PinOf(v, key), e.now, e.prefer);
    var i: nat :| i < |v.pool| && ReadyAt(v.pool[i], scheme, addr);
    assert InBestTier(v.pool, ctx, i);
    StickyReusesPin(v.pool, ctx, addr);
    ChoiceIsEligible(v.pool, ctx);
  }

  lemma LeaseKeepsBound(v: View, w: View, e: Event, scheme: Scheme, key: ClientKey, addr: Address, maxSessions: nat)
    requires e.Lease? && Bound(v, scheme, key, addr)
    requires LeaseStep(v, w, e, scheme, key, maxSessions)
    ensures Bound(w, scheme, key, addr)
  {
    PinnedLeaseIsReused(v, scheme, key, addr, e);
  }

  lemma GiveBackKeepsBound(v: View, w: View, scheme: Scheme, key: ClientKey, addr: Address)
    requires Bound(v, scheme, key, addr) && GiveBackStep(v, w)
    ensures Bound(w, scheme, key, addr)
  {
    assert ReadyAt(w.pool[|w.pool| - 1], scheme, addr);
  }

  lemma SwapRemoveKeepsReady(pool: seq<Pooled>, i: nat, scheme: Scheme, addr: Address)
    requires i < |pool| && pool[i].proxy.addr != addr && HasReady(pool, scheme, addr)
    ensures HasReady(SwapRemove(pool, i), scheme, addr)
  {
    var k: nat :| k < |pool| && ReadyAt(pool[k], scheme, addr);
    var rest := SwapRemove(pool, i);
    if k == |pool| - 1 {
      assert ReadyAt(rest[i], scheme, addr);
    } else {
      assert ReadyAt(rest[k], scheme, addr);
    }
  }

  lemma {:induction false} WithoutKeepsReady(pool: seq<Pooled>, a: Address, scheme: Scheme, addr: Address)
    requires a != addr && HasReady(pool, scheme, addr)
    ensures HasReady(Without(pool, a), scheme, addr)
  {
    var k: nat :| k < |pool| && ReadyAt(pool[k], scheme, addr);
    var init, last := pool[..|pool| - 1], pool[|pool| - 1];
    var rest := Without(pool, a);
    if k == |pool| - 1 {
      assert ReadyAt(rest[|rest| - 1], scheme, addr);
    } else {
      assert ReadyAt(init[k], scheme, addr);
      WithoutKeepsReady(init, a, scheme, addr);
      var m: nat :| m < |Without(init, a)| && ReadyAt(Without(init, a)[m], scheme, addr);
      assert ReadyAt(rest[m], scheme, addr);
    }
  }

  lemma PushKeepsReady(pool: seq<Pooled>, p: Pooled, scheme: Scheme, addr: Address)
    requires HasReady(pool, scheme, addr)
    ensures HasReady(pool + [p], scheme, addr)
  {
    var k: nat :| k < |pool| && ReadyAt(pool[k], scheme, addr);
    assert ReadyAt((pool + [p])[k], scheme, addr);
  }

  lemma OtherKeepsBound(v: View, w: View, scheme: Scheme, key: ClientKey, addr: Address, maxSessions: nat)
    requires Bound(v, scheme, key, addr) && OtherStep(v, w, key, addr, maxSessions)
    ensures Bound(w, scheme, key, addr)
  {
    if OtherLease(v, w, key, addr, maxSessions) {
      var i: nat, other: ClientKey :|
        && i < |v.pool| && other != key && v.pool[i].proxy.addr != addr
        && w.pool == SwapRemove(v.pool, i)
        && PinRecorded(v.pins, w.pins, other, v.pool[i].proxy.addr, maxSessions);
      OthersPinLeavesMine(v.pins, w.pins, other, v.pool[i].proxy.addr, maxSessions, key);
      if v.held.None? {
        SwapRemoveKeepsReady(v.pool, i, scheme, addr);
      }
    } else if OtherPush(v, w) {
      var p: Pooled :| w.pool == v.pool + [p];
      if v.held.None? {
        PushKeepsReady(v.pool, p, scheme, addr);
      }
    } else {
      var a: Address :| a != addr && w.pool == Without(v.pool, a);
      if v.held.None? {
        WithoutKeepsReady(v.pool, a, scheme, addr);
      }
    }
  }

  lemma OthersPinLeavesMine(before: map<ClientKey, Address>, after: map<ClientKey, Address>, other: ClientKey,
                            a: Address, maxSessions: nat, key: ClientKey)
    requires PinRecorded(before, after, other, a, maxSessions)
    requires other != key && key in before && key in after
    ensures after[key] == before[key]
  {
  }

  // ----- Runs -----

  ghost predicate StepAt(run: seq<View>, events: seq<Event>, t: int, scheme: Scheme, key: ClientKey, addr: Address,
                         maxSessions: nat)
  {
    0 <= t < |events| && |run| == |events| + 1 ==>
      match events[t]
      case Lease(_, _, _) => LeaseStep(run[t], run[t + 1], events[t], scheme, key, maxSessions)
      case GiveBack => GiveBackStep(run[t], run[t + 1])
      case Other => OtherStep(run[t], run[t + 1], key, addr, maxSessions)
  }

  /** A run from the moment this client has its first lease, at addr. */
  ghost predicate StickyRun(run: seq<View>, events: seq<Event>, scheme: Scheme, key: ClientKey, addr: Address,
                            maxSessions: nat)
  {
    && |run| == |events| + 1
    && run[0].held.Some? && run[0].held.value.addr == addr && run[0].held.value.Serves(scheme)
    && PinOf(run[0], key) == Some(addr)
    && forall t :: StepAt(run, events, t, scheme, key, addr, maxSessions)
  }

  lemma {:induction false} StaysBound(run: seq<View>, events: seq<Event>, scheme: Scheme, key: ClientKey,
                                      addr: Address, maxSessions: nat, t: nat)
    requires StickyRun(run, events, scheme, key, addr, maxSessions) && t < |run|
    ensures Bound(run[t], scheme, key, addr)
  {
    if t > 0 {
      var u := t - 1;
      StaysBound(run, events, scheme, key, addr, maxSessions, u);
      assert StepAt(run, events, u, scheme, key, addr, maxSessions);
      match events[u]
      case Lease(_, _, _) => LeaseKeepsBound(run[u], run[t], events[u], scheme, key, addr, maxSessions);
      case GiveBack => GiveBackKeepsBound(run[u], run[t], scheme, key, addr);
      case Other => OtherKeepsBound(run[u], run[t], scheme, key, addr, maxSessions);
    }
  }

  /** Every later lease of the client, however many and whatever happens in between, is the same address. */
  lemma SameProxyOnEveryRequest(run: seq<View>, events: seq<Event>, scheme: Scheme, key: ClientKey, addr: Address,
                                maxSessions: nat, t: nat)
    requires StickyRun(run, events, scheme, key, addr, maxSessions) && t < |events| && events[t].Lease?
    ensures run[t + 1].held.Some? && run[t + 1].held.value.addr == addr
  {
    StaysBound(run, events, scheme, key, addr, maxSessions, t + 1);
    assert StepAt(run, events, t, scheme, key, addr, maxSessions);
  }
}
