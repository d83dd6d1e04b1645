/**
 Round-robin over a pool that reorders itself (`RoundRobin` in `best_for`, `swap_remove` in
 `try_select`, `push` in `put_inner`; `src/server.rs`).

 The cursor walks over positions, but a served proxy trades places with the last one. So n requests
 serve n proxies only when the cursor starts on the last position; n + 1 always do.
 */
module Rotation {
  import opened Wrappers
  import opened Proxies
  import opened Selection
  import opened Pools

  // ----- Positions -----

  /** One request: the element at position i is taken out, the last one fills its place, and it comes back last. */
  function Turn<T>(a: seq<T>, i: nat): (r: seq<T>)
    requires i < |a|
    ensures r == a[i := a[|a| - 1]][|a| - 1 := a[i]]
  {
    SwapRemove(a, i) + [a[i]]
  }

  /** The cursor's position t requests after position r, for up to two laps. */
  function Position(r: nat, t: nat, n: nat): (i: nat)
    requires r < n && t <= n
    ensures i < n
  {
    if r + t < n then r + t else r + t - n
  }

  /** The order after t requests, the first at position r. */
  function After<T>(a: seq<T>, r: nat, t: nat): (b: seq<T>)
    requires r < |a| && t <= |a|
    ensures |b| == |a|
  {
    if t == 0 then a else Turn(After(a, r, t - 1), Position(r, t - 1, |a|))
  }

  /** What request number t (from 0) serves. */
  function Served<T>(a: seq<T>, r: nat, t: nat): T
    requires r < |a| && t <= |a|
  {
    After(a, r, t)[Position(r, t, |a|)]
  }

  /** In the first lap: what the cursor has not passed is in place, and the old last is under the start. */
  ghost predicate OnFirstLap<T>(a: seq<T>, b: seq<T>, r: nat, t: nat) {
    && |b| == |a| && r + t < |a|
    && (forall k :: 0 <= k < |a| - 1 && (k < r || r + t <= k) ==> b[k] == a[k])
    && (t == 0 ==> b[|a| - 1] == a[|a| - 1])
    && (t > 0 ==> b[r] == a[|a| - 1])
  }

  /** In the second: the front is still in place, from where the cursor stands up to where it started. */
  ghost predicate OnSecondLap<T>(a: seq<T>, b: seq<T>, r: nat, u: nat) {
    && |b| == |a| && u <= r < |a|
    && (forall k :: u <= k < r ==> b[k] == a[k])
    && (r < |a| - 1 ==> b[r] == a[|a| - 1])
  }

  lemma FirstLapTurn<T>(a: seq<T>, b: seq<T>, r: nat, t: nat)
    requires OnFirstLap(a, b, r, t) && r + t + 1 < |a|
    ensures OnFirstLap(a, Turn(b, r + t), r, t + 1)
  {
  }

  lemma LastTurn<T>(a: seq<T>, b: seq<T>, r: nat)
    requires r < |a| && OnFirstLap(a, b, r, |a| - 1 - r)
    ensures OnSecondLap(a, Turn(b, |a| - 1), r, 0)
  {
  }

  lemma SecondLapTurn<T>(a: seq<T>, b: seq<T>, r: nat, u: nat)
    requires OnSecondLap(a, b, r, u) && u < r
    ensures OnSecondLap(a, Turn(b, u), r, u + 1)
  {
  }

  lemma {:induction false} FirstLap<T>(a: seq<T>, r: nat, t: nat)
    requires r + t < |a|
    ensures OnFirstLap(a, After(a, r, t), r, t)
  {
    if t > 0 {
      FirstLap(a, r, t - 1);
      FirstLapTurn(a, After(a, r, t - 1), r, t - 1);
    }
  }

  lemma {:induction false} SecondLap<T>(a: seq<T>, r: nat, u: nat)
    requires u <= r < |a|
    ensures OnSecondLap(a, After(a, r, |a| - r + u), r, u)
  {
    if u == 0 {
      FirstLap(a, r, |a| - 1 - r);
      LastTurn(a, After(a, r, |a| - 1 - r), r);
    } else {
      SecondLap(a, r, u - 1);
      SecondLapTurn(a, After(a, r, |a| - r + u - 1), r, u - 1);
    }
  }

  /** Which of the n + 1 requests serves the element that starts at position p. */
  function TurnOf(n: nat, r: nat, p: nat): (t: nat)
    requires p < n && r < n
    ensures t <= n
  {
    if p == n - 1 then (if r == n - 1 then 0 else n)
    else if p >= r then p - r
    else n - r + p
  }

  /** Whatever the order and the cursor, n + 1 consecutive requests serve every element. */
  lemma RotationCovers<T>(a: seq<T>, r: nat, p: nat)
    requires p < |a| && r < |a|
    ensures Served(a, r, TurnOf(|a|, r, p)) == a[p]
  {
    var n := |a|;
    if p == n - 1 {
      if r < n - 1 {
        SecondLap(a, r, r);
      }
    } else if p >= r {
      FirstLap(a, r, p - r);
    } else {
      SecondLap(a, r, p);
    }
  }

  /** Three proxies, three requests from the first position, and the third proxy is still waiting. */
  lemma NRequestsAreNotEnough<T>(x: T, y: T, z: T)
    ensures var a := [x, y, z];
      Served(a, 0, 0) == x && Served(a, 0, 1) == y && Served(a, 0, 2) == y && Served(a, 0, 3) == z
  {
    var a := [x, y, z];
    assert After(a, 0, 1) == [z, y, x];
    assert After(a, 0, 2) == [z, x, y];
    assert After(a, 0, 3) == [z, x, y];
  }

  ghost predicate NoneTwice<T>(a: seq<T>) {
    forall i, j :: 0 <= i < j < |a| ==> a[i] != a[j]
  }

  lemma {:induction false} AfterHasNoneTwice<T>(a: seq<T>, r: nat, t: nat)
    requires r < |a| && t <= |a| && NoneTwice(a)
    ensures NoneTwice(After(a, r, t))
  {
    if t > 0 {
      AfterHasNoneTwice(a, r, t - 1);
      TurnHasNoneTwice(After(a, r, t - 1), Position(r, t - 1, |a|));
    }
  }

  lemma TurnHasNoneTwice<T>(a: seq<T>, i: nat)
    requires i < |a| && NoneTwice(a)
    ensures NoneTwice(Turn(a, i))
  {
    var b := Turn(a, i);
    forall j, k | 0 <= j < k < |b| ensures b[j] != b[k] {
      assert b[j] == a[if j == i then |a| - 1 else j];
      assert b[k] == a[if k == |a| - 1 then i else if k == i then |a| - 1 else k];
    }
  }

  /** The element that starts last has to wait for request n, unless the cursor starts on it. */
  lemma LastOneWaits<T>(a: seq<T>, r: nat, t: nat)
    requires r < |a| - 1 && t < |a| && NoneTwice(a)
    ensures Served(a, r, t) != a[|a| - 1]
  {
    var n := |a|;
    if r + t < n {
      FirstLap(a, r, t);
      if r + t == n - 1 {
        var b := After(a, r, t);
        AfterHasNoneTwice(a, r, t);
        assert b[r] == a[n - 1] && b[r] != b[n - 1];
      }
    } else {
      SecondLap(a, r, t - (n - r));
    }
  }

  ghost predicate ServedWithin<T>(a: seq<T>, r: nat, requests: nat, x: T)
    requires r < |a| && requests <= |a|
  {
    exists t :: 0 <= t < requests && Served(a, r, t) == x
  }

  /** When n requests are enough: exactly when the cursor starts on the last position. */
  lemma NRequestsSuffice<T>(a: seq<T>, r: nat)
    requires r < |a| && NoneTwice(a)
    ensures (forall p :: 0 <= p < |a| ==> ServedWithin(a, r, |a|, a[p])) <==> r == |a| - 1
  {
    if r == |a| - 1 {
      forall p | 0 <= p < |a| ensures ServedWithin(a, r, |a|, a[p]) {
        RotationCovers(a, r, p);
        assert Served(a, r, TurnOf(|a|, r, p)) == a[p];
      }
    } else {
      forall t | 0 <= t < |a| ensures Served(a, r, t) != a[|a| - 1] {
        LastOneWaits(a, r, t);
      }
      assert !ServedWithin(a, r, |a|, a[|a| - 1]);
    }
  }

  // ----- The cursor is a counter -----

  lemma {:induction false} ModuloNext(c: nat, n: nat)
    requires n > 0
    ensures Modulo(c + 1, n) == if Modulo(c, n) == n - 1 then 0 else Modulo(c, n) + 1
  {
    if c >= n {
      ModuloNext(c - n, n);
      assert c + 1 - n == (c - n) + 1;
    }
  }

  lemma {:induction false} CursorPosition(c: nat, n: nat, t: nat)
    requires n > 0 && t <= n
    ensures Modulo(c + t, n) == Position(Modulo(c, n), t, n)
  {
    if t > 0 {
      CursorPosition(c, n, t - 1);
      ModuloNext(c + t - 1, n);
    }
  }

  // ----- A walk over the positions -----

  /** Visit t takes what the cursor points at, and leaves the order turned. */
  ghost predicate WalksAt<T>(orders: seq<seq<T>>, picks: seq<nat>, c: nat, t: int) {
    0 <= t < |orders| && t < |picks| ==>
      && orders[t] != [] && picks[t] == Modulo(c + t, |orders[t]|)
      && (t + 1 < |orders| ==> orders[t + 1] == Turn(orders[t], picks[t]))
  }

  ghost predicate Walks<T>(orders: seq<seq<T>>, picks: seq<nat>, c: nat) {
    |orders| == |picks| > 0 && orders[0] != [] && forall t :: WalksAt(orders, picks, c, t)
  }

  lemma {:induction false} WalkFollowsPositions<T>(orders: seq<seq<T>>, picks: seq<nat>, c: nat, t: nat)
    requires Walks(orders, picks, c) && t < |orders| && t <= |orders[0]|
    ensures var a := orders[0]; var r := Modulo(c, |a|);
      orders[t] == After(a, r, t) && picks[t] == Position(r, t, |a|)
  {
    assert WalksAt(orders, picks, c, t);
    if t > 0 {
      WalkFollowsPositions(orders, picks, c, t - 1);
      assert WalksAt(orders, picks, c, t - 1);
    }
    CursorPosition(c, |orders[0]|, t);
  }

  /** Some visit of the first n + 1 takes what was at position p. */
  lemma WalkServes<T>(orders: seq<seq<T>>, picks: seq<nat>, c: nat, p: nat) returns (t: nat)
    requires Walks(orders, picks, c) && p < |orders[0]| < |orders|
    ensures t < |orders| && picks[t] < |orders[t]| && orders[t][picks[t]] == orders[0][p]
  {
    var a, r := orders[0], Modulo(c, |orders[0]|);
    t := TurnOf(|a|, r, p);
    RotationCovers(a, r, p);
    WalkFollowsPositions(orders, picks, c, t);
  }

  // ----- The pool -----

  function AddressesOf(s: seq<Pooled>): (r: seq<Address>)
    ensures |r| == |s| && forall i :: 0 <= i < |s| ==> r[i] == s[i].proxy.addr
  {
    if s == [] then [] else AddressesOf(s[..|s| - 1]) + [s[|s| - 1].proxy.addr]
  }

  ghost predicate AllReady(s: seq<Pooled>, scheme: Scheme) {
    forall i :: 0 <= i < |s| ==> s[i].proxy.Serves(scheme) && s[i].blockedUntil.None?
  }

  function RotationCtx(scheme: Scheme, cursor: nat, now: int): SelectCtx {
    SelectCtx(scheme, RoundRobin, None, cursor, now, false, 0)
  }

  lemma {:induction false} TierOfAll(s: seq<Pooled>, scheme: Scheme, now: int, from: nat)
    requires AllReady(s, scheme) && from <= |s|
    ensures var tier := TierFrom(s, scheme, now, true, from);
      |tier| == |s| - from && forall k :: 0 <= k < |tier| ==> tier[k] == from + k
    decreases |s| - from
  {
    if from < |s| {
      TierOfAll(s, scheme, now, from + 1);
    }
  }

  lemma RotationPicksCursor(s: seq<Pooled>, scheme: Scheme, cursor: nat, now: int)
    requires s != [] && AllReady(s, scheme)
    ensures BestFor(s, RotationCtx(scheme, cursor, now)) == Some(Modulo(cursor, |s|))
  {
    TierOfAll(s, scheme, now, 0);
    var tier := TierFrom(s, scheme, now, true, 0);
    assert Tier(s, scheme, now) == tier && ConnectBiased(s, tier, false) == tier;
    assert tier[Modulo(cursor, |tier|)] == Modulo(cursor, |s|);
  }

  /** One request: the pool and the cursor it finds, the position `best_for` picks, and when. */
  datatype Request = Request(pool: seq<Pooled>, cursor: nat, picked: nat, now: int)

  /** `try_select` took position i, and `put_ok` brought the same proxy back, charged but not evicted. */
  ghost predicate CameBack(before: seq<Pooled>, i: nat, after: seq<Pooled>) {
    && i < |before|
    && exists back: Proxy ::
         && back.addr == before[i].proxy.addr && back.types == before[i].proxy.types
         && after == SwapRemove(before, i) + [Pooled(back, None)]
  }

  ghost predicate Picked(r: Request, scheme: Scheme) {
    r.picked < |r.pool| && BestFor(r.pool, RotationCtx(scheme, r.cursor, r.now)) == Some(r.picked)
  }

  /** A run of requests over a pool that starts out ready for the scheme; each one advances the cursor. */
  ghost predicate RotationRun(run: seq<Request>, scheme: Scheme) {
    && run != [] && run[0].pool != [] && AllReady(run[0].pool, scheme)
    && (forall t :: PicksAt(run, scheme, t)) && (forall t :: ComesBackAt(run, t))
  }

  /** Request t is a request of the run, with the cursor where t requests have left it. */
  ghost predicate PicksAt(run: seq<Request>, scheme: Scheme, t: int) {
    0 <= t < |run| ==> Picked(run[t], scheme) && run[t].cursor == run[0].cursor + t
  }

  /** The request after request t finds the pool it leaves. */
  ghost predicate ComesBackAt(run: seq<Request>, t: int) {
    0 <= t < |run| - 1 ==> CameBack(run[t].pool, run[t].picked, run[t + 1].pool)
  }

  lemma CameBackTurns(before: seq<Pooled>, i: nat, after: seq<Pooled>, scheme: Scheme)
    requires AllReady(before, scheme) && CameBack(before, i, after)
    ensures AllReady(after, scheme) && |after| == |before|
    ensures AddressesOf(after) == Turn(AddressesOf(before), i)
  {
  }

  lemma PickIsCursor(r: Request, scheme: Scheme)
    requires Picked(r, scheme) && AllReady(r.pool, scheme)
    ensures r.picked == Modulo(r.cursor, |r.pool|)
  {
    RotationPicksCursor(r.pool, scheme, r.cursor, r.now);
  }

  lemma RunTurns(run: seq<Request>, scheme: Scheme, t: nat)
    requires RotationRun(run, scheme) && t + 1 < |run| && AllReady(run[t].pool, scheme)
    ensures AllReady(run[t + 1].pool, scheme) && run[t].picked < |run[t].pool| == |run[t + 1].pool|
    ensures AddressesOf(run[t + 1].pool) == Turn(AddressesOf(run[t].pool), run[t].picked)
  {
    assert PicksAt(run, scheme, t) && ComesBackAt(run, t);
    CameBackTurns(run[t].pool, run[t].picked, run[t + 1].pool, scheme);
  }

  lemma {:induction false} RunStaysReady(run: seq<Request>, scheme: Scheme, t: nat)
    requires RotationRun(run, scheme) && t < |run|
    ensures |run[t].pool| == |run[0].pool| && AllReady(run[t].pool, scheme)
  {
    if t > 0 {
      RunStaysReady(run, scheme, t - 1);
      RunTurns(run, scheme, t - 1);
    }
  }

  /** The orders and the picks of a run. */
  function Orders(run: seq<Request>): seq<seq<Address>> {
    seq(|run|, i requires 0 <= i < |run| => AddressesOf(run[i].pool))
  }

  function Picks(run: seq<Request>): seq<nat> {
    seq(|run|, i requires 0 <= i < |run| => run[i].picked)
  }

  /** What request t of a run comes down to. */
  ghost predicate Rotates(run: seq<Request>, t: int) {
    0 <= t < |run| ==>
      && run[t].pool != [] && run[t].picked == Modulo(run[0].cursor + t, |run[t].pool|)
      && (t + 1 < |run| ==> AddressesOf(run[t + 1].pool) == Turn(AddressesOf(run[t].pool), run[t].picked))
  }

  lemma {:induction false} ReadyPickAt(run: seq<Request>, scheme: Scheme, t: nat)
    requires t < |run| && PicksAt(run, scheme, t) && AllReady(run[t].pool, scheme)
    ensures run[t].pool != [] && run[t].picked == Modulo(run[t].cursor, |run[t].pool|)
    ensures run[t].cursor == run[0].cursor + t
  {
    PickIsCursor(run[t], scheme);
  }

  lemma {:induction false} PickAt(run: seq<Request>, scheme: Scheme, t: nat)
    requires RotationRun(run, scheme) && t < |run| && AllReady(run[t].pool, scheme)
    ensures run[t].pool != [] && run[t].picked == Modulo(run[0].cursor + t, |run[t].pool|)
  {
    ReadyPickAt(run, scheme, t);
  }

  lemma {:induction false} RunRotates(run: seq<Request>, scheme: Scheme, t: int)
    requires RotationRun(run, scheme)
    ensures Rotates(run, t)
  {
    if 0 <= t < |run| {
      RunStaysReady(run, scheme, t);
      PickAt(run, scheme, t);
      if t + 1 < |run| {
        RunTurns(run, scheme, t);
      }
    }
  }

  lemma RotatingRunWalks(run: seq<Request>)
    requires run != [] && run[0].pool != [] && forall t :: Rotates(run, t)
    ensures Walks(Orders(run), Picks(run), run[0].cursor)
  {
    forall t ensures WalksAt(Orders(run), Picks(run), run[0].cursor, t) {
      assert Rotates(run, t);
    }
  }

  /**
   Every proxy of a pool of n that stays ready is leased in any n + 1 consecutive requests; p is its
   position at the start.
   */
  lemma EveryProxyGetsItsTurn(run: seq<Request>, scheme: Scheme, p: nat)
    requires RotationRun(run, scheme) && |run| == |run[0].pool| + 1 && p < |run[0].pool|
    ensures exists t ::
      (0 <= t < |run|
       && run[t].picked < |run[t].pool|
       && run[t].pool[run[t].picked].proxy.addr == run[0].pool[p].proxy.addr)
  {
    forall t ensures Rotates(run, t) {
      RunRotates(run, scheme, t);
    }
    RotatingRunWalks(run);
    var t := WalkServes(Orders(run), Picks(run), run[0].cursor, p);
    RunStaysReady(run, scheme, t);
    assert PicksAt(run, scheme, t);
  }

  /** Request t of the run leases the address. */
  ghost predicate Leases(run: seq<Request>, t: int, addr: Address) {
    0 <= t < |run| && run[t].picked < |run[t].pool| && run[t].pool[run[t].picked].proxy.addr == addr
  }

  /** Some request of the run does. */
  ghost predicate Leased(run: seq<Request>, addr: Address) {
    exists t :: Leases(run, t, addr)
  }

  lemma {:induction false} LeaseIsServed(run: seq<Request>, scheme: Scheme, t: nat)
    requires RotationRun(run, scheme) && Walks(Orders(run), Picks(run), run[0].cursor)
    requires t < |run| == |run[0].pool|
    ensures var a := AddressesOf(run[0].pool);
      Leases(run, t, Served(a, Modulo(run[0].cursor, |a|), t))
  {
    WalkFollowsPositions(Orders(run), Picks(run), run[0].cursor, t);
    RunStaysReady(run, scheme, t);
    assert PicksAt(run, scheme, t);
  }

  lemma {:induction false} LeasedIffServed(run: seq<Request>, scheme: Scheme, p: nat)
    requires RotationRun(run, scheme) && Walks(Orders(run), Picks(run), run[0].cursor)
    requires p < |run| == |run[0].pool|
    ensures var a := AddressesOf(run[0].pool);
      ServedWithin(a, Modulo(run[0].cursor, |a|), |a|, a[p]) <==> Leased(run, run[0].pool[p].proxy.addr)
  {
    var a := AddressesOf(run[0].pool);
    var r := Modulo(run[0].cursor, |a|);
    if ServedWithin(a, r, |a|, a[p]) {
      var t :| 0 <= t < |a| && Served(a, r, t) == a[p];
      LeaseIsServed(run, scheme, t);
    }
    if Leased(run, a[p]) {
      var t :| Leases(run, t, a[p]);
      LeaseIsServed(run, scheme, t);
      assert Served(a, r, t) == a[p];
    }
  }

  /**
   n consecutive requests over a pool of n that stays ready, no address in it twice, lease every proxy
   exactly when the cursor starts on the last position.
   */
  lemma {:induction false} NRequestsLeaseAll(run: seq<Request>, scheme: Scheme)
    requires RotationRun(run, scheme) && |run| == |run[0].pool| && NoneTwice(AddressesOf(run[0].pool))
    ensures
      (forall p :: 0 <= p < |run| ==> Leased(run, run[0].pool[p].proxy.addr))
      <==> Modulo(run[0].cursor, |run|) == |run| - 1
  {
    forall t ensures Rotates(run, t) {
      RunRotates(run, scheme, t);
    }
    RotatingRunWalks(run);
    var a := AddressesOf(run[0].pool);
    var r := Modulo(run[0].cursor, |a|);
    NRequestsSuffice(a, r);
    forall p | 0 <= p < |run|
      ensures ServedWithin(a, r, |a|, a[p]) <==> Leased(run, run[0].pool[p].proxy.addr)
    {
      LeasedIffServed(run, scheme, p);
    }
  }
}
