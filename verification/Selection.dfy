/**
 Choosing a pooled proxy (`best_for` and its helpers in `src/server.rs`).

 All of it is pure: iterator chains over the pool, written as recursive functions.
 */
module Selection {
  import opened Wrappers
  import opened Proxies

  datatype Strategy = Best | RoundRobin | Random | Sticky

  /** A pooled proxy: benched until `blockedUntil`, ready when there is no such instant. */
  datatype Pooled = Pooled(proxy: Proxy, blockedUntil: Option<int>)

  datatype SelectCtx = SelectCtx(
    scheme: Scheme,
    strategy: Strategy,
    sticky: Option<Address>,
    cursor: nat,
    now: int,
    preferConnect: bool,
    draw: nat)  // what the process-wide generator yields, for `Random`

  predicate IsReady(p: Pooled, now: int) {
    p.blockedUntil.None? || p.blockedUntil.value <= now
  }

  predicate InTier(p: Pooled, scheme: Scheme, now: int, ready: bool) {
    p.proxy.Serves(scheme) && IsReady(p, now) == ready
  }

  ghost predicate Within(pool: seq<Pooled>, indices: seq<nat>) {
    forall k :: 0 <= k < |indices| ==> indices[k] < |pool|
  }

  /** The indices from `from` on whose proxy is in the tier, in pool order. */
  function TierFrom(pool: seq<Pooled>, scheme: Scheme, now: int, ready: bool, from: nat): (tier: seq<nat>)
    requires from <= |pool|
    ensures Within(pool, tier)
    decreases |pool| - from
  {
    if from == |pool| then []
    else
      var rest := TierFrom(pool, scheme, now, ready, from + 1);
      if InTier(pool[from], scheme, now, ready) then [from] + rest else rest
  }

  lemma {:induction false} TierFromIs(pool: seq<Pooled>, scheme: Scheme, now: int, ready: bool, from: nat)
    requires from <= |pool|
    ensures var tier := TierFrom(pool, scheme, now, ready, from);
      && (forall k :: 0 <= k < |tier| ==> from <= tier[k] && InTier(pool[tier[k]], scheme, now, ready))
      && (forall i: nat :: from <= i < |pool| && InTier(pool[i], scheme, now, ready) ==> i in tier)
      && (forall a, b :: 0 <= a < b < |tier| ==> tier[a] < tier[b])
    decreases |pool| - from
  {
    if from < |pool| {
      TierFromIs(pool, scheme, now, ready, from + 1);
      var tier, rest := TierFrom(pool, scheme, now, ready, from), TierFrom(pool, scheme, now, ready, from + 1);
      if InTier(pool[from], scheme, now, ready) {
        assert tier == [from] + rest && tier[0] == from;
      } else {
        assert tier == rest;
      }
    }
  }

  function Tier(pool: seq<Pooled>, scheme: Scheme, now: int): (tier: seq<nat>)
    ensures Within(pool, tier)
  {
    var ready := TierFrom(pool, scheme, now, true, 0);
    if ready == [] then TierFrom(pool, scheme, now, false, 0) else ready
  }

  predicate HasConnect(p: Pooled) {
    Connect80 in p.proxy.types
  }

  function KeepConnect(pool: seq<Pooled>, tier: seq<nat>): (kept: seq<nat>)
    requires Within(pool, tier)
    ensures Within(pool, kept)
    ensures forall k :: 0 <= k < |kept| ==> kept[k] in tier && HasConnect(pool[kept[k]])
    ensures forall k :: 0 <= k < |tier| && HasConnect(pool[tier[k]]) ==> tier[k] in kept
  {
    if tier == [] then []
    else (if HasConnect(pool[tier[0]]) then [tier[0]] else []) + KeepConnect(pool, tier[1..])
  }

  function ConnectBiased(pool: seq<Pooled>, tier: seq<nat>, prefer: bool): (pick: seq<nat>)
    requires Within(pool, tier)
    ensures forall k :: 0 <= k < |pick| ==> pick[k] in tier
    ensures pick == [] <==> tier == []
  {
    if !prefer then tier
    else
      var connect := KeepConnect(pool, tier);
      if connect == [] then tier else connect
  }

  /** What `best_by_priority` compares: error key, then time, then CONNECT support when preferred. */
  datatype Rank = Rank(error: real, time: real, lacksConnect: bool)

  function RankOf(p: Pooled, prefer: bool): Rank {
    Rank(p.proxy.ErrorKey(), p.proxy.AvgRespTime(), prefer && !HasConnect(p))
  }

  predicate Less(a: Rank, b: Rank) {
    a.error < b.error
    || (a.error == b.error && (a.time < b.time || (a.time == b.time && !a.lacksConnect && b.lacksConnect)))
  }

  function Ranks(pool: seq<Pooled>, indices: seq<nat>, prefer: bool): (ranks: seq<Rank>)
    requires Within(pool, indices)
    ensures |ranks| == |indices|
    ensures forall k :: 0 <= k < |indices| ==> ranks[k] == RankOf(pool[indices[k]], prefer)
  {
    if indices == [] then [] else [RankOf(pool[indices[0]], prefer)] + Ranks(pool, indices[1..], prefer)
  }

  /** `min_by`: the first of the minimal elements. */
  function FirstMinimum(ranks: seq<Rank>): (k: nat)
    requires ranks != []
    ensures k < |ranks|
    ensures forall j :: 0 <= j < |ranks| ==> !Less(ranks[j], ranks[k])
    ensures forall j :: 0 <= j < k ==> Less(ranks[k], ranks[j])
  {
    if |ranks| == 1 then 0
    else
      var last := |ranks| - 1;
      var best := FirstMinimum(ranks[..last]);
      if Less(ranks[last], ranks[best]) then last else best
  }

  function BestByPriority(pool: seq<Pooled>, eligible: seq<nat>, prefer: bool): (r: Option<nat>)
    requires Within(pool, eligible)
    ensures r.None? <==> eligible == []
    ensures r.Some? ==> r.value in eligible
  {
    if eligible == [] then None else Some(eligible[FirstMinimum(Ranks(pool, eligible, prefer))])
  }

  function FindAddress(pool: seq<Pooled>, tier: seq<nat>, addr: Address): (r: Option<nat>)
    requires Within(pool, tier)
    ensures r.Some? ==> r.value in tier && pool[r.value].proxy.addr == addr
    ensures r.None? ==> forall k :: 0 <= k < |tier| ==> pool[tier[k]].proxy.addr != addr
  {
    if tier == [] then None
    else if pool[tier[0]].proxy.addr == addr then Some(tier[0])
    else FindAddress(pool, tier[1..], addr)
  }

  /** The remainder, by repeated subtraction: linear for the verifier. */
  function Modulo(c: nat, n: nat): (r: nat)
    requires n > 0
    ensures r < n
  {
    if c < n then c else Modulo(c - n, n)
  }

  lemma {:induction false} ModuloIsRemainder(c: nat, n: nat)
    requires n > 0
    ensures Modulo(c, n) == c % n
  {
    if c >= n {
      ModuloIsRemainder(c - n, n);
      var q := (c - n) / n;
      assert c == n * (q + 1) + (c - n) % n;
      RemainderIsUnique(c, n, q + 1, (c - n) % n);
    }
  }

  lemma RemainderIsUnique(c: nat, n: nat, q: int, r: nat)
    requires n > 0 && r < n && c == n * q + r
    ensures c % n == r
  {
    var d := q - c / n;
    assert n * d == c % n - r;
    SmallMultiple(n, d);
  }

  lemma SmallMultiple(n: int, d: int)
    requires n > 0 && -n < n * d < n
    ensures d == 0
  {
  }

  /** `best_for`. */
  function BestFor(pool: seq<Pooled>, ctx: SelectCtx): (r: Option<nat>)
    ensures r.Some? ==> r.value in Tier(pool, ctx.scheme, ctx.now)
    ensures r.None? <==> Tier(pool, ctx.scheme, ctx.now) == []
  {
    var tier := Tier(pool, ctx.scheme, ctx.now);
    if tier == [] then None
    else
      match ctx.strategy
      case Best => BestByPriority(pool, tier, ctx.preferConnect)
      case RoundRobin =>
        var pick := ConnectBiased(pool, tier, ctx.preferConnect);
        Some(pick[Modulo(ctx.cursor, |pick|)])
      case Random =>
        var pick := ConnectBiased(pool, tier, ctx.preferConnect);
        Some(pick[Modulo(ctx.draw, |pick|)])
      case Sticky =>
        var pinned := if ctx.sticky.Some? then FindAddress(pool, tier, ctx.sticky.value) else None;
        if pinned.Some? then pinned else BestByPriority(pool, tier, ctx.preferConnect)
  }

  // ----- What the choice means -----

  ghost predicate SomeServes(pool: seq<Pooled>, scheme: Scheme) {
    exists i :: 0 <= i < |pool| && pool[i].proxy.Serves(scheme)
  }

  /**
   Nothing is chosen iff nothing serves the scheme -- a bench never makes a proxy unselectable, so
   the mere passing of time cannot turn "none" into "some" -- and a benched proxy is chosen only
   when no ready one serves the scheme.
   */
  lemma ChoiceIsEligible(pool: seq<Pooled>, ctx: SelectCtx)
    ensures BestFor(pool, ctx).None? <==> !SomeServes(pool, ctx.scheme)
    ensures BestFor(pool, ctx).Some? ==>
      var i := BestFor(pool, ctx).value;
      && i < |pool|
      && pool[i].proxy.Serves(ctx.scheme)
      && (!IsReady(pool[i], ctx.now) ==>
            forall j :: 0 <= j < |pool| && pool[j].proxy.Serves(ctx.scheme) ==> !IsReady(pool[j], ctx.now))
  {
    TierFromIs(pool, ctx.scheme, ctx.now, true, 0);
    TierFromIs(pool, ctx.scheme, ctx.now, false, 0);
    var ready := TierFrom(pool, ctx.scheme, ctx.now, true, 0);
    var benched := TierFrom(pool, ctx.scheme, ctx.now, false, 0);
    if i :| 0 <= i < |pool| && pool[i].proxy.Serves(ctx.scheme) {
      assert i in ready || i in benched;
    }
    if ready == [] {
      forall j | 0 <= j < |pool| && pool[j].proxy.Serves(ctx.scheme)
        ensures !IsReady(pool[j], ctx.now)
      {
        assert j !in ready;
      }
    }
  }

  /** A pool position that is served from first: ready if any ready proxy serves the scheme. */
  ghost predicate InBestTier(pool: seq<Pooled>, ctx: SelectCtx, i: nat) {
    && i < |pool|
    && pool[i].proxy.Serves(ctx.scheme)
    && (IsReady(pool[i], ctx.now)
        || forall j :: 0 <= j < |pool| && pool[j].proxy.Serves(ctx.scheme) ==> !IsReady(pool[j], ctx.now))
  }

  lemma TierIsBestTier(pool: seq<Pooled>, ctx: SelectCtx, i: nat)
    ensures i in Tier(pool, ctx.scheme, ctx.now) <==> InBestTier(pool, ctx, i)
  {
    TierFromIs(pool, ctx.scheme, ctx.now, true, 0);
    TierFromIs(pool, ctx.scheme, ctx.now, false, 0);
    var ready := TierFrom(pool, ctx.scheme, ctx.now, true, 0);
    if ready == [] {
      forall j | 0 <= j < |pool| && pool[j].proxy.Serves(ctx.scheme)
        ensures !IsReady(pool[j], ctx.now)
      {
        assert j !in ready;
      }
    } else {
      assert ready[0] in ready;
    }
  }

  lemma TierAscends(pool: seq<Pooled>, scheme: Scheme, now: int)
    ensures var t := Tier(pool, scheme, now); forall a, b :: 0 <= a < b < |t| ==> t[a] < t[b]
  {
    TierFromIs(pool, scheme, now, true, 0);
    TierFromIs(pool, scheme, now, false, 0);
  }

  /**
   `Best` (and `Sticky` without a usable pin) takes the first pool position that is minimal for
   (error key, time, CONNECT) in the best tier.
   */
  lemma BestIsFirstLexicographicMinimum(pool: seq<Pooled>, ctx: SelectCtx, j: nat)
    requires ctx.strategy == Best || (ctx.strategy == Sticky && ctx.sticky.None?)
    requires InBestTier(pool, ctx, j)
    ensures BestFor(pool, ctx).Some?
    ensures var i := BestFor(pool, ctx).value;
      && InBestTier(pool, ctx, i)
      && !Less(RankOf(pool[j], ctx.preferConnect), RankOf(pool[i], ctx.preferConnect))
      && (j < i ==> Less(RankOf(pool[i], ctx.preferConnect), RankOf(pool[j], ctx.preferConnect)))
  {
    var tier := Tier(pool, ctx.scheme, ctx.now);
    TierIsBestTier(pool, ctx, j);
    TierAscends(pool, ctx.scheme, ctx.now);
    var k := FirstMinimum(Ranks(pool, tier, ctx.preferConnect));
    TierIsBestTier(pool, ctx, tier[k]);
    var m :| 0 <= m < |tier| && tier[m] == j;
    assert j < tier[k] ==> m < k;
  }

  /** The pinned address is reused exactly when it is in the best tier. */
  lemma StickyReusesPin(pool: seq<Pooled>, ctx: SelectCtx, addr: Address)
    requires ctx.strategy == Sticky && ctx.sticky == Some(addr)
    requires BestFor(pool, ctx).Some?
    ensures pool[BestFor(pool, ctx).value].proxy.addr == addr
      <==> exists i: nat :: InBestTier(pool, ctx, i) && pool[i].proxy.addr == addr
  {
    var tier := Tier(pool, ctx.scheme, ctx.now);
    var r := BestFor(pool, ctx).value;
    TierIsBestTier(pool, ctx, r);
    if i: nat :| InBestTier(pool, ctx, i) && pool[i].proxy.addr == addr {
      TierIsBestTier(pool, ctx, i);
    }
  }

  /**
   `RoundRobin` and `Random` rotate among CONNECT-capable proxies when that is preferred and the
   best tier has any.
   */
  lemma RotationPrefersConnect(pool: seq<Pooled>, ctx: SelectCtx, j: nat)
    requires ctx.strategy == RoundRobin || ctx.strategy == Random
    requires ctx.preferConnect && InBestTier(pool, ctx, j) && HasConnect(pool[j])
    ensures BestFor(pool, ctx).Some? && HasConnect(pool[BestFor(pool, ctx).value])
  {
    var tier := Tier(pool, ctx.scheme, ctx.now);
    TierIsBestTier(pool, ctx, j);
    var connect := KeepConnect(pool, tier);
    assert j in connect;
    assert ConnectBiased(pool, tier, true) == connect;
  }
}
