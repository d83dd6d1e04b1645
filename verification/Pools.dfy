/**
 The live pool (`Pool` in `src/server.rs`).

 Each method is what the source does inside its lock sections. Ghost books say where every admitted
 address is, so that conservation is part of `Valid`: an address is pooled, leased, evicted or
 removed, and nowhere twice.
 */
module Pools {
  import opened Wrappers
  import opened Proxies
  import opened Selection

  datatype PoolConfig = PoolConfig(
    maxTries: nat,
    maxErrorRate: real,
    maxRespTime: real,
    minReq: nat,
    countries: Option<set<string>>,
    strategy: Strategy,
    stickyHeader: Option<seq<byte>>,
    maxSessions: nat,
    failTimeout: nat,
    preferConnect: bool,
    httpAllowedCodes: Option<seq<nat>>,
    verifyOnLease: bool)

  datatype ClientKey = ByIp(ip: Ip) | ByHeader(value: seq<byte>)

  const VERIFY_MAX_ATTEMPTS := 8

  /** One proxy given back, and until when it is benched; `deadDraw` if a probe found it dead inside `get`. */
  datatype Return = Return(proxy: Proxy, blockedUntil: Option<int>, deadDraw: bool)

  /** The give-backs of those who had leased a proxy. */
  ghost function ByLessees(returned: seq<Return>): seq<Return> {
    if returned == [] then []
    else
      var last := returned[|returned| - 1];
      ByLessees(returned[..|returned| - 1]) + if last.deadDraw then [] else [last]
  }

  /** The charged record is where a give-back puts it: last in the pool, benched or not, or evicted. */
  ghost predicate Landed(state: seq<Pooled>, evictions: nat, give: Return, config: PoolConfig) {
    if Unhealthy(give.proxy, config) then evictions > 0
    else state != [] && state[|state| - 1] == Pooled(give.proxy, give.blockedUntil)
  }

  lemma LeaseCloses(leased: multiset<Address>, a: Address)
    ensures leased + multiset{a} - multiset{a} == leased
  {
  }

  lemma Append(a: seq<Return>, b: seq<Return>, c: seq<Return>)
    ensures (a + b) + c == a + (b + c)
  {
  }

  lemma OneMoreReturn(returned: seq<Return>, r: Return)
    ensures ByLessees(returned + [r]) == ByLessees(returned) + if r.deadDraw then [] else [r]
  {
    assert (returned + [r])[..|returned|] == returned;
  }

  lemma {:induction false} DeadDrawsAreNoLessees(before: seq<Return>, after: seq<Return>, n: nat)
    requires DeadDraws(before, after, n)
    ensures ByLessees(after) == ByLessees(before)
    decreases n
  {
    if n == 0 {
      assert after == before;
    } else {
      DeadDrawsAreNoLessees(before, after[..|after| - 1], n - 1);
    }
  }

  /** How a lease came about: without verification, with a probe that opened its tunnel, or in the last look. */
  datatype How = Unverified | Probed | LastLook

  /** What happens to a pool that someone is waiting on: an importer round, an insertion or a removal. */
  datatype Arrival = Imported | Inserted(proxy: Proxy) | Removed(addr: Address)

  /** What arrives in one round of `get`: between the look and the test of the source, and during the wait. */
  datatype Others = Others(between: seq<Arrival>, parked: seq<Arrival>)

  /** How one round of `get` ends. */
  datatype RoundEnd = Drawn | DrewDead | Looked | Waited

  function Dead(end: RoundEnd): nat {
    if end == DrewDead then 1 else 0
  }

  /** n proxies that were drawn, probed dead and benched, and nothing else. */
  ghost predicate DeadDraws(before: seq<Return>, after: seq<Return>, n: nat) {
    && before <= after && |after| == |before| + n
    && forall i :: |before| <= i < |after| ==> after[i].deadDraw && after[i].blockedUntil.Some?
  }

  /** `country_ok` (`src/broker.rs`); the set holds upper-case codes, as do the records here. */
  predicate CountryOk(p: Proxy, countries: Option<set<string>>) {
    countries.None? || (p.country.Some? && p.country.value in countries.value)
  }

  /** What `put_inner` drops outright. */
  predicate Unhealthy(p: Proxy, config: PoolConfig) {
    p.requests >= config.minReq
    && (p.ErrorRate() > config.maxErrorRate || p.AvgRespTime() > config.maxRespTime)
  }

  /** `Vec::swap_remove`: the last element fills the gap. */
  function SwapRemove<T>(s: seq<T>, i: nat): (r: seq<T>)
    requires i < |s|
    ensures |r| == |s| - 1
  {
    if i == |s| - 1 then s[..i] else s[..|s| - 1][i := s[|s| - 1]]
  }

  /** `Vec::retain` of every entry at another address. */
  function Without(s: seq<Pooled>, addr: Address): (r: seq<Pooled>) {
    if s == [] then []
    else
      var init, last := Without(s[..|s| - 1], addr), s[|s| - 1];
      if last.proxy.addr == addr then init else init + [last]
  }

  function Admissible(proxies: seq<Proxy>, countries: Option<set<string>>): seq<Pooled> {
    if proxies == [] then []
    else
      var init, last := Admissible(proxies[..|proxies| - 1], countries), proxies[|proxies| - 1];
      if CountryOk(last, countries) then init + [Pooled(last, None)] else init
  }

  // ----- Counting addresses -----

  /** How many entries of the pool are at this address; the source does not promise at most one. */
  ghost function Count(s: seq<Pooled>, a: Address): nat {
    if s == [] then 0
    else Count(s[..|s| - 1], a) + (if s[|s| - 1].proxy.addr == a then 1 else 0)
  }

  lemma CountPush(s: seq<Pooled>, p: Pooled, a: Address)
    ensures Count(s + [p], a) == Count(s, a) + (if p.proxy.addr == a then 1 else 0)
  {
    assert (s + [p])[..|s|] == s;
  }

  lemma {:induction false} CountUpdate(s: seq<Pooled>, i: nat, p: Pooled, a: Address)
    requires i < |s|
    ensures Count(s[i := p], a) + (if s[i].proxy.addr == a then 1 else 0)
         == Count(s, a) + (if p.proxy.addr == a then 1 else 0)
  {
    var n := |s| - 1;
    if i == n {
      assert s[i := p][..n] == s[..n];
    } else {
      CountUpdate(s[..n], i, p, a);
      assert s[i := p][..n] == s[..n][i := p];
    }
  }

  lemma CountSwapRemove(s: seq<Pooled>, i: nat, a: Address)
    requires i < |s|
    ensures Count(SwapRemove(s, i), a) + (if s[i].proxy.addr == a then 1 else 0) == Count(s, a)
  {
    if i < |s| - 1 {
      CountUpdate(s[..|s| - 1], i, s[|s| - 1], a);
    }
  }

  lemma {:induction false} CountWithout(s: seq<Pooled>, addr: Address, a: Address)
    ensures Count(Without(s, addr), a) == if a == addr then 0 else Count(s, a)
    ensures |Without(s, addr)| == |s| - Count(s, addr)
  {
    if s != [] {
      var init, last := s[..|s| - 1], s[|s| - 1];
      CountWithout(init, addr, a);
      if last.proxy.addr != addr {
        CountPush(Without(init, addr), last, a);
      }
    }
  }

  lemma {:induction false} CountPositive(s: seq<Pooled>, a: Address)
    ensures Count(s, a) > 0 <==> exists i :: 0 <= i < |s| && s[i].proxy.addr == a
  {
    if s != [] {
      CountPositive(s[..|s| - 1], a);
      if Count(s[..|s| - 1], a) > 0 {
        var i :| 0 <= i < |s| - 1 && s[..|s| - 1][i].proxy.addr == a;
        assert s[i].proxy.addr == a;
      } else if i :| 0 <= i < |s| && s[i].proxy.addr == a {
        assert i < |s| - 1 ==> s[..|s| - 1][i].proxy.addr == a;
      }
    }
  }

  /**
   Where every admitted address is. `taken` and `given` count the leases handed out and returned,
   `drops` the evictions.
   */
  datatype Books = Books(
    admitted: multiset<Address>,
    leased: multiset<Address>,
    evicted: multiset<Address>,
    removed: multiset<Address>,
    taken: nat,
    given: nat,
    drops: nat)
  {
    ghost predicate Accounted(a: Address, pool: seq<Pooled>) {
      Count(pool, a) + leased[a] + evicted[a] + removed[a] == admitted[a]
    }

    /** Conservation: nothing admitted is lost or in two places, and the counters tell the same story. */
    ghost predicate Balance(pool: seq<Pooled>) {
      (forall a :: Accounted(a, pool)) && taken == given + |leased| && drops == |evicted|
    }

    ghost function Admit(a: Address): Books {
      this.(admitted := admitted + multiset{a})
    }

    ghost function Lease(a: Address): Books {
      this.(leased := leased + multiset{a}, taken := taken + 1)
    }

    ghost function Return(a: Address): Books {
      this.(leased := leased - multiset{a}, given := given + 1)
    }

    ghost function Evict(a: Address): Books {
      Return(a).(evicted := evicted + multiset{a}, drops := drops + 1)
    }

    /** A give-back: an unhealthy proxy is evicted. */
    ghost function TakeBack(p: Proxy, config: PoolConfig): (b: Books)
      ensures b.leased == leased - multiset{p.addr}
    {
      if Unhealthy(p, config) then Evict(p.addr) else Return(p.addr)
    }

    ghost function Remove(a: Address, n: nat): Books {
      this.(removed := removed + multiset{}[a := n])
    }

    lemma LeaseBalances(pool: seq<Pooled>, i: nat)
      requires Balance(pool) && i < |pool|
      ensures Lease(pool[i].proxy.addr).Balance(SwapRemove(pool, i))
    {
      var b := Lease(pool[i].proxy.addr);
      forall x ensures b.Accounted(x, SwapRemove(pool, i)) {
        assert Accounted(x, pool);
        CountSwapRemove(pool, i, x);
      }
    }

    lemma ReturnBalances(pool: seq<Pooled>, p: Pooled)
      requires Balance(pool) && p.proxy.addr in leased
      ensures Return(p.proxy.addr).Balance(pool + [p])
      ensures Evict(p.proxy.addr).Balance(pool)
    {
      var a := p.proxy.addr;
      assert |leased - multiset{a}| == |leased| - 1;
      forall x ensures Return(a).Accounted(x, pool + [p]) && Evict(a).Accounted(x, pool) {
        assert Accounted(x, pool);
        CountPush(pool, p, x);
      }
    }

    lemma AdmitBalances(pool: seq<Pooled>, p: Pooled)
      requires Balance(pool)
      ensures Admit(p.proxy.addr).Balance(pool + [p])
    {
      var b := Admit(p.proxy.addr);
      forall x ensures b.Accounted(x, pool + [p]) {
        assert Accounted(x, pool);
        CountPush(pool, p, x);
      }
    }

    lemma RemoveBalances(pool: seq<Pooled>, a: Address)
      requires Balance(pool)
      ensures Remove(a, Count(pool, a)).Balance(Without(pool, a))
    {
      var b := Remove(a, Count(pool, a));
      forall x ensures b.Accounted(x, Without(pool, a)) {
        assert Accounted(x, pool);
        CountWithout(pool, a, x);
      }
    }

    /** The same, as one equation between multisets. */
    lemma BalanceIsSum(pool: seq<Pooled>)
      requires Balance(pool)
      ensures Addresses(pool) + leased + evicted + removed == admitted
    {
      forall a ensures (Addresses(pool) + leased + evicted + removed)[a] == admitted[a] {
        assert Accounted(a, pool);
        AddressesCount(pool, a);
      }
    }
  }

  ghost function Addresses(s: seq<Pooled>): multiset<Address> {
    if s == [] then multiset{} else Addresses(s[..|s| - 1]) + multiset{s[|s| - 1].proxy.addr}
  }

  lemma {:induction false} AddressesCount(s: seq<Pooled>, a: Address)
    ensures Addresses(s)[a] == Count(s, a)
  {
    if s != [] {
      AddressesCount(s[..|s| - 1], a);
    }
  }

  /** Books opened over a pool that nothing has happened to yet. */
  ghost function Opened(pool: seq<Pooled>): (b: Books)
    ensures b.Balance(pool)
    ensures b.leased == multiset{} && b.taken == b.given == b.drops == 0
  {
    var b := Books(Addresses(pool), multiset{}, multiset{}, multiset{}, 0, 0, 0);
    assert forall a :: b.Accounted(a, pool) by {
      forall a ensures b.Accounted(a, pool) {
        AddressesCount(pool, a);
      }
    }
    b
  }

  // ----- Sticky pins -----

  /** What `record_session` leaves: the new pin, and at the bound one arbitrary other pin gone. */
  ghost predicate PinRecorded(before: map<ClientKey, Address>, after: map<ClientKey, Address>,
                              key: ClientKey, addr: Address, maxSessions: nat)
  {
    if |before| >= maxSessions && key !in before && before != map[] then
      exists victim :: victim in before && after == (before - {victim})[key := addr]
    else
      after == before[key := addr]
  }

  function PinBound(maxSessions: nat): nat {
    if maxSessions == 0 then 1 else maxSessions
  }

  lemma PinsStayBounded(before: map<ClientKey, Address>, after: map<ClientKey, Address>,
                        key: ClientKey, addr: Address, maxSessions: nat)
    requires |before| <= PinBound(maxSessions)
    requires PinRecorded(before, after, key, addr, maxSessions)
    ensures |after| <= PinBound(maxSessions)
    ensures key in after && after[key] == addr
    ensures key in before ==> after.Keys == before.Keys
  {
    if |before| >= maxSessions && key !in before && before != map[] {
      var victim :| victim in before && after == (before - {victim})[key := addr];
      SwapsPin(before, victim, key, addr);
    } else {
      AddsPin(before, key, addr);
      assert before == map[] ==> |before| == 0;
    }
  }

  lemma SwapsPin(before: map<ClientKey, Address>, victim: ClientKey, key: ClientKey, addr: Address)
    requires victim in before && key !in before
    ensures |(before - {victim})[key := addr]| == |before|
  {
    var rest := before - {victim};
    assert rest.Keys == before.Keys - {victim};
    assert rest[key := addr].Keys == rest.Keys + {key};
  }

  lemma AddsPin(before: map<ClientKey, Address>, key: ClientKey, addr: Address)
    ensures |before[key := addr]| == |before| + if key in before then 0 else 1
    ensures key in before ==> before[key := addr].Keys == before.Keys
  {
    assert before[key := addr].Keys == before.Keys + {key};
    assert key in before ==> before.Keys + {key} == before.Keys;
  }

  // ----- The pool -----

  class Pool {
    const config: PoolConfig
    var state: seq<Pooled>
    var sessions: map<ClientKey, Address>
    var roundRobin: nat
    var exhausted: bool
    var evictions: nat
    var rotations: nat
    /** How often `notify_waiters` has been called: a waiter is woken when this passes its snapshot. */
    var epoch: nat
    /** What the importer's stream still holds. */
    var source: seq<Proxy>

    ghost var books: Books
    /** Every give-back so far, in order. */
    ghost var givenBack: seq<Return>

    ghost predicate Valid()
      reads this
    {
      && books.Balance(state)
      && |givenBack| == books.given
      && books.drops == evictions
      && |sessions| <= PinBound(config.maxSessions)
      && (exhausted ==> source == [])
    }

    constructor FromProxies(proxies: seq<Proxy>, config: PoolConfig)
      ensures Valid() && this.config == config
      ensures state == Admissible(proxies, config.countries) && exhausted && source == []
      ensures sessions == map[] && roundRobin == evictions == rotations == epoch == 0
      ensures books == Opened(state) && givenBack == []
    {
      this.config := config;
      state := Admissible(proxies, config.countries);
      sessions, source, exhausted := map[], [], true;
      roundRobin, evictions, rotations, epoch := 0, 0, 0, 0;
      books, givenBack := Opened(Admissible(proxies, config.countries)), [];
    }

    constructor Spawn(stream: seq<Proxy>, config: PoolConfig)
      ensures Valid() && this.config == config
      ensures state == [] && !exhausted && source == stream
      ensures sessions == map[] && roundRobin == evictions == rotations == epoch == 0
      ensures books == Opened(state) && givenBack == []
    {
      this.config := config;
      state, sessions, source, exhausted := [], map[], stream, false;
      roundRobin, evictions, rotations, epoch := 0, 0, 0, 0;
      books, givenBack := Opened([]), [];
    }

    /** One round of the importer task. */
    method ImportNext()
      requires Valid() && !exhausted
      modifies this`state, this`epoch, this`exhausted, this`source, this`books
      ensures Valid()
      ensures old(source) == [] ==>
        exhausted && source == [] && state == old(state) && epoch == old(epoch) + 1 && books == old(books)
      ensures old(source) != [] ==>
        && !exhausted && source == old(source)[1..]
        && var p := old(source)[0];
           if CountryOk(p, config.countries) then
             && state == old(state) + [Pooled(p, None)]
             && epoch == old(epoch) + 1
             && books == old(books).Admit(p.addr)
           else
             state == old(state) && epoch == old(epoch) && books == old(books)
    {
      if source == [] {
        exhausted := true;
        epoch := epoch + 1;
      } else {
        var p := source[0];
        source := source[1..];
        if CountryOk(p, config.countries) {
          books.AdmitBalances(state, Pooled(p, None));
          state := state + [Pooled(p, None)];
          epoch := epoch + 1;
          books := books.Admit(p.addr);
        }
      }
    }

    /** Something arrives while someone is inside `get`; once the source is finished it brings nothing more. */
    method Arrive(a: Arrival)
      requires Valid()
      modifies this`state, this`epoch, this`exhausted, this`source, this`books
      ensures Valid() && epoch >= old(epoch)
      ensures books == old(books).(admitted := books.admitted, removed := books.removed)
      ensures exhausted ==> old(exhausted) || epoch > old(epoch)
      ensures SourceLeft() <= old(SourceLeft())
    {
      match a
      case Imported =>
        if !exhausted {
          ImportNext();
        }
      case Inserted(p) => Add(p);
      case Removed(addr) => var _ := Remove(addr);
    }

    /** Importer rounds that are left. */
    function SourceLeft(): nat
      reads this
    {
      |source| + if exhausted then 0 else 1
    }

    method ArriveAll(arrivals: seq<Arrival>)
      requires Valid()
      modifies this`state, this`epoch, this`exhausted, this`source, this`books
      ensures Valid() && epoch >= old(epoch)
      ensures books == old(books).(admitted := books.admitted, removed := books.removed)
      ensures exhausted ==> old(exhausted) || epoch > old(epoch)
      ensures SourceLeft() <= old(SourceLeft())
      ensures arrivals == [] ==> epoch == old(epoch) && exhausted == old(exhausted) && SourceLeft() == old(SourceLeft())
    {
      for i := 0 to |arrivals|
        invariant Valid() && epoch >= old(epoch)
        invariant books == old(books).(admitted := books.admitted, removed := books.removed)
        invariant exhausted ==> old(exhausted) || epoch > old(epoch)
        invariant SourceLeft() <= old(SourceLeft())
        invariant i == 0 ==> epoch == old(epoch) && exhausted == old(exhausted) && SourceLeft() == old(SourceLeft())
      {
        Arrive(arrivals[i]);
      }
    }

    /** `waker.await`: parked until a notification newer than the waker, while things arrive. */
    method AwaitNotified(snapshot: nat, parked: seq<Arrival>)
      requires Valid() && epoch >= snapshot && (epoch == snapshot ==> !exhausted)
      modifies this`state, this`epoch, this`exhausted, this`source, this`books
      ensures Valid() && epoch > snapshot
      ensures books == old(books).(admitted := books.admitted, removed := books.removed)
      ensures SourceLeft() <= old(SourceLeft())
      ensures parked == [] && old(epoch) == snapshot ==> SourceLeft() < old(SourceLeft())
    {
      ArriveAll(parked);
      while epoch == snapshot
        invariant Valid() && epoch >= snapshot
        invariant books == old(books).(admitted := books.admitted, removed := books.removed)
        invariant epoch == snapshot ==> !exhausted
        invariant SourceLeft() <= old(SourceLeft())
        invariant parked == [] && old(epoch) == snapshot && epoch > snapshot ==> SourceLeft() < old(SourceLeft())
        decreases SourceLeft()
      {
        ImportNext();
      }
    }

    function Context(scheme: Scheme, key: ClientKey, now: int, draw: nat): SelectCtx
      reads this
    {
      var pin := if config.strategy == Sticky && key in sessions then Some(sessions[key]) else None;
      SelectCtx(scheme, config.strategy, pin, roundRobin, now, config.preferConnect, draw)
    }

    /** `try_select`. */
    method TrySelect(scheme: Scheme, key: ClientKey, now: int, draw: nat) returns (r: Option<Proxy>)
      requires Valid()
      modifies this`state, this`sessions, this`roundRobin, this`books
      ensures Valid()
      ensures r.None? <==> !SomeServes(old(state), scheme)
      ensures r.None? ==>
        && state == old(state) && sessions == old(sessions) && roundRobin == old(roundRobin)
        && books == old(books)
      ensures r.Some? ==>
        var i := BestFor(old(state), old(Context(scheme, key, now, draw)));
        && i.Some? && i.value < |old(state)|
        && r.value == old(state)[i.value].proxy
        && r.value.Serves(scheme)
        && state == SwapRemove(old(state), i.value)
        && books == old(books).Lease(r.value.addr)
        && roundRobin == old(roundRobin) + (if config.strategy == RoundRobin then 1 else 0)
        && (if config.strategy == Sticky
            then PinRecorded(old(sessions), sessions, key, r.value.addr, config.maxSessions)
            else sessions == old(sessions))
    {
      var ctx := Context(scheme, key, now, draw);
      ChoiceIsEligible(state, ctx);
      var idx := BestFor(state, ctx);
      if idx.None? {
        return None;
      }
      var chosen := Take(idx.value);
      if config.strategy == RoundRobin {
        roundRobin := roundRobin + 1;
      }
      if config.strategy == Sticky {
        RecordSession(key, chosen.addr);
      }
      return Some(chosen);
    }

    method Take(i: nat) returns (chosen: Proxy)
      requires Valid() && i < |state|
      modifies this`state, this`books
      ensures Valid() && chosen == old(state)[i].proxy
      ensures state == SwapRemove(old(state), i) && books == old(books).Lease(chosen.addr)
    {
      chosen := state[i].proxy;
      books.LeaseBalances(state, i);
      state := SwapRemove(state, i);
      books := books.Lease(chosen.addr);
    }

    method RecordSession(key: ClientKey, addr: Address)
      requires |sessions| <= PinBound(config.maxSessions)
      modifies this`sessions
      ensures PinRecorded(old(sessions), sessions, key, addr, config.maxSessions)
      ensures |sessions| <= PinBound(config.maxSessions)
    {
      ghost var before := sessions;
      if |sessions| >= config.maxSessions && key !in sessions {
        if sessions != map[] {
          assert sessions.Keys != {};
          var victim :| victim in sessions.Keys;
          sessions := sessions - {victim};
        }
      }
      sessions := sessions[key := addr];
      PinsStayBounded(before, sessions, key, addr, config.maxSessions);
    }

    /** `put_ok`. */
    method PutOk(proxy: Proxy)
      requires Valid() && proxy.addr in books.leased
      modifies this`state, this`epoch, this`evictions, this`books, this`givenBack
      ensures Valid() && givenBack == old(givenBack) + [Return(proxy, None, false)]
      ensures Returned(old(state), old(epoch), old(evictions), proxy, None)
      ensures books == old(books).TakeBack(proxy, config)
    {
      PutInner(proxy, None, false);
    }

    /** `put_failed`. */
    method PutFailed(proxy: Proxy, now: int, ghost deadDraw: bool)
      requires Valid() && proxy.addr in books.leased
      modifies this`state, this`epoch, this`evictions, this`books, this`givenBack
      ensures Valid() && givenBack == old(givenBack) + [Return(proxy, Some(now + config.failTimeout), deadDraw)]
      ensures Returned(old(state), old(epoch), old(evictions), proxy, Some(now + config.failTimeout))
      ensures books == old(books).TakeBack(proxy, config)
    {
      PutInner(proxy, Some(now + config.failTimeout), deadDraw);
    }

    /** The pool after a return: an unhealthy proxy is counted and gone, any other is at the back. */
    ghost predicate Returned(before: seq<Pooled>, beforeEpoch: nat, beforeEvictions: nat, proxy: Proxy,
                             blockedUntil: Option<int>)
      reads this
    {
      if Unhealthy(proxy, config) then
        state == before && epoch == beforeEpoch && evictions == beforeEvictions + 1
      else
        state == before + [Pooled(proxy, blockedUntil)] && epoch == beforeEpoch + 1 && evictions == beforeEvictions
    }

    method PutInner(proxy: Proxy, blockedUntil: Option<int>, ghost deadDraw: bool)
      requires Valid() && proxy.addr in books.leased
      modifies this`state, this`epoch, this`evictions, this`books, this`givenBack
      ensures Valid() && givenBack == old(givenBack) + [Return(proxy, blockedUntil, deadDraw)]
      ensures Returned(old(state), old(epoch), old(evictions), proxy, blockedUntil)
      ensures books == old(books).TakeBack(proxy, config)
    {
      if Unhealthy(proxy, config) {
        Drop(proxy, blockedUntil, deadDraw);
      } else {
        PushBack(Pooled(proxy, blockedUntil), deadDraw);
      }
    }

    method Drop(proxy: Proxy, ghost blockedUntil: Option<int>, ghost deadDraw: bool)
      requires Valid() && proxy.addr in books.leased
      modifies this`evictions, this`books, this`givenBack
      ensures Valid() && evictions == old(evictions) + 1 && books == old(books).Evict(proxy.addr)
      ensures givenBack == old(givenBack) + [Return(proxy, blockedUntil, deadDraw)]
    {
      books.ReturnBalances(state, Pooled(proxy, None));
      evictions := evictions + 1;
      books := books.Evict(proxy.addr);
      givenBack := givenBack + [Return(proxy, blockedUntil, deadDraw)];
    }

    method PushBack(p: Pooled, ghost deadDraw: bool)
      requires Valid() && p.proxy.addr in books.leased
      modifies this`state, this`epoch, this`books, this`givenBack
      ensures Valid() && state == old(state) + [p] && epoch == old(epoch) + 1
      ensures books == old(books).Return(p.proxy.addr)
      ensures givenBack == old(givenBack) + [Return(p.proxy, p.blockedUntil, deadDraw)]
    {
      books.ReturnBalances(state, p);
      state := state + [p];
      epoch := epoch + 1;
      books := books.Return(p.proxy.addr);
      givenBack := givenBack + [Return(p.proxy, p.blockedUntil, deadDraw)];
    }

    /** `remove` and `remove_addr`: whether anything was there, and nothing at that address is left. */
    method Remove(addr: Address) returns (any: bool)
      requires Valid()
      modifies this`state, this`books
      ensures Valid()
      ensures any <==> Count(old(state), addr) > 0
      ensures state == Without(old(state), addr) && Count(state, addr) == 0
      ensures books == old(books).Remove(addr, Count(old(state), addr))
    {
      CountWithout(state, addr, addr);
      var before := |state|;
      books.RemoveBalances(state, addr);
      books := books.Remove(addr, Count(state, addr));
      state := Without(state, addr);
      any := before != |state|;
    }

    predicate Holds(addr: Address)
      reads this
      ensures Holds(addr) <==> Count(state, addr) > 0
    {
      CountPositive(state, addr);
      exists i :: 0 <= i < |state| && state[i].proxy.addr == addr
    }

    /** `add`: deduplicated on the address, no country filter. */
    method Add(proxy: Proxy)
      requires Valid()
      modifies this`state, this`epoch, this`books
      ensures Valid()
      ensures if Count(old(state), proxy.addr) > 0
              then state == old(state) && epoch == old(epoch) && books == old(books)
              else && state == old(state) + [Pooled(proxy, None)] && epoch == old(epoch) + 1
                   && books == old(books).Admit(proxy.addr)
      ensures Count(state, proxy.addr) > 0
    {
      if Holds(proxy.addr) {
        return;
      }
      books.AdmitBalances(state, Pooled(proxy, None));
      CountPush(state, Pooled(proxy, None), proxy.addr);
      state := state + [Pooled(proxy, None)];
      epoch := epoch + 1;
      books := books.Admit(proxy.addr);
    }

    /** The bench for a draw that was probed dead; all the caller needs is that the lease is over. */
    method BenchDead(proxy: Proxy, now: int)
      requires Valid() && proxy.addr in books.leased
      modifies this`state, this`epoch, this`evictions, this`books, this`givenBack
      ensures Valid() && DeadDraws(old(givenBack), givenBack, 1)
      ensures books.leased == old(books).leased - multiset{proxy.addr}
      ensures books.given == old(books).given + 1 && books.taken == old(books).taken
    {
      PutFailed(proxy, now, true);
    }

    /** How a draw ends: nothing to draw, a proxy probed dead and put back, or a proxy leased. */
    method Draw(scheme: Scheme, key: ClientKey, now: int, draw: nat, live: bool) returns (r: Option<Proxy>, dead: bool)
      requires Valid()
      modifies this`state, this`epoch, this`evictions, this`books, this`sessions, this`roundRobin, this`givenBack
      ensures Valid()
      ensures dead ==> r.None? && config.verifyOnLease && !live
      ensures r.Some? ==> r.value.Serves(scheme) && books == old(books).Lease(r.value.addr)
      // A proxy comes out only where none is to be probed, or where its probe opened the tunnel.
      ensures r.Some? ==> !config.verifyOnLease || live
      ensures r.None? ==> books.leased == old(books).leased
      ensures dead ==> books.taken == old(books).taken + 1 && books.given == old(books).given + 1
      ensures if dead then DeadDraws(old(givenBack), givenBack, 1) else givenBack == old(givenBack)
      ensures r.None? && !dead ==>
        && books == old(books) && state == old(state) && epoch == old(epoch) && !SomeServes(state, scheme)
    {
      r := TrySelect(scheme, key, now, draw);
      if r.None? || !config.verifyOnLease || live {
        return r, false;
      }
      assert books.leased - multiset{r.value.addr} == old(books).leased;
      BenchDead(r.value, now);
      return None, true;
    }

    /** After a look that found nothing: the last look if the source is finished, which is not probed; else the wait. */
    method AfterEmptyLook(scheme: Scheme, key: ClientKey, now: int, draw: nat, waker: nat, arrivals: Others)
      returns (r: Option<Proxy>, last: bool)
      requires Valid() && epoch == waker
      modifies this`state, this`epoch, this`books, this`sessions, this`roundRobin, this`exhausted, this`source
      ensures Valid() && (last ==> exhausted) && (!last ==> r.None?)
      ensures books.taken == old(books).taken + (if r.Some? then 1 else 0) && books.given == old(books).given
      ensures r.Some? ==> r.value.Serves(scheme) && books.leased == old(books).leased + multiset{r.value.addr}
      ensures r.None? ==> books.leased == old(books).leased && (last ==> !SomeServes(state, scheme))
      ensures SourceLeft() <= old(SourceLeft())
      ensures !last && arrivals == Others([], []) ==> SourceLeft() < old(SourceLeft())
    {
      ArriveAll(arrivals.between);
      if exhausted {
        r := TrySelect(scheme, key, now, draw);
        return r, true;
      }
      AwaitNotified(waker, arrivals.parked);
      return None, false;
    }

    /** One round of `get`. */
    method OneRound(scheme: Scheme, key: ClientKey, now: int, draw: nat, live: bool, arrivals: Others)
      returns (r: Option<Proxy>, end: RoundEnd)
      requires Valid()
      modifies this`state, this`epoch, this`evictions, this`books, this`sessions, this`roundRobin, this`exhausted
      modifies this`source, this`givenBack
      ensures Valid()
      ensures r.Some? ==> r.value.Serves(scheme) && books.leased == old(books).leased + multiset{r.value.addr}
      ensures r.None? ==> books.leased == old(books).leased
      ensures end == Drawn ==> r.Some? && (!config.verifyOnLease || live)
      ensures end == DrewDead ==> r.None? && config.verifyOnLease && !live
      ensures end == Looked ==> exhausted && (r.None? ==> !SomeServes(state, scheme))
      ensures end == Waited ==> r.None?
      ensures books.taken == old(books).taken + Dead(end) + (if r.Some? then 1 else 0)
      ensures books.given == old(books).given + Dead(end) && DeadDraws(old(givenBack), givenBack, Dead(end))
      ensures SourceLeft() <= old(SourceLeft())
      ensures end == Waited && arrivals == Others([], []) ==> SourceLeft() < old(SourceLeft())
    {
      var waker := epoch;
      var dead;
      r, dead := Draw(scheme, key, now, draw, live);
      if dead {
        return r, DrewDead;
      } else if r.Some? {
        return r, Drawn;
      }
      var last;
      r, last := AfterEmptyLook(scheme, key, now, draw, waker, arrivals);
      end := if last then Looked else Waited;
    }

    /**
     `get`. The environment decides, round by round, the clock, the generator, whether a probe of the
     drawn proxy opens its tunnel, and what arrives; from some round on only the importer is at work.
     `last` is the round that ended it.
     */
    method Get(scheme: Scheme, key: ClientKey, now: nat -> int, draw: nat -> nat, live: nat -> bool,
               others: seq<Others>)
      returns (r: Option<Proxy>, redraws: nat, how: How, ghost last: nat)
      requires Valid()
      modifies this`state, this`epoch, this`evictions, this`books, this`sessions, this`roundRobin, this`exhausted
      modifies this`source, this`givenBack
      ensures Valid()
      ensures r.Some? ==> r.value.Serves(scheme) && books.leased == old(books).leased + multiset{r.value.addr}
      ensures r.None? ==> books.leased == old(books).leased
      // Every draw that was probed dead went back before the next one, so at most one lease is open.
      ensures books.taken == old(books).taken + redraws + (if r.Some? then 1 else 0)
      ensures books.given == old(books).given + redraws && DeadDraws(old(givenBack), givenBack, redraws)
      ensures redraws <= VERIFY_MAX_ATTEMPTS && (r.Some? ==> redraws < VERIFY_MAX_ATTEMPTS)
      ensures !config.verifyOnLease ==> redraws == 0
      // With verification on, what comes out was probed live in the last round, unless it comes of the last look.
      ensures r.Some? && config.verifyOnLease ==> (how == Probed && live(last)) || (how == LastLook && exhausted)
      ensures how == Probed ==> config.verifyOnLease
      // `None` means eight dead draws, or a finished source and nothing left for the scheme.
      ensures r.None? ==> redraws == VERIFY_MAX_ATTEMPTS || (exhausted && !SomeServes(state, scheme))
    {
      redraws, how, last := 0, if config.verifyOnLease then Probed else Unverified, 0;
      var round := 0;
      while true
        invariant Valid()
        invariant books.leased == old(books).leased && how == if config.verifyOnLease then Probed else Unverified
        invariant redraws < VERIFY_MAX_ATTEMPTS && DeadDraws(old(givenBack), givenBack, redraws)
        invariant books.given == old(books).given + redraws && books.taken == old(books).taken + redraws
        invariant !config.verifyOnLease ==> redraws == 0
        decreases if round < |others| then |others| - round else 0, SourceLeft(), VERIFY_MAX_ATTEMPTS - redraws
      {
        var arrivals := if round < |others| then others[round] else Others([], []);
        var end;
        last := round;
        r, end := OneRound(scheme, key, now(round), draw(round), live(round), arrivals);
        if end == Drawn {
          return;
        } else if end == Looked {
          how := LastLook;
          return;
        } else if end == DrewDead {
          redraws := redraws + 1;
          if redraws >= VERIFY_MAX_ATTEMPTS {
            return;
          }
        }
        round := round + 1;
      }
    }

    /** `get`, as far as its caller is concerned: the dead draws are nobody's give-backs. */
    method Checkout(scheme: Scheme, key: ClientKey, now: nat -> int, draw: nat -> nat, live: nat -> bool,
                    others: seq<Others>) returns (r: Option<Proxy>)
      requires Valid()
      modifies this`state, this`epoch, this`evictions, this`books, this`sessions, this`roundRobin, this`exhausted
      modifies this`source, this`givenBack
      ensures Valid() && ByLessees(givenBack) == ByLessees(old(givenBack))
      ensures r.Some? ==> r.value.Serves(scheme) && books.leased == old(books).leased + multiset{r.value.addr}
      ensures r.None? ==> books.leased == old(books).leased
    {
      var redraws, how;
      ghost var last;
      r, redraws, how, last := Get(scheme, key, now, draw, live, others);
      DeadDrawsAreNoLessees(old(givenBack), givenBack, redraws);
    }
  }
}
