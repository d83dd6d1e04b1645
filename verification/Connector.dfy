/**
 The rotating connector (`connect` in `src/connector.rs`): the relay's retry loop without a client, over
 the same pool.
 */
module Connector {
  import opened Wrappers
  import opened Proxies
  import opened Pools

  datatype ConnectError = NoProxyAvailable | AllFailed(last: Option<ProxyError>)

  /** What the environment decides in one round: the pool's clock and probes, and how the dial ends. */
  datatype Dial = Dial(
    now: nat -> int,
    draw: nat -> nat,
    live: nat -> bool,
    others: seq<Others>,
    error: Option<ProxyError>,
    benchTime: int)

  /** One lease: what came out, which protocol was dialled, what went back. */
  datatype Trial = Trial(leased: Proxy, proto: Proto, error: Option<ProxyError>, returned: Proxy)

  ghost predicate TrialIsSound(t: Trial, scheme: Scheme) {
    && t.leased.Serves(scheme)
    && Some(t.proto) == ConnectProto(t.leased, scheme)
    && t.proto !in {Https, Connect25}
    && t.returned == Report(t.leased, if t.error.Some? then Failed(t.error.value) else Worked(0.0))
  }

  /** The give-back of a trial: the charged record, benched iff the dial failed. */
  function Give(t: Trial, dial: Dial, config: PoolConfig): Return {
    Return(t.returned, if t.error.Some? then Some(dial.benchTime + config.failTimeout) else None, false)
  }

  function Gives(trials: seq<Trial>, dials: nat -> Dial, config: PoolConfig): seq<Return> {
    if trials == [] then []
    else Gives(trials[..|trials| - 1], dials, config) + [Give(trials[|trials| - 1], dials(|trials| - 1), config)]
  }

  /** The trials' give-backs, and no other lessee's, have been made since. */
  ghost predicate GaveBack(before: seq<Return>, after: seq<Return>, trials: seq<Trial>, dials: nat -> Dial,
                           config: PoolConfig)
  {
    ByLessees(after) == ByLessees(before) + Gives(trials, dials, config)
  }

  lemma OneMoreGive(before: seq<Return>, between: seq<Return>, after: seq<Return>, trials: seq<Trial>, t: Trial,
                    dials: nat -> Dial, config: PoolConfig)
    requires GaveBack(before, between, trials, dials, config)
    requires ByLessees(after) == ByLessees(between) + [Give(t, dials(|trials|), config)]
    ensures GaveBack(before, after, trials + [t], dials, config)
  {
    assert (trials + [t])[..|trials|] == trials;
    Append(ByLessees(before), Gives(trials, dials, config), [Give(t, dials(|trials|), config)]);
  }

  /** One round of the loop; `None` when the pool has nothing to lease. */
  method TryOnce(pool: Pool, scheme: Scheme, key: ClientKey, dial: Dial) returns (t: Option<Trial>)
    requires pool.Valid()
    modifies pool
    ensures pool.Valid() && pool.books.leased == old(pool.books).leased
    ensures pool.rotations == old(pool.rotations)
    ensures t.Some? ==> TrialIsSound(t.value, scheme) && t.value.error == dial.error
    ensures ByLessees(pool.givenBack) == ByLessees(old(pool.givenBack))
      + if t.Some? then [Give(t.value, dial, pool.config)] else []
    ensures t.Some? ==> Landed(pool.state, pool.evictions, Give(t.value, dial, pool.config), pool.config)
  {
    var leased := pool.Checkout(scheme, key, dial.now, dial.draw, dial.live, dial.others);
    if leased.None? {
      return None;
    }
    var proxy := leased.value;
    LeasedProxyHasProtocol(proxy, scheme);
    var proto := ConnectProto(proxy, scheme);
    if proto.None? {
      assert false;  // the source would return the proxy untouched
    }
    LeaseCloses(old(pool.books.leased), proxy.addr);
    var trial := Attend(pool, proxy, proto.value, dial);
    return Some(trial);
  }

  /** From the dial to the give-back. */
  method Attend(pool: Pool, proxy: Proxy, proto: Proto, dial: Dial) returns (t: Trial)
    requires pool.Valid() && proxy.addr in pool.books.leased
    modifies pool`state, pool`epoch, pool`evictions, pool`books, pool`givenBack
    ensures pool.Valid() && pool.books.leased == old(pool.books).leased - multiset{proxy.addr}
    ensures t.leased == proxy && t.proto == proto && t.error == dial.error
    ensures t.returned == Report(proxy, if dial.error.Some? then Failed(dial.error.value) else Worked(0.0))
    ensures ByLessees(pool.givenBack) == ByLessees(old(pool.givenBack)) + [Give(t, dial, pool.config)]
    ensures Landed(pool.state, pool.evictions, Give(t, dial, pool.config), pool.config)
  {
    var returned := GiveBack(pool, proxy, dial);
    t := Trial(proxy, proto, dial.error, returned);
    OneMoreReturn(old(pool.givenBack), Give(t, dial, pool.config));
  }

  /** After a dial: the proxy is charged, and it is the charged record that returns, benched or healthy. */
  method GiveBack(pool: Pool, proxy: Proxy, dial: Dial) returns (returned: Proxy)
    requires pool.Valid() && proxy.addr in pool.books.leased
    modifies pool`state, pool`epoch, pool`evictions, pool`books, pool`givenBack
    ensures pool.Valid() && pool.books.leased == old(pool.books).leased - multiset{proxy.addr}
    ensures returned == Report(proxy, if dial.error.Some? then Failed(dial.error.value) else Worked(0.0))
    ensures var until := if dial.error.Some? then Some(dial.benchTime + pool.config.failTimeout) else None;
      && pool.Returned(old(pool.state), old(pool.epoch), old(pool.evictions), returned, until)
      && pool.givenBack == old(pool.givenBack) + [Return(returned, until, false)]
    ensures pool.books == old(pool.books).TakeBack(returned, pool.config) && returned.addr == proxy.addr
  {
    if dial.error.None? {
      returned := Report(proxy, Worked(0.0));
      pool.PutOk(returned);
    } else {
      returned := Report(proxy, Failed(dial.error.value));
      pool.PutFailed(returned, dial.benchTime, false);
    }
  }

  ghost predicate AllSound(trials: seq<Trial>, scheme: Scheme) {
    forall i :: 0 <= i < |trials| ==> TrialIsSound(trials[i], scheme)
  }

  ghost predicate FailedBefore(trials: seq<Trial>, n: int) {
    forall i :: 0 <= i < n && i < |trials| ==> trials[i].error.Some?
  }

  /** All trials so far have failed, the last one with this error. */
  ghost predicate GoesOn(trials: seq<Trial>, scheme: Scheme, last: Option<ProxyError>) {
    && AllSound(trials, scheme) && FailedBefore(trials, |trials|)
    && last == if trials == [] then None else trials[|trials| - 1].error
  }

  lemma OneMoreTrial(trials: seq<Trial>, t: Trial, scheme: Scheme, last: Option<ProxyError>)
    requires GoesOn(trials, scheme, last) && TrialIsSound(t, scheme)
    ensures AllSound(trials + [t], scheme) && FailedBefore(trials + [t], |trials|)
    ensures t.error.Some? ==> GoesOn(trials + [t], scheme, t.error)
  {
  }

  /** `connect`: lease, dial, give back, and try again while dials fail. */
  method Connect(pool: Pool, scheme: Scheme, key: ClientKey, maxTries: nat, dials: nat -> Dial)
    returns (r: Result<Proto, ConnectError>, trials: seq<Trial>)
    requires pool.Valid()
    modifies pool
    // The stream handed out outlives the call; the lease does not.
    ensures pool.Valid() && pool.books.leased == old(pool.books).leased && pool.rotations == old(pool.rotations)
    // One give-back for each lease: the charged record, benched iff its dial failed.
    ensures GaveBack(old(pool.givenBack), pool.givenBack, trials, dials, pool.config)
    ensures |trials| <= maxTries && AllSound(trials, scheme) && FailedBefore(trials, |trials| - 1)
    ensures r.Success? <==> trials != [] && trials[|trials| - 1].error.None?
    ensures r.Success? ==> r.value == trials[|trials| - 1].proto
    ensures r.Failure? && r.error.AllFailed? ==>
      |trials| == maxTries && r.error.last == if maxTries == 0 then None else trials[maxTries - 1].error
  {
    trials := [];
    var last := None;
    while |trials| < maxTries
      invariant pool.Valid() && pool.books.leased == old(pool.books).leased && pool.rotations == old(pool.rotations)
      invariant GaveBack(old(pool.givenBack), pool.givenBack, trials, dials, pool.config)
      invariant |trials| <= maxTries && GoesOn(trials, scheme, last)
      decreases maxTries - |trials|
    {
      ghost var between := pool.givenBack;
      var t := TryOnce(pool, scheme, key, dials(|trials|));
      if t.None? {
        return Failure(NoProxyAvailable), trials;
      }
      OneMoreTrial(trials, t.value, scheme, last);
      OneMoreGive(old(pool.givenBack), between, pool.givenBack, trials, t.value, dials, pool.config);
      trials := trials + [t.value];
      if t.value.error.None? {
        return Success(t.value.proto), trials;
      }
      last := t.value.error;
    }
    return Failure(AllFailed(last)), trials;
  }
}
